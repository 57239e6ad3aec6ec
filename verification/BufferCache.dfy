/** kernel/bio.c: the buffer cache, a doubly linked ring of NBUF buffers in least-recently-used order,
    over a disk that is an array of blocks.  A pointer into bcache.buf is an index, and HEAD stands for
    bcache.head.  A buffer's sleep-lock (SleepTheorems.NoSleeperOnFreeSleepLock) is what lets a holder
    change its data between bread and brelse; bread is Bget and, if the buffer is not valid, Fill,
        and between them other
    operations see the buffer with its new block and not valid. */
module BufferCache {
  import opened Common

  const MAXOPBLOCKS: nat := 10
  const NBUF: nat := 30
  const HEAD: nat := 30

  /** A block is 256 words of 32 bits. */
  type Block = b: seq<nat> | |b| == 256 witness seq(256, i => 0)

  datatype Buf = Buf(dev: nat, blockno: nat, valid: bool, refcnt: nat, data: Block)

  /** The ring positions: HEAD first, then the buffers from most to least recently used. */
  function Cycle(order: seq<nat>): seq<nat> {
    [HEAD] + order
  }

  ghost predicate LinkAt(next: seq<nat>, prev: seq<nat>, order: seq<nat>, i: nat)
    requires |next| == |prev| == NBUF + 1 && i <= |order| && forall k :: 0 <= k < |order| ==> order[k] < NBUF
  {
    var c := Cycle(order);
    var j := if i == |order| then 0 else i + 1;
    next[c[i]] == c[j] && prev[c[j]] == c[i]
  }

  /** The list is a ring through the head and each of the buffers in `order`, both ways round. */
  ghost predicate Ring(next: seq<nat>, prev: seq<nat>, order: seq<nat>) {
    && |next| == |prev| == NBUF + 1
    && (forall k :: 0 <= k < |order| ==> order[k] < NBUF)
    && (forall j, k :: 0 <= j < k < |order| ==> order[j] != order[k])
    && (forall i :: 0 <= i <= |order| ==> LinkAt(next, prev, order, i))
  }

  /** The ring holds every buffer once. */
  ghost predicate Everybody(order: seq<nat>) {
    |order| == NBUF && forall b :: 0 <= b < NBUF ==> b in order
  }

  /** No two buffers hold the same block of a real device. */
  ghost predicate Unique(bufs: seq<Buf>) {
    forall i, j :: 0 <= i < j < |bufs| && bufs[i].dev != 0 && bufs[i].dev == bufs[j].dev ==>
          bufs[i].blockno != bufs[j].blockno
  }

  /** Inserting x right behind the head. */
  lemma RingInsert(next: seq<nat>, prev: seq<nat>, order: seq<nat>, x: nat, next': seq<nat>, prev': seq<nat>)
    requires Ring(next, prev, order) && x < NBUF && x !in order && next[HEAD] <= NBUF
    requires next' == next[x := next[HEAD]][HEAD := x]
    requires prev' == prev[x := HEAD][next[HEAD] := x]
    ensures Ring(next', prev', [x] + order)
  {
    assert LinkAt(next, prev, order, 0);
    forall i | 0 <= i <= |order| + 1 ensures LinkAt(next', prev', [x] + order, i) {
      if i >= 1 {
        assert LinkAt(next, prev, order, i - 1);
      }
      if i >= 2 {
        assert order[i - 2] != x;
      }
    }
  }

  /** Unlinking the buffer at position k. */
  lemma RingRemove(next: seq<nat>, prev: seq<nat>, order: seq<nat>, k: nat, next': seq<nat>, prev': seq<nat>)
    requires Ring(next, prev, order) && k < |order|
    requires prev[order[k]] <= NBUF && next[order[k]] <= NBUF
    requires next' == next[prev[order[k]] := next[order[k]]]
    requires prev' == prev[next[order[k]] := prev[order[k]]]
    ensures Ring(next', prev', order[..k] + order[k + 1..])
  {
    var r := order[..k] + order[k + 1..];
    assert LinkAt(next, prev, order, k) && LinkAt(next, prev, order, k + 1);
    forall i | 0 <= i <= |r| ensures LinkAt(next', prev', r, i) {
      assert LinkAt(next, prev, order, i);
      assert LinkAt(next, prev, order, i + 1);
    }
  }

  /** The buffer at ring position i (HEAD past the end), and what its links say. */
  ghost function Stop(order: seq<nat>, i: int): nat
    requires -1 <= i <= |order|
  {
    if 0 <= i < |order| then order[i] else HEAD
  }

  lemma RingWalk(next: seq<nat>, prev: seq<nat>, order: seq<nat>, i: nat)
    requires Ring(next, prev, order) && i <= |order|
    ensures i < |order| ==> next[order[i]] == Stop(order, i + 1) && prev[order[i]] == Stop(order, i - 1)
    ensures next[HEAD] == Stop(order, 0) && prev[HEAD] == Stop(order, |order| - 1)
  {
    assert LinkAt(next, prev, order, 0) && LinkAt(next, prev, order, |order|) && LinkAt(next, prev, order, i);
    if i < |order| {
      assert LinkAt(next, prev, order, i + 1);
    }
  }

  predicate Holds(b: Buf, dev: nat, blockno: nat) {
    b.dev == dev && b.blockno == blockno
  }

  ghost predicate Hit(bufs: seq<Buf>, dev: nat, blockno: nat) {
    exists i :: 0 <= i < |bufs| && Holds(bufs[i], dev, blockno)
  }

  /** Ring position of the least recently used buffer that nobody refers to, or -1. */
  ghost function LastFree(bufs: seq<Buf>, order: seq<nat>): (k: int)
    requires forall i :: 0 <= i < |order| ==> order[i] < |bufs|
    ensures -1 <= k < |order| && (k >= 0 ==> bufs[order[k]].refcnt == 0)
    ensures forall i :: k < i < |order| ==> bufs[order[i]].refcnt != 0
  {
    if order == [] then -1
    else if bufs[order[|order| - 1]].refcnt == 0 then |order| - 1
    else LastFree(bufs, order[..|order| - 1])
  }

  /** What bget leaves behind: buffer i has one more reference; it was the block's already, or nobody referred to it
      and it is the block's now, not valid; no other buffer changed. */
  ghost predicate Got(bufs: seq<Buf>, bufs': seq<Buf>, i: nat, dev: nat, blockno: nat) {
    && |bufs'| == |bufs| && i < |bufs| && (forall j :: 0 <= j < |bufs| && j != i ==> bufs'[j] == bufs[j])
    && if Holds(bufs[i], dev, blockno) then bufs'[i] == bufs[i].(refcnt := bufs[i].refcnt + 1)
       else bufs[i].refcnt == 0 && !Hit(bufs, dev, blockno) && bufs'[i] == Buf(dev, blockno, false, 1, bufs[i].data)
  }

  class BufCache {
    var bufs: seq<Buf>
    var next: seq<nat>
    var prev: seq<nat>
    ghost var order: seq<nat>
    var disk: seq<Block>
    ghost var writes: seq<seq<Block>>  // the disk after each block write so far

    ghost predicate Valid()
      reads this
    {
      && |bufs| == NBUF && Ring(next, prev, order) && Everybody(order) && Unique(bufs)
    }

    /** binit. */
    constructor (image: seq<Block>)
      ensures Valid() && disk == image && writes == []
      ensures forall i :: 0 <= i < NBUF ==> bufs[i].dev == 0 && bufs[i].refcnt == 0 && !bufs[i].valid
    {
      var zero: Block := seq(256, i => 0);
      bufs := seq(NBUF, i => Buf(0, 0, false, 0, zero));
      var n: seq<nat> := seq(NBUF + 1, i => HEAD);
      var p: seq<nat> := seq(NBUF + 1, i => HEAD);
      disk, writes := image, [];
      ghost var o: seq<nat> := [];
      var b := 0;
      while b < NBUF
        invariant 0 <= b <= NBUF && Ring(n, p, o) && |o| == b
        invariant forall k :: 0 <= k < |o| ==> o[k] == b - 1 - k
      {
        ghost var n0, p0 := n, p;
        RingWalk(n, p, o, 0);
        n := n[b := n[HEAD]];
        p := p[b := HEAD];
        p := p[n[HEAD] := b];
        n := n[HEAD := b];
        RingInsert(n0, p0, o, b, n, p);
        o := [b] + o;
        b := b + 1;
      }
      forall x | 0 <= x < NBUF ensures x in o {
        assert o[NBUF - 1 - x] == x;
      }
      next, prev, order := n, p, o;
    }

    /** bget: the buffer of the block if there is one; otherwise the least recently used buffer that
        nobody refers to is given to the block; None stands for the panic when there is none. */
    method Bget(dev: nat, blockno: nat) returns (r: Option<nat>)
      requires Valid() && dev != 0
      modifies this`bufs
      ensures Valid() && (r.Some? ==> r.value < NBUF && Holds(bufs[r.value], dev, blockno))
      ensures r.None? ==> forall i :: 0 <= i < NBUF ==> bufs[i].refcnt != 0
      ensures Hit(old(bufs), dev, blockno) ==>
                r.Some? && Holds(old(bufs)[r.value], dev, blockno)
                && bufs == old(bufs)[r.value := old(bufs)[r.value].(refcnt := old(bufs)[r.value].refcnt + 1)]
      ensures !Hit(old(bufs), dev, blockno) ==>
                && (LastFree(old(bufs), order) < 0 ==> r.None? && bufs == old(bufs))
                && (LastFree(old(bufs), order) >= 0 ==>
                      && r == Some(order[LastFree(old(bufs), order)])
                      && bufs == old(bufs)[r.value := Buf(dev, blockno, false, 1, old(bufs)[r.value].data)])
    {
      hide Everybody, Ring, Unique, LastFree;
      RingSize(next, prev, order);
      RingWalk(next, prev, order, 0);
      var b := next[HEAD];
      ghost var i := 0;
      while b != HEAD
        invariant bufs == old(bufs) && 0 <= i <= |order| && b == Stop(order, i)
        invariant forall k :: 0 <= k < i ==> !Holds(bufs[order[k]], dev, blockno)
        decreases |order| - i
      {
        if Holds(bufs[b], dev, blockno) {
          bufs := bufs[b := bufs[b].(refcnt := bufs[b].refcnt + 1)];
          SameUnique(old(bufs), bufs, b);
          OnlyOne(old(bufs), dev, blockno, b);
          return Some(b);
        }
        RingWalk(next, prev, order, i);
        b := next[b];
        i := i + 1;
      }
      MissedAll(bufs, order, dev, blockno);
      b := prev[HEAD];
      ghost var j := |order| - 1;
      while b != HEAD
        invariant bufs == old(bufs) && -1 <= j < |order| && b == Stop(order, j)
        invariant forall k :: j < k < |order| ==> bufs[order[k]].refcnt != 0
        decreases j + 1
      {
        if bufs[b].refcnt == 0 {
          NewUnique(bufs, b, Buf(dev, blockno, false, 1, bufs[b].data));
          bufs := bufs[b := Buf(dev, blockno, false, 1, bufs[b].data)];
          return Some(b);
        }
        RingWalk(next, prev, order, j);
        b := prev[b];
        j := j - 1;
      }
      AllBusy(bufs, order);
      r := None;
    }

    /** The second half of bread, for a buffer that is not valid. */
    method Fill(i: nat)
      requires Valid() && i < NBUF && bufs[i].blockno < |disk|
      modifies this`bufs
      ensures Valid() && bufs == old(bufs)[i := old(bufs)[i].(data := disk[old(bufs)[i].blockno], valid := true)]
    {
      bufs := bufs[i := bufs[i].(data := disk[bufs[i].blockno], valid := true)];
    }

    /** bwrite. */
    method Bwrite(i: nat)
      requires Valid() && i < NBUF && bufs[i].blockno < |disk|
      modifies this`disk, this`writes
      ensures Valid() && disk == old(disk)[bufs[i].blockno := bufs[i].data] && writes == old(writes) + [disk]
    {
      disk := disk[bufs[i].blockno := bufs[i].data];
      writes := writes + [disk];
    }

    /** memmove into the data of a buffer. */
    method SetData(i: nat, data: Block)
      requires Valid() && i < NBUF
      modifies this`bufs
      ensures Valid() && bufs == old(bufs)[i := old(bufs)[i].(data := data)]
    {
      bufs := bufs[i := bufs[i].(data := data)];
    }

    /** The relinking in brelse: out of the ring and in again behind the head. */
    method MoveToFront(i: nat)
      requires Valid() && i < NBUF && i in order
      modifies this`next, this`prev, this`order
      ensures Valid() && i in old(order) && order == ToFront(old(order), i)
    {
      hide Everybody, Ring, Unique, ToFront;
      RingToFront(next, prev, order, i);
      MovedToFront(order, i);
      prev := prev[next[i] := prev[i]];
      next := next[prev[i] := next[i]];
      next := next[i := next[HEAD]];
      prev := prev[i := HEAD];
      prev := prev[next[HEAD] := i];
      next := next[HEAD := i];
      order := ToFront(order, i);
    }

    /** brelse: one reference less, and the last one makes the buffer the most recently used. */
    method Brelse(i: nat)
      requires Valid() && i < NBUF && bufs[i].refcnt > 0
      modifies this`bufs, this`next, this`prev, this`order
      ensures Valid() && bufs == old(bufs)[i := old(bufs)[i].(refcnt := old(bufs)[i].refcnt - 1)]
      ensures bufs[i].refcnt > 0 ==> order == old(order)
      ensures bufs[i].refcnt == 0 ==> i in old(order) && order == ToFront(old(order), i)
    {
      assert i in order;
      hide Everybody, Ring, Unique, ToFront;
      bufs := bufs[i := bufs[i].(refcnt := bufs[i].refcnt - 1)];
      SameUnique(old(bufs), bufs, i);
      if bufs[i].refcnt == 0 {
        MoveToFront(i);
      }
    }

    /** bpin. */
    method Bpin(i: nat)
      requires Valid() && i < NBUF
      modifies this`bufs
      ensures Valid() && bufs == old(bufs)[i := old(bufs)[i].(refcnt := old(bufs)[i].refcnt + 1)]
    {
      bufs := bufs[i := bufs[i].(refcnt := bufs[i].refcnt + 1)];
    }

    /** bunpin. */
    method Bunpin(i: nat)
      requires Valid() && i < NBUF && bufs[i].refcnt > 0
      modifies this`bufs
      ensures Valid() && bufs == old(bufs)[i := old(bufs)[i].(refcnt := old(bufs)[i].refcnt - 1)]
    {
      bufs := bufs[i := bufs[i].(refcnt := bufs[i].refcnt - 1)];
    }
  }

  ghost function Position(o: seq<nat>, x: nat): (k: nat)
    requires x in o
    ensures k < |o| && o[k] == x
  {
    if o[0] == x then 0 else 1 + Position(o[1..], x)
  }

  /** The order with x moved to the front. */
  ghost function ToFront(o: seq<nat>, x: nat): seq<nat>
    requires x in o
  {
    var k := Position(o, x);
    [x] + (o[..k] + o[k + 1..])
  }

  /** Moving a buffer to the front permutes the ring. */
  lemma MovedToFront(o: seq<nat>, x: nat)
    requires x in o && Everybody(o)
    ensures multiset(ToFront(o, x)) == multiset(o) && Everybody(ToFront(o, x))
    ensures ToFront(o, x) == [x] + (o[..Position(o, x)] + o[Position(o, x) + 1..])
  {
    var k := Position(o, x);
    assert o == o[..k] + [o[k]] + o[k + 1..];
    forall y | 0 <= y < NBUF ensures y in ToFront(o, x) {
      assert y in o && y in multiset(o);
    }
  }

  /** The six assignments of brelse take the buffer out of the ring and put it in again at the front. */
  lemma RingToFront(next: seq<nat>, prev: seq<nat>, order: seq<nat>, i: nat)
    requires Ring(next, prev, order) && i in order
    ensures |next| == |prev| == NBUF + 1 && i < NBUF && next[i] <= NBUF && prev[i] <= NBUF
    ensures var p1 := prev[next[i] := prev[i]];
            p1[i] <= NBUF &&
            var n1 := next[p1[i] := next[i]];
            var n2 := n1[i := n1[HEAD]];
            var p2 := p1[i := HEAD];
            n2[HEAD] <= NBUF &&
            var p3 := p2[n2[HEAD] := i];
            Ring(n2[HEAD := i], p3, ToFront(order, i))
  {
    var k := Position(order, i);
    RingSize(next, prev, order);
    RingWalk(next, prev, order, k);
    assert next[i] != i && next[i] <= NBUF && prev[i] <= NBUF;
    hide Ring, Position, Stop;
    var p1 := prev[next[i] := prev[i]];
    var n1 := next[p1[i] := next[i]];
    var rest := order[..k] + order[k + 1..];
    RingRemove(next, prev, order, k, n1, p1);
    RingWalk(n1, p1, rest, 0);
    OthersRemain(order, i);
    var n2, p2 := n1[i := n1[HEAD]], p1[i := HEAD];
    RingInsert(n1, p1, rest, i, n2[HEAD := i], p2[n2[HEAD] := i]);
  }

  lemma OthersRemain(o: seq<nat>, x: nat)
    requires x in o && forall i, j :: 0 <= i < j < |o| ==> o[i] != o[j]
    ensures x !in o[..Position(o, x)] + o[Position(o, x) + 1..]
  {
  }

  lemma RingSize(next: seq<nat>, prev: seq<nat>, order: seq<nat>)
    requires Ring(next, prev, order)
    ensures |next| == |prev| == NBUF + 1
    ensures (forall k :: 0 <= k < |order| ==> order[k] < NBUF) && forall j, k :: 0 <= j < k < |order| ==>
              order[j] != order[k]
  {
  }

  lemma NewUnique(bufs: seq<Buf>, i: nat, b: Buf)
    requires Unique(bufs) && i < |bufs| && !Hit(bufs, b.dev, b.blockno)
    ensures Unique(bufs[i := b])
  {
    assert forall j :: 0 <= j < |bufs| ==> !Holds(bufs[j], b.dev, b.blockno);
  }

  lemma OnlyOne(bufs: seq<Buf>, dev: nat, blockno: nat, i: nat)
    requires Unique(bufs) && dev != 0 && i < |bufs| && Holds(bufs[i], dev, blockno)
    ensures Hit(bufs, dev, blockno) && forall j :: 0 <= j < |bufs| && j != i ==> !Holds(bufs[j], dev, blockno)
  {
  }

  lemma SameUnique(bufs: seq<Buf>, bufs': seq<Buf>, i: nat)
    requires Unique(bufs) && i < |bufs| == |bufs'| && bufs' == bufs[i := bufs'[i]]
    requires bufs'[i].dev == bufs[i].dev && bufs'[i].blockno == bufs[i].blockno
    ensures Unique(bufs')
  {
  }

  lemma AllBusy(bufs: seq<Buf>, order: seq<nat>)
    requires |bufs| == NBUF && Everybody(order) && forall k :: 0 <= k < |order| ==>
               order[k] < NBUF && bufs[order[k]].refcnt != 0
    ensures forall i :: 0 <= i < NBUF ==> bufs[i].refcnt != 0
  {
    forall i | 0 <= i < NBUF ensures bufs[i].refcnt != 0 {
      assert i in order;
    }
  }

  lemma MissedAll(bufs: seq<Buf>, order: seq<nat>, dev: nat, blockno: nat)
    requires |bufs| == NBUF && Everybody(order) && forall k :: 0 <= k < |order| ==> order[k] < NBUF
    requires forall k :: 0 <= k < |order| ==> !Holds(bufs[order[k]], dev, blockno)
    ensures !Hit(bufs, dev, blockno)
  {
    forall i | 0 <= i < NBUF ensures !Holds(bufs[i], dev, blockno) {
      assert i in order;
    }
  }
}
