/** The cache and the log together (kernel/bio.c, kernel/log.c): one logical contents of every block, the
    `view`, that every valid buffer shows and that the disk shows except for the blocks still in the
    log's list, which are pinned. */
module LogCache {
  import opened BufferCache

  /** ROOTDEV. */
  const DEV: nat := 1

  ghost predicate Distinct(s: seq<nat>) {
    forall i, j :: 0 <= i < j < |s| ==> s[i] != s[j]
  }

  predicate Dirty(b: Buf, dirty: seq<nat>) {
    b.dev == DEV && b.blockno in dirty
  }

  /** A buffer of the device shows the view once it is valid. */
  predicate Shows(b: Buf, view: seq<Block>) {
    b.dev == DEV ==> b.blockno < |view| && (b.valid ==> b.data == view[b.blockno])
  }

  /** One reference for the log's pin, and one for each bread not yet matched by a brelse. */
  ghost predicate Counted(b: Buf, i: nat, dirty: seq<nat>, held: multiset<nat>) {
    b.refcnt == held[i] + if Dirty(b, dirty) then 1 else 0
  }

  ghost predicate Cached(bufs: seq<Buf>, b: nat) {
    exists i :: 0 <= i < |bufs| && Holds(bufs[i], DEV, b) && bufs[i].valid
  }

  ghost predicate Coherent(bufs: seq<Buf>, disk: seq<Block>, view: seq<Block>, dirty: seq<nat>, held: multiset<nat>) {
    && |view| == |disk| && |bufs| == NBUF && Unique(bufs)
    && (forall i :: 0 <= i < |bufs| ==> Shows(bufs[i], view) && Counted(bufs[i], i, dirty, held))
    && (forall i :: i in held ==> i < |bufs| && bufs[i].dev == DEV)
    && (forall b :: 0 <= b < |disk| && b !in dirty ==> disk[b] == view[b])
    && (forall k :: 0 <= k < |dirty| ==> Cached(bufs, dirty[k]))
  }

  /** bget keeps the coherence, and with it every operation that comes before the buffer is filled: a block that is
      not valid is not in the list, so the disk has its contents. */
  lemma AfterGet(bufs: seq<Buf>, bufs': seq<Buf>, disk: seq<Block>, view: seq<Block>, dirty: seq<nat>,
        held: multiset<nat>, i: nat, b: nat)
    requires Coherent(bufs, disk, view, dirty, held) && b < |disk|
    requires Unique(bufs') && Got(bufs, bufs', i, DEV, b)
    ensures Coherent(bufs', disk, view, dirty, held + multiset{i})
    ensures i < |bufs'| && Holds(bufs'[i], DEV, b) && bufs'[i].refcnt > 0
            && (bufs'[i].valid ==> bufs'[i].data == view[b])
  {
    forall k | 0 <= k < |dirty| ensures Cached(bufs', dirty[k]) {
      assert Cached(bufs, dirty[k]);
      var j :| 0 <= j < |bufs| && Holds(bufs[j], DEV, dirty[k]) && bufs[j].valid;
      assert Counted(bufs[j], j, dirty, held);
      assert Holds(bufs'[j], DEV, dirty[k]) && bufs'[j].valid;
    }
    if !Holds(bufs[i], DEV, b) {
      ReadMiss(bufs, dirty, b);
    }
    forall j | 0 <= j < |bufs'| ensures Shows(bufs'[j], view) && Counted(bufs'[j], j, dirty, held + multiset{i}) {
      assert Shows(bufs[j], view) && Counted(bufs[j], j, dirty, held);
    }
  }

  /** Filling a buffer that is not valid, whatever has happened since its bget, shows the view. */
  lemma AfterFill(bufs: seq<Buf>, disk: seq<Block>, view: seq<Block>, dirty: seq<nat>, held: multiset<nat>, i: nat)
    requires Coherent(bufs, disk, view, dirty, held) && i in held && !bufs[i].valid
    ensures bufs[i].blockno < |disk| == |view| && disk[bufs[i].blockno] == view[bufs[i].blockno]
    ensures Coherent(bufs[i := bufs[i].(data := disk[bufs[i].blockno], valid := true)], disk, view, dirty, held)
  {
    assert Shows(bufs[i], view);
    ReadClean(bufs, dirty, bufs[i].blockno, i);
    var bufs' := bufs[i := bufs[i].(data := disk[bufs[i].blockno], valid := true)];
    SameUnique(bufs, bufs', i);
    forall k | 0 <= k < |dirty| ensures Cached(bufs', dirty[k]) {
      CachedStill(bufs, bufs', dirty[k], i);
    }
    forall j | 0 <= j < |bufs'| ensures Shows(bufs'[j], view) && Counted(bufs'[j], j, dirty, held) {
      assert Shows(bufs[j], view) && Counted(bufs[j], j, dirty, held);
    }
  }

  lemma ReadMiss(bufs: seq<Buf>, dirty: seq<nat>, b: nat)
    requires !Hit(bufs, DEV, b) && forall k :: 0 <= k < |dirty| ==> Cached(bufs, dirty[k])
    ensures b !in dirty
  {
  }

  lemma ReadClean(bufs: seq<Buf>, dirty: seq<nat>, b: nat, i: nat)
    requires Unique(bufs) && i < |bufs| && Holds(bufs[i], DEV, b) && !bufs[i].valid
    requires forall k :: 0 <= k < |dirty| ==> Cached(bufs, dirty[k])
    ensures b !in dirty
  {
    OnlyOne(bufs, DEV, b, i);
  }

  /** Filling a buffer and writing it through: memmove and bwrite. */
  lemma AfterWrite(bufs: seq<Buf>, disk: seq<Block>, view: seq<Block>, dirty: seq<nat>, held: multiset<nat>, i: nat,
        b: nat, data: Block)
    requires Coherent(bufs, disk, view, dirty, held) && b < |disk|
    requires i < |bufs| && Holds(bufs[i], DEV, b)
    ensures Coherent(bufs[i := bufs[i].(data := data)], disk[b := data], view[b := data], dirty, held)
  {
    var bufs' := bufs[i := bufs[i].(data := data)];
    SameUnique(bufs, bufs', i);
    OnlyOne(bufs, DEV, b, i);
    forall k | 0 <= k < |dirty| ensures Cached(bufs', dirty[k]) {
      CachedStill(bufs, bufs', dirty[k], i);
    }
    forall j | 0 <= j < |bufs'| ensures Shows(bufs'[j], view[b := data]) && Counted(bufs'[j], j, dirty, held) {
      assert Shows(bufs[j], view) && Counted(bufs[j], j, dirty, held);
    }
  }

  lemma CachedStill(bufs: seq<Buf>, bufs': seq<Buf>, b: nat, i: nat)
    requires Cached(bufs, b) && i < |bufs| == |bufs'| && bufs' == bufs[i := bufs'[i]]
    requires bufs'[i].dev == bufs[i].dev && bufs'[i].blockno == bufs[i].blockno && (bufs[i].valid ==> bufs'[i].valid)
    ensures Cached(bufs', b)
  {
    var j :| 0 <= j < |bufs| && Holds(bufs[j], DEV, b) && bufs[j].valid;
    assert Holds(bufs'[j], DEV, b) && bufs'[j].valid;
  }

  /** brelse. */
  lemma AfterRelease(bufs: seq<Buf>, disk: seq<Block>, view: seq<Block>, dirty: seq<nat>, held: multiset<nat>, i: nat)
    requires Coherent(bufs, disk, view, dirty, held) && i in held
    ensures i < |bufs| && bufs[i].refcnt > 0
    ensures Coherent(bufs[i := bufs[i].(refcnt := bufs[i].refcnt - 1)], disk, view, dirty, held - multiset{i})
  {
    assert Counted(bufs[i], i, dirty, held);
    var bufs' := bufs[i := bufs[i].(refcnt := bufs[i].refcnt - 1)];
    SameUnique(bufs, bufs', i);
    forall k | 0 <= k < |dirty| ensures Cached(bufs', dirty[k]) {
      CachedStill(bufs, bufs', dirty[k], i);
    }
    forall j | 0 <= j < |bufs'| ensures Shows(bufs'[j], view) && Counted(bufs'[j], j, dirty, held - multiset{i}) {
      assert Shows(bufs[j], view) && Counted(bufs[j], j, dirty, held);
    }
  }

  /** bunpin of a block that is on disk as it is in the view: it leaves the list. */
  lemma AfterUnpin(bufs: seq<Buf>, disk: seq<Block>, view: seq<Block>, dirty: seq<nat>, held: multiset<nat>, i: nat)
    requires Coherent(bufs, disk, view, dirty, held) && dirty != [] && dirty[0] < |disk| && dirty[0] !in dirty[1..]
    requires i < |bufs| && Holds(bufs[i], DEV, dirty[0]) && disk[dirty[0]] == view[dirty[0]]
    ensures bufs[i].refcnt > 0
    ensures Coherent(bufs[i := bufs[i].(refcnt := bufs[i].refcnt - 1)], disk, view, dirty[1..], held)
  {
    assert Counted(bufs[i], i, dirty, held);
    var bufs' := bufs[i := bufs[i].(refcnt := bufs[i].refcnt - 1)];
    SameUnique(bufs, bufs', i);
    OnlyOne(bufs, DEV, dirty[0], i);
    assert forall b :: b in dirty <==> b == dirty[0] || b in dirty[1..];
    forall k | 0 <= k < |dirty[1..]| ensures Cached(bufs', dirty[1..][k]) {
      CachedStill(bufs, bufs', dirty[k + 1], i);
    }
    forall j | 0 <= j < |bufs'| ensures Shows(bufs'[j], view) && Counted(bufs'[j], j, dirty[1..], held) {
      assert Shows(bufs[j], view) && Counted(bufs[j], j, dirty, held);
    }
  }

  /** A changed buffer whose block is in the list already, or joins it now. */
  lemma AfterChange(bufs: seq<Buf>, disk: seq<Block>, view: seq<Block>, dirty: seq<nat>, held: multiset<nat>, i: nat,
        data: Block)
    requires Coherent(bufs, disk, view, dirty, held) && i in held && bufs[i].blockno in dirty
    ensures bufs[i].blockno < |view|
    ensures Coherent(bufs[i := bufs[i].(data := data)], disk, view[bufs[i].blockno := data], dirty, held)
  {
    assert Shows(bufs[i], view);
    var b := bufs[i].blockno;
    var bufs' := bufs[i := bufs[i].(data := data)];
    SameUnique(bufs, bufs', i);
    OnlyOne(bufs, DEV, b, i);
    forall k | 0 <= k < |dirty| ensures Cached(bufs', dirty[k]) {
      CachedStill(bufs, bufs', dirty[k], i);
    }
    forall j | 0 <= j < |bufs'| ensures Shows(bufs'[j], view[b := data]) && Counted(bufs'[j], j, dirty, held) {
      assert Shows(bufs[j], view) && Counted(bufs[j], j, dirty, held);
    }
  }

  /** bpin of a block that joins the list. */
  lemma AfterPin(bufs: seq<Buf>, disk: seq<Block>, view: seq<Block>, dirty: seq<nat>, held: multiset<nat>, i: nat)
    requires Coherent(bufs, disk, view, dirty, held) && i in held && bufs[i].valid && bufs[i].blockno !in dirty
    ensures Coherent(bufs[i := bufs[i].(refcnt := bufs[i].refcnt + 1)], disk, view, dirty + [bufs[i].blockno], held)
  {
    var b := bufs[i].blockno;
    var dirty' := dirty + [b];
    var bufs' := bufs[i := bufs[i].(refcnt := bufs[i].refcnt + 1)];
    SameUnique(bufs, bufs', i);
    OnlyOne(bufs, DEV, b, i);
    assert forall c :: c in dirty' <==> c == b || c in dirty;
    forall k | 0 <= k < |dirty'| ensures Cached(bufs', dirty'[k]) {
      if k < |dirty| {
        CachedStill(bufs, bufs', dirty[k], i);
      } else {
        assert Holds(bufs'[i], DEV, b) && bufs'[i].valid;
      }
    }
    forall j | 0 <= j < |bufs'| ensures Shows(bufs'[j], view) && Counted(bufs'[j], j, dirty', held) {
      assert Shows(bufs[j], view) && Counted(bufs[j], j, dirty, held);
    }
  }

  // ---------- Enough buffers ----------

  lemma CoherentUnique(bufs: seq<Buf>, disk: seq<Block>, view: seq<Block>, dirty: seq<nat>, held: multiset<nat>)
    requires Coherent(bufs, disk, view, dirty, held)
    ensures |bufs| == NBUF && Unique(bufs)
  {
  }

  ghost function Below(n: nat): (s: set<nat>)
    ensures |s| == n && forall i: nat :: i in s <==> i < n
  {
    if n == 0 then {} else Below(n - 1) + {n - 1}
  }

  lemma {:induction false} HeldSize(s: set<nat>, held: multiset<nat>)
    requires forall i :: i in s ==> i in held
    ensures |s| <= |held|
    decreases s
  {
    if s != {} {
      var x :| x in s;
      forall i | i in s - {x} ensures i in held - multiset{x} {
      }
      HeldSize(s - {x}, held - multiset{x});
    }
  }

  lemma {:induction false} Injected(pinned: set<nat>, bufs: seq<Buf>, dirty: seq<nat>)
    requires Unique(bufs) && forall i :: i in pinned ==> i < |bufs| && Dirty(bufs[i], dirty)
    ensures |pinned| <= |dirty|
    decreases dirty
  {
    if pinned != {} {
      var n := |dirty| - 1;
      assert dirty == dirty[..n] + [dirty[n]];
      if x :| x in pinned && bufs[x].blockno == dirty[n] {
        Injected(pinned - {x}, bufs, dirty[..n]);
      } else {
        Injected(pinned, bufs, dirty[..n]);
      }
    }
  }

  ghost predicate NoFree(bufs: seq<Buf>) {
    forall i :: 0 <= i < |bufs| ==> bufs[i].refcnt != 0
  }

  /** The buffers in use whose block is not in the list. */
  ghost function Others(bufs: seq<Buf>, dirty: seq<nat>, held: multiset<nat>): set<nat> {
    set i | 0 <= i < |bufs| && i in held && bufs[i].blockno !in dirty
  }

  /** The number of buffers that somebody refers to: one for each block of the list, and the others in use. */
  ghost function BusyCount(bufs: seq<Buf>, dirty: seq<nat>, held: multiset<nat>): nat {
    |dirty| + |Others(bufs, dirty, held)|
  }

  ghost function Pinned(bufs: seq<Buf>, dirty: seq<nat>): set<nat> {
    set i | 0 <= i < |bufs| && Dirty(bufs[i], dirty)
  }

  lemma PinnedCount(bufs: seq<Buf>, disk: seq<Block>, view: seq<Block>, dirty: seq<nat>, held: multiset<nat>)
    requires Coherent(bufs, disk, view, dirty, held) && Distinct(dirty)
    ensures |Pinned(bufs, dirty)| == |dirty|
  {
    var pinned := Pinned(bufs, dirty);
    forall k | 0 <= k < |dirty| ensures HeldBy(pinned, bufs, dirty[k]) {
      assert Cached(bufs, dirty[k]);
      var i :| 0 <= i < |bufs| && Holds(bufs[i], DEV, dirty[k]) && bufs[i].valid;
      assert i in pinned;
    }
    Surjected(pinned, bufs, dirty);
    Injected(pinned, bufs, dirty);
  }

  /** Every buffer is referred to if and only if the count says so. */
  lemma BusyExactly(bufs: seq<Buf>, disk: seq<Block>, view: seq<Block>, dirty: seq<nat>, held: multiset<nat>)
    requires Coherent(bufs, disk, view, dirty, held) && Distinct(dirty)
    ensures BusyCount(bufs, dirty, held) <= NBUF && (NoFree(bufs) <==> BusyCount(bufs, dirty, held) == NBUF)
  {
    hide Coherent, Below, Dirty, Pinned, Others;
    CoherentUnique(bufs, disk, view, dirty, held);
    PinnedCount(bufs, disk, view, dirty, held);
    var pinned, others, all := Pinned(bufs, dirty), Others(bufs, dirty, held), Below(|bufs|);
    var busy := pinned + others;
    forall i | 0 <= i < |bufs| ensures i in busy <==> bufs[i].refcnt != 0 {
      BusyAt(bufs, disk, view, dirty, held, i);
    }
    Apart(bufs, disk, view, dirty, held);
    assert busy <= all;
    assert all == busy + (all - busy);
    if NoFree(bufs) {
      assert busy == all;
    } else {
      var i :| 0 <= i < |bufs| && bufs[i].refcnt == 0;
      assert i in all - busy;
    }
  }

  lemma BusyAt(bufs: seq<Buf>, disk: seq<Block>, view: seq<Block>, dirty: seq<nat>, held: multiset<nat>, i: nat)
    requires Coherent(bufs, disk, view, dirty, held) && i < |bufs|
    ensures i in Pinned(bufs, dirty) + Others(bufs, dirty, held) <==> bufs[i].refcnt != 0
  {
    assert Counted(bufs[i], i, dirty, held);
  }

  lemma Apart(bufs: seq<Buf>, disk: seq<Block>, view: seq<Block>, dirty: seq<nat>, held: multiset<nat>)
    requires Coherent(bufs, disk, view, dirty, held)
    ensures Pinned(bufs, dirty) !! Others(bufs, dirty, held)
    ensures forall i :: i in Pinned(bufs, dirty) + Others(bufs, dirty, held) ==> i < |bufs|
  {
  }

  /** A block that is not in the list and in no buffer in use cannot be read if and only if the blocks of the list and
      the other buffers in use are as many as there are buffers. */
  lemma NoBufferLeftIff(bufs: seq<Buf>, disk: seq<Block>, view: seq<Block>, dirty: seq<nat>, held: multiset<nat>,
        b: nat)
    requires Coherent(bufs, disk, view, dirty, held) && Distinct(dirty) && b !in dirty
    requires forall i :: i in held && i < |bufs| ==> bufs[i].blockno != b
    ensures !Hit(bufs, DEV, b) && NoFree(bufs) <==> BusyCount(bufs, dirty, held) == NBUF
  {
    BusyExactly(bufs, disk, view, dirty, held);
    hide BusyCount;
    if NoFree(bufs) {
      forall i | 0 <= i < |bufs| ensures !Holds(bufs[i], DEV, b) {
        assert Counted(bufs[i], i, dirty, held);
      }
    }
  }

  /** The buffers in use stay with their blocks. */
  ghost predicate Keeps(bufs: seq<Buf>, bufs': seq<Buf>, held: multiset<nat>) {
    |bufs'| == |bufs| && forall i :: i in held && i < |bufs| ==> bufs'[i].blockno == bufs[i].blockno
  }

  lemma KeepsTrans(a: seq<Buf>, b: seq<Buf>, c: seq<Buf>, held: multiset<nat>, more: multiset<nat>)
    requires Keeps(a, b, held) && Keeps(b, c, more) && held <= more
    ensures Keeps(a, c, held)
  {
  }

  lemma SameCount(bufs: seq<Buf>, bufs': seq<Buf>, dirty: seq<nat>, held: multiset<nat>)
    requires Keeps(bufs, bufs', held)
    ensures Others(bufs', dirty, held) == Others(bufs, dirty, held) && BusyCount(bufs', dirty, held) == BusyCount(bufs,
            dirty, held)
  {
  }

  /** A block that leaves the list leaves at most as many buffers busy. */
  lemma FewerBusy(bufs: seq<Buf>, disk: seq<Block>, view: seq<Block>, dirty: seq<nat>, held: multiset<nat>)
    requires Coherent(bufs, disk, view, dirty, held) && dirty != []
    ensures BusyCount(bufs, dirty[1..], held) <= BusyCount(bufs, dirty, held)
  {
    var a, b := Others(bufs, dirty, held), Others(bufs, dirty[1..], held);
    assert forall c :: c in dirty <==> c == dirty[0] || c in dirty[1..];
    forall i, j | i in b - a && j in b - a ensures i == j {
      assert bufs[i].blockno == dirty[0] == bufs[j].blockno && bufs[i].dev == bufs[j].dev == DEV;
    }
    AtMostOne(b - a);
    assert b == a + (b - a);
  }

  lemma AtMostOne(s: set<nat>)
    requires forall i, j :: i in s && j in s ==> i == j
    ensures |s| <= 1
  {
    if i :| i in s {
      assert s == {i};
    }
  }

  /** There are at most as many other buffers as references. */
  lemma CountAtMost(bufs: seq<Buf>, dirty: seq<nat>, held: multiset<nat>)
    ensures BusyCount(bufs, dirty, held) <= |dirty| + |held|
  {
    HeldSize(Others(bufs, dirty, held), held);
  }

  ghost predicate HeldBy(s: set<nat>, bufs: seq<Buf>, b: nat) {
    exists i :: i in s && i < |bufs| && Holds(bufs[i], DEV, b)
  }

  lemma {:induction false} Surjected(pinned: set<nat>, bufs: seq<Buf>, dirty: seq<nat>)
    requires Distinct(dirty)
    requires forall k :: 0 <= k < |dirty| ==> HeldBy(pinned, bufs, dirty[k])
    ensures |pinned| >= |dirty|
    decreases dirty
  {
    if dirty != [] {
      var n := |dirty| - 1;
      assert HeldBy(pinned, bufs, dirty[n]);
      var x :| x in pinned && x < |bufs| && Holds(bufs[x], DEV, dirty[n]);
      forall k | 0 <= k < n ensures HeldBy(pinned - {x}, bufs, dirty[k]) {
        var i :| i in pinned && i < |bufs| && Holds(bufs[i], DEV, dirty[k]);
        assert i in pinned - {x};
      }
      Surjected(pinned - {x}, bufs, dirty[..n]);
    }
  }
}
