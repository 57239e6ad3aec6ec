/** kernel/fs.c: block allocation, the block map, reading, writing and truncating inodes, and the chunked
    write of kernel/file.c.  The bitmap blocks are one sequence of bits; `logged` is the set of blocks
    passed to log_write since the transaction began. */
module InodeLayer {
  import opened BufferCache
  import opened FsBlocks

  type Block = FsBlocks.Block

  ghost predicate SameSizes(a: seq<Inode>, b: seq<Inode>) {
    |a| == |b| && forall j :: 0 <= j < |a| ==> a[j].size == b[j].size
  }

  /** What bmap may do to an inode's slots: fill the slot of block bn and, on the way, that of the
      indirect block, if they are empty. */
  ghost predicate Grown(row: seq<nat>, row': seq<nat>, bn: nat) {
    && |row| == |row'| == SLOTS
    && (forall k :: 0 <= k < SLOTS && row[k] != 0 ==> row'[k] == row[k])
    && (forall k :: 0 <= k < SLOTS && k != SlotIx(bn) && (k != NDIRECT || bn < NDIRECT) ==> row'[k] == row[k])
  }

  /** The bitmap block of a block. */
  function BBlock(bmapstart: nat, b: nat): nat {
    b / BPB + bmapstart
  }

  /** The inode block of an inode. */
  function IBlock(inodestart: nat, i: nat): nat {
    i / IPB + inodestart
  }

  /** What is logged when the block in slot k is new: itself, its bitmap block and, for an entry of the indirect block,
      that block. */
  ghost function NewLog(bmapstart: nat, row: seq<nat>, row': seq<nat>, k: nat): set<nat>
    requires |row| == |row'| == SLOTS && k < SLOTS
  {
    if row[k] == 0 && row'[k] != 0
    then {BBlock(bmapstart, row'[k]), row'[k]} + if k > NDIRECT then {row'[NDIRECT]} else {}
    else {}
  }

  /** What bmap of block bn may do to the slots, and exactly what it logs; the indirect block may be new although the
      disk was full after that. */
  ghost predicate Mapped(bmapstart: nat, table: seq<seq<nat>>, table': seq<seq<nat>>, i: nat, bn: nat, logged: set<nat>,
        logged': set<nat>) {
    && |table| == |table'| && i < |table| && bn < MAXFILE && table' == table[i := table'[i]]
        && Grown(table[i], table'[i], bn)
    && logged' == logged + NewLog(bmapstart, table[i], table'[i], SlotIx(bn)) + NewLog(bmapstart, table[i], table'[i],
        NDIRECT)
    && (table[i][SlotIx(bn)] != 0 ==> table' == table && logged' == logged)
  }

  /** No block is free. */
  ghost predicate Full(bitmap: seq<bool>) {
    forall x :: 0 <= x < |bitmap| ==> bitmap[x]
  }

  /** Block b has gone into an empty slot; it, its bitmap block and `also` have been logged. */
  ghost predicate Filled(bmapstart: nat, t: seq<seq<nat>>, t': seq<seq<nat>>, l: set<nat>, l': set<nat>, i: nat, k: nat,
        b: nat, also: set<nat>) {
    && i < |t| && |t[i]| == SLOTS && k < SLOTS && t[i][k] == 0 && b != 0
    && t' == Put(t, i, k, b) && l' == l + {BBlock(bmapstart, b), b} + also
  }

  /** Whatever has changed is in blocks that have been logged; of the inodes only i has, and its block is still to be
      logged. */
  ghost predicate Covers(s: Snapshot, t: Snapshot, bmapstart: nat, i: nat) {
    && |s.bitmap| == |t.bitmap| && |s.data| == |t.data| && |s.inodes| == |t.inodes| && s.logged <= t.logged
    && (forall b :: 0 <= b < |s.data| && t.data[b] != s.data[b] ==> b in t.logged)
    && (forall b :: 0 <= b < |s.bitmap| && t.bitmap[b] != s.bitmap[b] ==> BBlock(bmapstart, b) in t.logged)
    && (forall j :: 0 <= j < |s.inodes| && j != i ==> t.inodes[j] == s.inodes[j])
  }

  lemma CoversSelf(s: Snapshot, bmapstart: nat, i: nat)
    ensures Covers(s, s, bmapstart, i)
  {
  }

  lemma CoversSizes(s: Snapshot, t: Snapshot, bmapstart: nat, i: nat)
    requires Covers(s, t, bmapstart, i)
    ensures |s.bitmap| == |t.bitmap| && |s.data| == |t.data| && |s.inodes| == |t.inodes|
  {
  }

  lemma CoversTrans(s: Snapshot, t: Snapshot, u: Snapshot, bmapstart: nat, i: nat)
    requires Covers(s, t, bmapstart, i) && Covers(t, u, bmapstart, i)
    ensures Covers(s, u, bmapstart, i)
  {
  }

  /** A block has been allocated, and possibly noted in the indirect block `ind` or in inode i. */
  lemma CoversAlloc(s: Snapshot, t: Snapshot, bmapstart: nat, i: nat, b: nat, ind: nat)
    requires b < |s.bitmap| == |s.data| && ind < |s.data| && i < |s.inodes| == |t.inodes|
             && t.inodes == s.inodes[i := t.inodes[i]]
    requires t.bitmap == s.bitmap[b := true] && |t.data| == |s.data|
             && t.data == s.data[b := t.data[b]][ind := t.data[ind]]
    requires s.logged + {BBlock(bmapstart, b), b, ind} <= t.logged
    ensures Covers(s, t, bmapstart, i)
  {
  }

  lemma CoversData(s: Snapshot, t: Snapshot, bmapstart: nat, i: nat, b: nat)
    requires b < |s.data| == |t.data| && t.data == s.data[b := t.data[b]] && t.bitmap == s.bitmap
             && t.inodes == s.inodes && t.logged == s.logged + {b}
    ensures Covers(s, t, bmapstart, i)
  {
  }

  datatype Snapshot = Snapshot(bitmap: seq<bool>, data: seq<Block>, inodes: seq<Inode>, table: seq<seq<nat>>,
      owner: map<nat, Loc>, content: seq<seq<Byte>>, logged: set<nat>)

  /** Addition of unsigned 32-bit numbers. */
  function Add32(x: nat, y: nat): nat {
    (x + y) % TWO32
  }

  lemma AddWraps(x: nat, y: nat)
    requires x < TWO32 && y < TWO32
    ensures Add32(x, y) < x <==> x + y >= TWO32
    ensures x + y < TWO32 ==> Add32(x, y) == x + y
  {
  }

  // ---------- Going through a file block by block ----------

  /** What filewrite writes in one transaction. */
  const CHUNK: nat := (MAXOPBLOCKS - 1 - 1 - 2) / 2 * BSIZE

  /** The number of blocks that n bytes at this offset lie in. */
  function BlocksOf(off: nat, n: nat): nat {
    if n == 0 then 0 else (off + n - 1) / BSIZE - off / BSIZE + 1
  }

  /** After k rounds of readi or writei, tot bytes are done: up to a block boundary, or all of them. */
  ghost predicate Progress(off: nat, n: nat, tot: nat, k: nat) {
    && tot <= n && k <= BlocksOf(off, n) && (tot == n <==> k == BlocksOf(off, n))
    && (tot < n ==> (k == 0 && tot == 0) || ((off + tot) % BSIZE == 0 && (off + tot) / BSIZE == off / BSIZE + k))
  }

  function Piece(off: nat, n: nat, tot: nat): (m: nat)
    requires tot < n
    ensures 0 < m <= n - tot && (off + tot) % BSIZE + m <= BSIZE
  {
    if n - tot < BSIZE - (off + tot) % BSIZE then n - tot else BSIZE - (off + tot) % BSIZE
  }

  lemma ProgressStep(off: nat, n: nat, tot: nat, k: nat)
    requires Progress(off, n, tot, k) && tot < n
    ensures Progress(off, n, tot + Piece(off, n, tot), k + 1) && k < BlocksOf(off, n)
    ensures (off + tot) / BSIZE == off / BSIZE + k && (k == 0 ==> tot == 0)
  {
  }

  // ---------- Counting what a write logs ----------

  ghost function NonZero(b: nat): set<nat> {
    if b == 0 then {} else {b}
  }

  ghost function Data(row: seq<nat>, bn: nat, done: bool): set<nat>
    requires |row| == SLOTS && bn < MAXFILE
  {
    if done then {row[SlotIx(bn)]} else {}
  }

  /** A round of writei grows the slots for block bn and logs what bmap logs, and the block itself if it is written. */
  ghost predicate RoundLog(bmapstart: nat, row: seq<nat>, row': seq<nat>, bn: nat, logged: set<nat>, logged': set<nat>,
        done: bool) {
    && bn < MAXFILE && Grown(row, row', bn)
    && logged' == logged + NewLog(bmapstart, row, row', SlotIx(bn)) + NewLog(bmapstart, row, row', NDIRECT)
        + Data(row', bn, done)
    && (done ==> row'[SlotIx(bn)] != 0)
  }

  /** What k rounds of writei from block bn on have logged, apart from a new indirect block. */
  ghost function WrittenLog(bmapstart: nat, row0: seq<nat>, row: seq<nat>, bn: nat, k: nat): set<nat>
    requires |row0| == |row| == SLOTS && bn + k <= MAXFILE
  {
    if k == 0 then {} else
      WrittenLog(bmapstart, row0, row, bn, k - 1) + NewLog(bmapstart, row0, row, SlotIx(bn + k - 1))
          + {row[SlotIx(bn + k - 1)]}
  }

  /** Exactly what writei has logged after k rounds, and another one that failed if `more`. */
  ghost function LoggedBy(bmapstart: nat, row0: seq<nat>, row: seq<nat>, bn: nat, k: nat, more: bool): set<nat>
    requires |row0| == |row| == SLOTS && bn + k <= MAXFILE && (more ==> bn + k < MAXFILE)
  {
    WrittenLog(bmapstart, row0, row, bn, k) + (if more then NewLog(bmapstart, row0, row, SlotIx(bn + k)) else {})
    + NewLog(bmapstart, row0, row, NDIRECT)
  }

  /** Only the slots of the k blocks from bn on, and that of the indirect block, have been filled. */
  ghost predicate Extended(row0: seq<nat>, row: seq<nat>, bn: nat, k: nat) {
    && |row0| == |row| == SLOTS && (forall s :: 0 <= s < SLOTS && row0[s] != 0 ==> row[s] == row0[s])
    && (forall s :: 0 <= s < SLOTS && s != NDIRECT && (s < SlotIx(bn) || s >= SlotIx(bn + k)) ==> row[s] == row0[s])
    && (forall s :: NDIRECT < s < SLOTS && row[s] != 0 ==> row[NDIRECT] != 0)
  }

  /** The slots of the k blocks from bn on are filled. */
  ghost predicate AllFilled(row: seq<nat>, bn: nat, k: nat)
    requires |row| == SLOTS && bn + k <= MAXFILE
  {
    forall j :: bn <= j < bn + k ==> row[SlotIx(j)] != 0
  }

  /** The log so far, and the slots so far, as a function of where writei has come. */
  ghost predicate Exactly(bmapstart: nat, row0: seq<nat>, row: seq<nat>, bn: nat, k: nat, more: bool,
        logged: set<nat>) {
    && bn + k <= MAXFILE && (more ==> bn + k < MAXFILE) && Extended(row0, row, bn, if more then k + 1 else k)
        && AllFilled(row, bn, k)
    && logged == LoggedBy(bmapstart, row0, row, bn, k, more)
  }

  lemma {:induction false} WrittenStill(bmapstart: nat, row0: seq<nat>, row: seq<nat>, row': seq<nat>, bn: nat, k: nat,
        n: nat)
    requires k <= n && bn + n < MAXFILE && Extended(row0, row, bn, n) && Grown(row, row', bn + n)
    ensures WrittenLog(bmapstart, row0, row', bn, k) == WrittenLog(bmapstart, row0, row, bn, k)
    decreases k
  {
    if k > 0 {
      WrittenStill(bmapstart, row0, row, row', bn, k - 1, n);
      var s := SlotIx(bn + k - 1);
      assert row'[s] == row[s];
      assert NewLog(bmapstart, row0, row', s) == NewLog(bmapstart, row0, row, s);
    }
  }

  /** A new indirect block is logged once and for all. */
  lemma IndirectLog(bmapstart: nat, row0: seq<nat>, row: seq<nat>, row': seq<nat>, bn: nat, n: nat)
    requires bn + n < MAXFILE && Extended(row0, row, bn, n) && Grown(row, row', bn + n)
    ensures NewLog(bmapstart, row0, row', NDIRECT) == NewLog(bmapstart, row0, row, NDIRECT) + NewLog(bmapstart, row,
            row', NDIRECT)
    ensures NewLog(bmapstart, row0, row', SlotIx(bn + n)) == NewLog(bmapstart, row, row', SlotIx(bn + n))
  {
  }

  lemma ExactlyStep(bmapstart: nat, row0: seq<nat>, row: seq<nat>, row': seq<nat>, bn: nat, k: nat, logged: set<nat>,
        logged': set<nat>, done: bool)
    requires Exactly(bmapstart, row0, row, bn, k, false, logged) && RoundLog(bmapstart, row, row', bn + k, logged,
             logged', done)
    requires forall s :: NDIRECT < s < SLOTS && row'[s] != 0 ==> row'[NDIRECT] != 0
    ensures Exactly(bmapstart, row0, row', bn, if done then k + 1 else k, !done, logged')
  {
    hide NewLog, WrittenLog, Extended, Grown, AllFilled;
    FilledMore(row0, row, row', bn, k, done);
    WrittenStill(bmapstart, row0, row, row', bn, k, k);
    IndirectLog(bmapstart, row0, row, row', bn, k);
    ExtendedMore(row0, row, row', bn, k);
    if done {
      WrittenMore(bmapstart, row0, row', bn, k);
    }
  }

  lemma FilledMore(row0: seq<nat>, row: seq<nat>, row': seq<nat>, bn: nat, k: nat, done: bool)
    requires Extended(row0, row, bn, k) && bn + k < MAXFILE && AllFilled(row, bn, k) && Grown(row, row', bn + k)
             && (done ==> row'[SlotIx(bn + k)] != 0)
    ensures AllFilled(row', bn, if done then k + 1 else k)
  {
  }

  lemma ExtendedMore(row0: seq<nat>, row: seq<nat>, row': seq<nat>, bn: nat, k: nat)
    requires Extended(row0, row, bn, k) && Grown(row, row', bn + k) && bn + k < MAXFILE
    requires forall s :: NDIRECT < s < SLOTS && row'[s] != 0 ==> row'[NDIRECT] != 0
    ensures Extended(row0, row', bn, k + 1)
  {
  }

  lemma WrittenNone(bmapstart: nat, row0: seq<nat>, row: seq<nat>, bn: nat)
    requires |row0| == |row| == SLOTS && bn <= MAXFILE
    ensures WrittenLog(bmapstart, row0, row, bn, 0) == {}
  {
  }

  lemma WrittenMore(bmapstart: nat, row0: seq<nat>, row: seq<nat>, bn: nat, k: nat)
    requires |row0| == |row| == SLOTS && bn + k < MAXFILE
    ensures WrittenLog(bmapstart, row0, row, bn, k + 1) ==
            WrittenLog(bmapstart, row0, row, bn, k) + NewLog(bmapstart, row0, row, SlotIx(bn + k))
                + {row[SlotIx(bn + k)]}
  {
  }

  /** After k rounds of writei: X holds the data and bitmap blocks logged, `added` of the k data blocks were
      new, and an unaligned write never finds its first block missing. */
  ghost predicate Tally(off: nat, row0: seq<nat>, row: seq<nat>, logged: set<nat>, X: set<nat>, k: nat, added: nat) {
    && |row0| == |row| == SLOTS && logged <= X + NonZero(row[NDIRECT])
    && |X| <= k + added + (if row0[NDIRECT] == 0 && row[NDIRECT] != 0 then 1 else 0)
    && (row0[NDIRECT] != 0 ==> row[NDIRECT] == row0[NDIRECT])
    && added <= k && (off % BSIZE != 0 && k > 0 ==> added < k)
  }

  lemma TallyStep(bmapstart: nat, off: nat, row0: seq<nat>, row: seq<nat>, logged: set<nat>, X: set<nat>, k: nat,
        added: nat, bn: nat, row': seq<nat>, logged': set<nat>, done: bool)
    returns (X': set<nat>, added': nat)
    requires Tally(off, row0, row, logged, X, k, added) && RoundLog(bmapstart, row, row', bn, logged, logged', done)
    requires off % BSIZE != 0 && k == 0 ==> row[SlotIx(bn)] != 0
    requires forall s :: NDIRECT < s < SLOTS && row'[s] != 0 ==> row'[NDIRECT] != 0
    ensures Tally(off, row0, row', logged', X', k + 1, added')
  {
    hide RoundLog, RoundBlocks, NonZero, Grown;
    RoundGrows(bmapstart, row, row', bn, logged, logged', done);
    var isNew := row[SlotIx(bn)] == 0 && row'[SlotIx(bn)] != 0;
    var d := RoundBlocks(bmapstart, row, row', SlotIx(bn));
    X', added' := X + d, if isNew then added + 1 else added;
    RoundSize(bmapstart, row, row', SlotIx(bn));
    RoundWithin(bmapstart, row, row', bn, logged, logged', done, X);
    UnionSize(X, d);
  }

  lemma UnionSize(a: set<nat>, b: set<nat>)
    ensures |a + b| <= |a| + |b|
  {
    assert a + b == a + (b - a);
  }

  /** The data and bitmap blocks of a round. */
  ghost function RoundBlocks(bmapstart: nat, row: seq<nat>, row': seq<nat>, s: nat): set<nat>
    requires |row| == |row'| == SLOTS && s < SLOTS
  {
    NonZero(row'[s]) + NewBitmap(bmapstart, row, row', s) + if s == NDIRECT then {} else NewBitmap(bmapstart, row, row',
        NDIRECT)
  }

  ghost function NewBitmap(bmapstart: nat, row: seq<nat>, row': seq<nat>, s: nat): set<nat>
    requires |row| == |row'| == SLOTS && s < SLOTS
  {
    if row[s] == 0 && row'[s] != 0 then {BBlock(bmapstart, row'[s])} else {}
  }

  lemma RoundSize(bmapstart: nat, row: seq<nat>, row': seq<nat>, s: nat)
    requires |row| == |row'| == SLOTS && s < SLOTS
    ensures |RoundBlocks(bmapstart, row, row', s)| <=
            1 + (if row[s] == 0 && row'[s] != 0 then 1 else 0) + if row[NDIRECT] == 0 && row'[NDIRECT] != 0 then 1
                else 0
  {
  }

  lemma RoundWithin(bmapstart: nat, row: seq<nat>, row': seq<nat>, bn: nat, logged: set<nat>, logged': set<nat>,
        done: bool, X: set<nat>)
    requires RoundLog(bmapstart, row, row', bn, logged, logged', done) && logged <= X + NonZero(row[NDIRECT])
    requires forall s :: NDIRECT < s < SLOTS && row'[s] != 0 ==> row'[NDIRECT] != 0
    ensures logged' <= X + RoundBlocks(bmapstart, row, row', SlotIx(bn)) + NonZero(row'[NDIRECT])
  {
    hide BBlock;
  }

  lemma RoundGrows(bmapstart: nat, row: seq<nat>, row': seq<nat>, bn: nat, logged: set<nat>, logged': set<nat>,
        done: bool)
    requires RoundLog(bmapstart, row, row', bn, logged, logged', done)
    ensures bn < MAXFILE && |row| == |row'| == SLOTS && (row[NDIRECT] != 0 ==> row'[NDIRECT] == row[NDIRECT])
  {
  }

  /** At most three blocks' worth of bytes, and the inode: at most MAXOPBLOCKS blocks. */
  lemma TallyBound(off: nat, n: nat, row0: seq<nat>, row: seq<nat>, logged: set<nat>, X: set<nat>, k: nat, added: nat,
        inode: nat)
    requires Tally(off, row0, row, logged, X, k, added) && k <= BlocksOf(off, n) && n <= 3 * BSIZE
    ensures |logged + {inode}| <= MAXOPBLOCKS
  {
    var all := X + NonZero(row[NDIRECT]) + {inode};
    assert |all| <= |X| + 1 + 1;
    assert BlocksOf(off, n) <= 4 && (off % BSIZE == 0 ==> BlocksOf(off, n) <= 3);
    SubsetSize(logged + {inode}, all);
  }

  lemma SubsetSize(s: set<nat>, t: set<nat>)
    requires s <= t
    ensures |s| <= |t|
  {
    assert t == s + (t - s);
  }

  class FileSystem {
    const nmeta: nat       // boot block, super block, log, inodes and bitmap
    const bmapstart: nat
    const inodestart: nat
    var bitmap: seq<bool>
    var data: seq<Block>
    var inodes: seq<Inode>
    ghost var table: seq<seq<nat>>
    ghost var owner: map<nat, Loc>
    ghost var content: seq<seq<Byte>>
    var logged: set<nat>

    ghost predicate Base()
      reads this
    {
      Whole(nmeta, bitmap, data, inodes, table, owner, content)
    }

    ghost predicate Valid()
      reads this
    {
      Base() && forall i :: 0 <= i < |inodes| ==> inodes[i].size == |content[i]|
    }

    ghost function Now(): Snapshot
      reads this
    {
      Snapshot(bitmap, data, inodes, table, owner, content, logged)
    }

    /** An image as mkfs leaves it, with empty inodes. */
    constructor (size: nat, nmeta0: nat, bmapstart0: nat, inodestart0: nat, ninodes: nat, image: Block)
      requires 0 < nmeta0 <= size <= TWO32
      ensures Valid() && nmeta == nmeta0 && |data| == size && |inodes| == ninodes && logged == {}
      ensures forall i :: 0 <= i < ninodes ==> content[i] == []
    {
      nmeta, bmapstart, inodestart := nmeta0, bmapstart0, inodestart0;
      bitmap := seq(size, b => b < nmeta0);
      data := seq(size, b => Zeroed(image));
      inodes := seq(ninodes, i => Inode(0, seq(NDIRECT + 1, k => 0)));
      table := seq(ninodes, i => seq(SLOTS, k => 0));
      owner, logged := map[], {};
      content := seq(ninodes, i => []);
    }

    /** An image that is in order. */
    constructor Mount(nmeta0: nat, bmapstart0: nat, inodestart0: nat, s: Snapshot)
      requires Whole(nmeta0, s.bitmap, s.data, s.inodes, s.table, s.owner, s.content)
      requires |s.inodes| == |s.content| && forall i :: 0 <= i < |s.inodes| ==> s.inodes[i].size == |s.content[i]|
      ensures Valid() && nmeta == nmeta0 && bmapstart == bmapstart0 && inodestart == inodestart0 && Now() == s
    {
      hide Whole;
      nmeta, bmapstart, inodestart := nmeta0, bmapstart0, inodestart0;
      bitmap, data, inodes, table, owner, content, logged := s.bitmap, s.data, s.inodes, s.table, s.owner, s.content,
          s.logged;
    }

    /** balloc: the first free block, marked in use and zeroed; 0 when there is none. */
    method Balloc() returns (b: nat)
      requires |bitmap| == |data| && |bitmap| > 0 && bitmap[0]
      modifies this`bitmap, this`data, this`logged
      ensures b == 0 ==> bitmap == old(bitmap) && data == old(data) && logged == old(logged) && Full(bitmap)
      ensures b != 0 ==>
                && b < |old(bitmap)| && !old(bitmap)[b] && (forall x :: 0 <= x < b ==> old(bitmap)[x])
                && bitmap == old(bitmap)[b := true] && data == old(data)[b := Zeroed(old(data)[b])]
                    && logged == old(logged) + {BBlock(bmapstart, b), b}
    {
      var base := 0;
      while base < |bitmap|
        invariant base % BPB == 0 && bitmap == old(bitmap) && data == old(data) && logged == old(logged)
        invariant forall x :: 0 <= x < base && x < |bitmap| ==> bitmap[x]
      {
        var bi := 0;
        while bi < BPB && base + bi < |bitmap|
          invariant 0 <= bi <= BPB && bitmap == old(bitmap) && data == old(data) && logged == old(logged)
          invariant forall x :: 0 <= x < base + bi && x < |bitmap| ==> bitmap[x]
        {
          if !bitmap[base + bi] {
            bitmap := bitmap[base + bi := true];
            logged := logged + {base / BPB + bmapstart};
            assert (base + bi) / BPB == base / BPB;
            data := data[base + bi := Zeroed(data[base + bi])];
            logged := logged + {base + bi};
            return base + bi;
          }
          bi := bi + 1;
        }
        base := base + BPB;
      }
      return 0;
    }

    /** bfree; false is the panic for a block that is free already. */
    method Bfree(b: nat) returns (ok: bool)
      requires b < |bitmap|
      modifies this`bitmap, this`logged
      ensures ok == old(bitmap)[b]
      ensures bitmap == (if ok then old(bitmap)[b := false] else old(bitmap))
      ensures logged == old(logged) + if ok then {BBlock(bmapstart, b)} else {}
    {
      ok := bitmap[b];
      if ok {
        bitmap := bitmap[b := false];
        logged := logged + {BBlock(bmapstart, b)};
      }
    }

    /** The part of bmap that fills a direct slot, or the slot of the indirect block. */
    method FillSlot(i: nat, k: nat) returns (addr: nat)
      requires Base() && i < |inodes| && k <= NDIRECT && inodes[i].addrs[k] == 0
      modifies this`bitmap, this`data, this`logged, this`inodes, this`table, this`owner
      ensures Base() && SameSizes(old(inodes), inodes) && |inodes| == |old(inodes)| == |table| && |data| == |old(data)|
      ensures addr == 0 ==> table == old(table) && logged == old(logged) && Full(bitmap)
      ensures addr != 0 ==> Filled(bmapstart, old(table), table, old(logged), logged, i, k, addr, {})
      ensures Covers(old(Now()), Now(), bmapstart, i)
    {
      hide Whole, Put, Full, Zeroed, Covers;
      CoversSelf(Now(), bmapstart, i);
      RowFacts(nmeta, bitmap, data, inodes, table, owner, content, i);
      addr := Balloc();
      if addr != 0 {
        Attach(nmeta, old(bitmap), old(data), inodes, table, owner, content, addr, i, k);
        inodes := inodes[i := inodes[i].(addrs := inodes[i].addrs[k := addr])];
        table := Put(table, i, k, addr);
        owner := owner[addr := Loc(i, k)];
        CoversAlloc(old(Now()), Now(), bmapstart, i, addr, addr);
      }
    }

    /** The part of bmap that fills an entry of the indirect block. */
    method FillEntry(i: nat, e: nat) returns (addr: nat)
      requires Base() && i < |inodes| && e < NINDIRECT && 0 < inodes[i].addrs[NDIRECT] < |data|
               && Entry(data[inodes[i].addrs[NDIRECT]], e) == 0
      modifies this`bitmap, this`data, this`logged, this`table, this`owner
      ensures Base() && |inodes| == |table| && |data| == |old(data)|
      ensures addr == 0 ==> table == old(table) && logged == old(logged) && Full(bitmap)
      ensures addr != 0 ==>
                Filled(bmapstart, old(table), table, old(logged), logged, i, NDIRECT + 1 + e, addr,
                {inodes[i].addrs[NDIRECT]})
      ensures Covers(old(Now()), Now(), bmapstart, i)
    {
      hide Whole, Put, Entry, SetEntry, Zeroed, Full, Covers;
      CoversSelf(Now(), bmapstart, i);
      RowFacts(nmeta, bitmap, data, inodes, table, owner, content, i);
      EntryFacts(nmeta, bitmap, data, inodes, table, owner, content, i, e);
      addr := Balloc();
      if addr != 0 {
        var ind := inodes[i].addrs[NDIRECT];
        AttachEntry(nmeta, old(bitmap), old(data), inodes, table, owner, content, addr, i, e);
        data := data[ind := SetEntry(data[ind], e, addr)];
        logged := logged + {ind};
        table := Put(table, i, NDIRECT + 1 + e, addr);
        owner := owner[addr := Loc(i, NDIRECT + 1 + e)];
        CoversAlloc(old(Now()), Now(), bmapstart, i, addr, ind);
      }
    }

    /** The part of bmap for blocks reached through the indirect block. */
    method BmapIndirect(i: nat, e: nat) returns (addr: nat)
      requires Base() && i < |inodes| && e < NINDIRECT
      modifies this`bitmap, this`data, this`logged, this`inodes, this`table, this`owner
      ensures Base() && SameSizes(old(inodes), inodes) && |inodes| == |old(inodes)| == |table| && |data| == |old(data)|
      ensures Mapped(bmapstart, old(table), table, i, NDIRECT + e, old(logged), logged)
              && addr == table[i][NDIRECT + 1 + e]
      ensures addr == 0 ==> Full(bitmap)
      ensures old(table)[i][NDIRECT + 1 + e] != 0 ==>
                bitmap == old(bitmap) && data == old(data) && inodes == old(inodes) && owner == old(owner)
      ensures Covers(old(Now()), Now(), bmapstart, i)
    {
      hide Whole, Entry, Mapped, Filled, SameSizes, Full, Covers;
      CoversSelf(Now(), bmapstart, i);
      RowFacts(nmeta, bitmap, data, inodes, table, owner, content, i);
      EntryFacts(nmeta, bitmap, data, inodes, table, owner, content, i, e);
      ghost var t0, l0 := table, logged;
      MappedSame(bmapstart, t0, i, NDIRECT + e, l0);
      SizesSame(inodes);
      addr := inodes[i].addrs[NDIRECT];
      if addr == 0 {
        addr := FillSlot(i, NDIRECT);
        if addr == 0 {
          return;
        }
        MappedIndirect(bmapstart, t0, i, e, l0, addr, table, logged);
        RowFacts(nmeta, bitmap, data, inodes, table, owner, content, i);
        EntryFacts(nmeta, bitmap, data, inodes, table, owner, content, i, e);
      }
      ghost var t1, l1, ind, now1 := table, logged, addr, Now();
      addr := Entry(data[addr], e);
      if addr == 0 {
        addr := FillEntry(i, e);
        CoversTrans(old(Now()), now1, Now(), bmapstart, i);
        if addr != 0 {
          MappedEntry(bmapstart, t0, t1, i, e, l0, l1, ind, addr, table, logged);
        }
      }
    }

    /** bmap: the block in the slot, which is filled first if it is empty; 0 when the disk is full. */
    method Bmap(i: nat, bn: nat) returns (addr: nat)
      requires Base() && i < |inodes| && bn < MAXFILE
      modifies this`bitmap, this`data, this`logged, this`inodes, this`table, this`owner
      ensures Base() && SameSizes(old(inodes), inodes) && |inodes| == |old(inodes)| == |table| && |data| == |old(data)|
      ensures Mapped(bmapstart, old(table), table, i, bn, old(logged), logged) && addr == table[i][SlotIx(bn)]
      ensures addr == 0 ==> Full(bitmap)
      ensures old(table)[i][SlotIx(bn)] != 0 ==>
                bitmap == old(bitmap) && data == old(data) && inodes == old(inodes) && owner == old(owner)
      ensures Covers(old(Now()), Now(), bmapstart, i)
    {
      hide Whole, Mapped, Filled, SameSizes, Full, Covers;
      CoversSelf(Now(), bmapstart, i);
      RowFacts(nmeta, bitmap, data, inodes, table, owner, content, i);
      if bn < NDIRECT {
        MappedSame(bmapstart, table, i, bn, logged);
        SizesSame(inodes);
        addr := inodes[i].addrs[bn];
        if addr == 0 {
          addr := FillSlot(i, bn);
          if addr != 0 {
            MappedDirect(bmapstart, old(table), i, bn, old(logged), addr, table, logged);
          }
          RowFacts(nmeta, bitmap, data, inodes, table, owner, content, i);
        }
      } else {
        addr := BmapIndirect(i, bn - NDIRECT);
      }
    }

    /** One round of readi. */
    method ReadBlock(i: nat, off: nat, m: nat) returns (piece: seq<Byte>)
      requires Base() && i < |inodes| == |content| && 0 < m && off + m <= |content[i]| && off % BSIZE + m <= BSIZE
      modifies this`bitmap, this`data, this`logged, this`inodes, this`table, this`owner
      ensures Now() == old(Now()) && piece == content[i][off..off + m]
    {
      hide Whole, Shows, Mapped, SameSizes, Covers;
      RowFacts(nmeta, bitmap, data, inodes, table, owner, content, i);
      ReadBytes(data, table[i], content[i], off, m);
      BlockBelow(off);
      var addr := Bmap(i, off / BSIZE);
      MappedAlready(bmapstart, old(table), table, i, off / BSIZE, old(logged), logged);
      piece := data[addr][off % BSIZE..off % BSIZE + m];
    }

    /** The loop of readi. */
    method ReadLoop(i: nat, off: nat, want: nat, failAt: nat) returns (r: int, out: seq<Byte>)
      requires Base() && i < |inodes| == |content| && off + want <= |content[i]|
      modifies this`bitmap, this`data, this`logged, this`inodes, this`table, this`owner
      ensures Now() == old(Now())
      ensures r == -1 <==> failAt < BlocksOf(off, want)
      ensures r != -1 ==> r == want && Sliced(content[i], off, want, out)
    {
      hide Whole, Progress, BlocksOf, Sliced;
      ProgressStart(off, want);
      SliceStart(content[i], off);
      out := [];
      var tot, k := 0, 0;
      while tot < want
        invariant Now() == old(Now()) && Progress(off, want, tot, k) && tot <= want && k <= failAt
                  && Sliced(content[i], off, tot, out)
      {
        ProgressStep(off, want, tot, k);
        var m := Piece(off, want, tot);
        var piece := ReadBlock(i, off + tot, m);
        if k == failAt {
          return -1, out;
        }
        SliceMore(content[i], off, tot, m, out, piece);
        out := out + piece;
        tot, k := tot + m, k + 1;
      }
      ProgressDone(off, want, k);
      r := want;
    }

    /** readi: the bytes of the file from this offset, as many as were asked for and are there; nothing is
        allocated.  -1 if the copy of some block fails. */
    method Readi(i: nat, off: nat, n: nat, failAt: nat) returns (r: int, out: seq<Byte>)
      requires Valid() && i < |inodes| && off < TWO32 && n < TWO32
      modifies this`bitmap, this`data, this`logged, this`inodes, this`table, this`owner
      ensures Now() == old(Now()) && |content| == |inodes|
      ensures off > |content[i]| || off + n >= TWO32 ==> r == 0 && out == []
      ensures off <= |content[i]| && off + n < TWO32 ==>
                var want := if off + n > |content[i]| then |content[i]| - off else n;
                && (r == -1 <==> failAt < BlocksOf(off, want))
                && (r >= 0 ==> r == want && Sliced(content[i], off, want, out))
    {
      hide Whole, BlocksOf, Add32, Sliced;
      RowFacts(nmeta, bitmap, data, inodes, table, owner, content, i);
      AddWraps(off, n);
      if off > inodes[i].size || Add32(off, n) < off {
        return 0, [];
      }
      var want := n;
      if Add32(off, n) > inodes[i].size {
        want := inodes[i].size - off;
      }
      r, out := ReadLoop(i, off, want, failAt);
    }

    /** One round of writei; `copies` says whether the copy from the caller succeeds. */
    method WriteBlock(i: nat, off: nat, bytes: seq<Byte>, copies: bool) returns (done: bool)
      requires Base() && i < |inodes| == |content| == |table| && 0 < |bytes| && off % BSIZE + |bytes| <= BSIZE
      requires off <= |content[i]| && off + |bytes| <= MAXFILE * BSIZE
      modifies this`bitmap, this`data, this`logged, this`inodes, this`table, this`owner, this`content
      ensures Base() && SameSizes(old(inodes), inodes) && |inodes| == |content| == |table| == |old(table)|
              && off / BSIZE < MAXFILE
      ensures RoundLog(bmapstart, old(table)[i], table[i], off / BSIZE, old(logged), logged, done)
              && table == old(table)[i := table[i]]
      ensures off % BSIZE != 0 ==> old(table)[i][SlotIx(off / BSIZE)] != 0
      ensures if done then WroteTo(old(content), content, i, off, bytes) else content == old(content)
      ensures !done && copies ==> Full(bitmap) && table[i][SlotIx(off / BSIZE)] == 0
      ensures done ==> copies
      ensures Covers(old(Now()), Now(), bmapstart, i)
    {
      hide Whole, Shows, Mapped, SameSizes, Splice, Overwrite, NewLog, Grown, Full, Covers;
      RowFacts(nmeta, bitmap, data, inodes, table, owner, content, i);
      StartMapped(data, table[i], content[i], off);
      BlockBelow(off);
      ghost var t0, l0 := table, logged;
      var addr := Bmap(i, off / BSIZE);
      RowFacts(nmeta, bitmap, data, inodes, table, owner, content, i);
      MappedMeans(bmapstart, t0, table, i, off / BSIZE, l0, logged);
      if addr == 0 || !copies {
        return false;
      }
      ghost var now1 := Now();
      WriteBytes(nmeta, bitmap, data, inodes, table, owner, content, i, off, bytes);
      data := data[addr := Splice(data[addr], off % BSIZE, bytes)];
      content := content[i := Overwrite(content[i], off, bytes)];
      logged := logged + {addr};
      CoversData(now1, Now(), bmapstart, i, addr);
      CoversTrans(old(Now()), now1, Now(), bmapstart, i);
      done := true;
    }

    /** writei has done k rounds since s0 and written tot bytes; another round has failed if `more`. */
    ghost predicate Writing(i: nat, off: nat, src: seq<Byte>, tot: nat, k: nat, more: bool, s0: Snapshot, X: set<nat>,
          added: nat)
      reads this
    {
      && Base() && SameSizes(s0.inodes, inodes) && |inodes| == |content| == |table| == |s0.table| && i < |inodes|
      && tot <= |src| && Progress(off, |src|, tot, k) && (more ==> tot < |src|) && WrotePrefix(s0.content, content, i,
          off, src, tot)
      && Tally(off, s0.table[i], table[i], logged, X, if more then k + 1 else k, added)
      && Exactly(bmapstart, s0.table[i], table[i], off / BSIZE, k, more, logged) && table == s0.table[i := table[i]]
      && Covers(s0, Now(), bmapstart, i)
    }

    method WriteRound(i: nat, off: nat, src: seq<Byte>, tot: nat, copies: bool, ghost k: nat, ghost s0: Snapshot,
          ghost X: set<nat>, ghost added: nat)
      returns (m: nat, ghost X': set<nat>, ghost added': nat)
      requires Writing(i, off, src, tot, k, false, s0, X, added) && tot < |src| && off + |src| <= MAXFILE * BSIZE
      modifies this`bitmap, this`data, this`logged, this`inodes, this`table, this`owner, this`content
      ensures tot + m <= |src| && Writing(i, off, src, tot + m, if m > 0 then k + 1 else k, m == 0, s0, X', added')
      ensures m > 0 ==> copies
      ensures m == 0 && copies ==> Full(bitmap) && Unfilled(table[i], off / BSIZE + k)
    {
      hide Whole, SameSizes, Progress, WroteTo, WrotePrefix, Cut, Tally, RoundLog, Piece, Full, BlocksOf, Exactly,
           Covers;
      ProgressStep(off, |src|, tot, k);
      ghost var row, l0, c, now0 := table[i], logged, content, Now();
      WroteEnd(s0.content, c, i, off, src, tot);
      m := Piece(off, |src|, tot);
      var done := WriteBlock(i, off + tot, Cut(src, tot, m), copies);
      SizesTrans(s0.inodes, old(inodes), inodes);
      CoversTrans(s0, now0, Now(), bmapstart, i);
      EntriesNeedIndirect(nmeta, bitmap, data, inodes, table, owner, content, i);
      X', added' := TallyStep(bmapstart, off, s0.table[i], row, l0, X, k, added, (off + tot) / BSIZE, table[i], logged,
          done);
      ExactlyStep(bmapstart, s0.table[i], row, table[i], off / BSIZE, k, l0, logged, done);
      if done {
        WroteMore(s0.content, c, content, i, off, src, tot, m);
      } else {
        m := 0;
      }
    }

    /** The loop of writei. */
    method WriteLoop(i: nat, off: nat, src: seq<Byte>, failAt: nat) returns (tot: nat, ghost k: nat, ghost X: set<nat>,
          ghost added: nat)
      requires Base() && i < |inodes| == |content| == |table| && |table[i]| == SLOTS && off <= |content[i]|
               && off + |src| <= MAXFILE * BSIZE && logged == {}
      modifies this`bitmap, this`data, this`logged, this`inodes, this`table, this`owner, this`content
      ensures Writing(i, off, src, tot, k, tot < |src|, old(Now()), X, added)
      ensures tot < |src| ==> failAt == k || (Full(bitmap) && Unfilled(table[i], off / BSIZE + k))
    {
      hide Whole, SameSizes, Progress, WrotePrefix, Tally, Full, BlocksOf, Exactly, Covers, Unfilled;
      WriteStart(content, i, off, src, table[i], inodes);
      EntriesNeedIndirect(nmeta, bitmap, data, inodes, table, owner, content, i);
      ExactlyStart(bmapstart, table[i], off);
      CoversSelf(Now(), bmapstart, i);
      ProgressStart(off, |src|);
      tot, k, X, added := 0, 0, {}, 0;
      var round := 0;
      while tot < |src|
        invariant Writing(i, off, src, tot, k, false, old(Now()), X, added) && round == k
      {
        var m;
        m, X, added := WriteRound(i, off, src, tot, round != failAt, k, old(Now()), X, added);
        if m == 0 {
          return;
        }
        k := k + 1;
        tot, round := tot + m, round + 1;
      }
    }

    /** writei: writes the bytes at this offset, or a prefix of them if the disk is full or a copy fails.  It logs
        exactly the blocks it has changed and those of the bytes, and no more than an operation may if there are
        at most three blocks of bytes. */
    method Writei(i: nat, off: nat, src: seq<Byte>, failAt: nat) returns (r: int)
      requires Valid() && i < |inodes| && off < TWO32 && |src| < TWO32 && logged == {}
      modifies this`bitmap, this`data, this`logged, this`inodes, this`table, this`owner, this`content
      ensures Valid() && |inodes| == |content| == |old(content)| == |table| == |old(table)|
      ensures r == -1 <==> off > |old(content)[i]| || off + |src| > MAXFILE * BSIZE
      ensures r == -1 ==> Now() == old(Now())
      ensures r != -1 ==> 0 <= r <= |src| && WrotePrefix(old(content), content, i, off, src, r)
      ensures 0 <= r < |src| ==> BlocksOf(off, r) < BlocksOf(off, |src|)
      ensures 0 <= r < |src| ==>
                failAt == BlocksOf(off, r) || (Full(bitmap) && Unfilled(table[i], off / BSIZE + BlocksOf(off, r)))
      ensures r != -1 ==>
                LogIs(bmapstart, old(table), table, i, off / BSIZE, BlocksOf(off, r), r < |src|, IBlock(inodestart, i),
                logged)
      ensures Covers(old(Now()), Now(), bmapstart, i) && (r != -1 ==> IBlock(inodestart, i) in logged)
      ensures |src| <= 3 * BSIZE ==> |logged| <= MAXOPBLOCKS
    {
      hide Whole, BlocksOf, Add32, Tally, SameSizes, WrotePrefix, Full, Covers, Exactly, Progress, Unfilled, LogIs;
      RowFacts(nmeta, bitmap, data, inodes, table, owner, content, i);
      CoversSelf(Now(), bmapstart, i);
      AddWraps(off, |src|);
      if off > inodes[i].size || Add32(off, |src|) < off {
        return -1;
      }
      if Add32(off, |src|) > MAXFILE * BSIZE {
        return -1;
      }
      ghost var sizes, c0 := inodes, content;
      var tot;
      ghost var k, X, added;
      tot, k, X, added := WriteLoop(i, off, src, failAt);
      ProgressBlocks(off, |src|, tot, k);
      if |src| <= 3 * BSIZE {
        TallyBound(off, |src|, old(table)[i], table[i], logged, X, if tot < |src| then k + 1 else k, added,
            IBlock(inodestart, i));
      }
      SizeAfter(sizes, inodes, c0, content, i, off, src, tot);
      LogIsThat(bmapstart, old(table), table, i, off / BSIZE, k, tot < |src|, IBlock(inodestart, i), logged);
      ghost var now1 := Now();
      SetSize(i, off + tot);
      CoversTrans(old(Now()), now1, Now(), bmapstart, i);
      r := tot;
    }

    /** The end of writei: the size, if the file has grown, and iupdate. */
    method SetSize(i: nat, end: nat)
      requires Base() && i < |inodes| == |content| && (forall j :: 0 <= j < |inodes| && j != i ==>
               inodes[j].size == |content[j]|)
      requires |content[i]| == if end > inodes[i].size then end else inodes[i].size
      modifies this`inodes, this`logged
      ensures Valid() && |inodes| == |old(inodes)| && logged == old(logged) + {IBlock(inodestart, i)}
              && Covers(old(Now()), Now(), bmapstart, i)
    {
      hide Whole, Covers;
      Resized(nmeta, bitmap, data, inodes, table, owner, content, i);
      if end > inodes[i].size {
        inodes := inodes[i := inodes[i].(size := end)];
      }
      logged := logged + {IBlock(inodestart, i)};
      CoversInode(old(Now()), Now(), bmapstart, i, IBlock(inodestart, i));
    }

    /** The direct part of itrunc has come to slot k. */
    ghost predicate FreeingDirect(i: nat, k: nat, s0: Snapshot)
      reads this
    {
      && Base() && i < |inodes| == |table| == |content| && content[i] == [] && |table[i]| == SLOTS && k <= NDIRECT
      && AllZero(table[i], k) && Freed(i, bmapstart, s0, Now())
    }

    method FreeDirect(i: nat, k: nat, ghost s0: Snapshot) returns (ok: bool)
      requires k < NDIRECT && FreeingDirect(i, k, s0)
      modifies this`bitmap, this`logged, this`inodes, this`table, this`owner
      ensures ok && FreeingDirect(i, k + 1, s0)
    {
      hide Whole, AllZero, Freed, Put, Readdressed;
      RowFacts(nmeta, bitmap, data, inodes, table, owner, content, i);
      ok := true;
      var b := inodes[i].addrs[k];
      if b != 0 {
        DetachDirect(nmeta, bitmap, data, inodes, table, owner, content, i, k);
        OwnerOf(nmeta, bitmap, data, inodes, table, owner, content, i, k);
        ok := Bfree(b);
        AddrCleared(inodes, i, k);
        inodes := inodes[i := inodes[i].(addrs := inodes[i].addrs[k := 0])];
        ClearStep(table, i, k);
        table := Put(table, i, k, 0);
        owner := owner - {b};
        FreedStep(i, bmapstart, s0, old(Now()), Now(), b);
      } else {
        ZeroMore(table[i], k);
      }
    }

    /** The indirect part of itrunc has come to entry e. */
    ghost predicate FreeingEntries(i: nat, e: nat, s0: Snapshot)
      reads this
    {
      Freeing(nmeta, bitmap, data, inodes, table, owner, content, i, e) && Freed(i, bmapstart, s0, Now())
    }

    method FreeEntry(i: nat, e: nat, ghost s0: Snapshot) returns (ok: bool)
      requires e < NINDIRECT && FreeingEntries(i, e, s0)
      modifies this`bitmap, this`logged, this`table, this`owner
      ensures ok && FreeingEntries(i, e + 1, s0)
    {
      hide Freeing, Freed, Put, Entry, Readdressed;
      FreeingFacts(nmeta, bitmap, data, inodes, table, owner, content, i, e);
      DetachEntry(nmeta, bitmap, data, inodes, table, owner, content, i, e);
      ok := true;
      var b := Entry(data[inodes[i].addrs[NDIRECT]], e);
      if b != 0 {
        ok := Bfree(b);
        table := Put(table, i, NDIRECT + 1 + e, 0);
        owner := owner - {b};
        ReaddressedSelf(i, inodes);
        FreedStep(i, bmapstart, s0, old(Now()), Now(), b);
      } else {
        FreedStill(i, bmapstart, s0, old(Now()), Now());
      }
    }

    /** The part of itrunc for the indirect block. */
    method FreeIndirect(i: nat, ghost s0: Snapshot) returns (ok: bool)
      requires FreeingEntries(i, 0, s0)
      modifies this`bitmap, this`logged, this`inodes, this`table, this`owner
      ensures ok && Base() && i < |inodes| == |table| == |content| && |table[i]| == SLOTS && AllZero(table[i], SLOTS)
      ensures Freed(i, bmapstart, s0, Now())
    {
      hide Freeing, Freed, Put, Whole, Readdressed, AllZero;
      var e := 0;
      while e < NINDIRECT
        invariant e <= NINDIRECT && FreeingEntries(i, e, s0) && inodes == old(inodes)
      {
        ok := FreeEntry(i, e, s0);
        e := e + 1;
      }
      FreeingFacts(nmeta, bitmap, data, inodes, table, owner, content, i, e);
      DetachIndirect(nmeta, bitmap, data, inodes, table, owner, content, i);
      var b := inodes[i].addrs[NDIRECT];
      ghost var before := Now();
      ok := Bfree(b);
      AddrCleared(inodes, i, NDIRECT);
      inodes := inodes[i := inodes[i].(addrs := inodes[i].addrs[NDIRECT := 0])];
      table := Put(table, i, NDIRECT, 0);
      owner := owner - {b};
      FreedStep(i, bmapstart, s0, before, Now(), b);
      RowFacts(nmeta, bitmap, data, inodes, table, owner, content, i);
      AllZeroIs(table[i]);
    }

    /** itrunc: the file is empty, exactly its blocks are free again, and no bfree panics.  Exactly the bitmap blocks of
        the freed blocks and the inode's block are logged, and they hold all that has changed. */
    method Itrunc(i: nat) returns (ok: bool)
      requires Valid() && i < |inodes|
      modifies this`bitmap, this`logged, this`inodes, this`table, this`owner, this`content
      ensures ok && Valid() && i < |old(content)| && content == old(content)[i := []]
      ensures forall b :: b in owner <==> b in old(owner) && old(owner)[b].ino != i
      ensures forall b :: b in owner ==> owner[b] == old(owner)[b]
      ensures |bitmap| == |old(bitmap)|
      ensures forall b :: 0 <= b < |bitmap| ==>
                (bitmap[b] <==> old(bitmap)[b] && !(b in old(owner) && old(owner)[b].ino == i))
      ensures logged == old(logged) + BitmapBlocks(bmapstart, old(owner), i) + {IBlock(inodestart, i)}
      ensures Covers(old(Now()), Now(), bmapstart, i)
    {
      hide Whole, AllZero, Freed, Readdressed, Freeing, Covers, FreedLog, BitmapBlocks;
      RowFacts(nmeta, bitmap, data, inodes, table, owner, content, i);
      ForgetBytes(nmeta, bitmap, data, inodes, table, owner, content, i);
      FreedSelf(i, bmapstart, Now());
      AllZeroNone(table[i]);
      content := content[i := []];
      FreedStill(i, bmapstart, old(Now()), old(Now()), Now());
      ghost var emptied := content;
      var k := 0;
      while k < NDIRECT
        invariant k <= NDIRECT && content == emptied && FreeingDirect(i, k, old(Now()))
      {
        ok := FreeDirect(i, k, old(Now()));
        k := k + 1;
      }
      RowFacts(nmeta, bitmap, data, inodes, table, owner, content, i);
      if inodes[i].addrs[NDIRECT] != 0 {
        StartTruncating(nmeta, bitmap, data, inodes, table, owner, content, i);
        ok := FreeIndirect(i, old(Now()));
      } else {
        ok := true;
        NoIndirect(nmeta, bitmap, data, inodes, table, owner, content, i);
      }
      Resized(nmeta, bitmap, data, inodes, table, owner, content, i);
      FreedMeans(i, bmapstart, old(Now()), Now());
      ShrunkAll(nmeta, bitmap, data, inodes, table, owner, content, i, old(owner), old(bitmap));
      FreedAll(bmapstart, old(owner), owner, i);
      ghost var before := Now();
      inodes := inodes[i := inodes[i].(size := 0)];
      logged := logged + {IBlock(inodestart, i)};
      CoversInode(before, Now(), bmapstart, i, IBlock(inodestart, i));
      CoversTrans(old(Now()), before, Now(), bmapstart, i);
    }

    /** The part of filewrite for inodes: chunks of at most three blocks, each its own transaction.  On
        success all the bytes are there and the offset is past them; otherwise a prefix of them is, up to
        the new offset; no transaction logs more than an operation may.  `fails[t]` is the block at which
        the copy for chunk t fails. */
    method FileWrite(i: nat, off: nat, src: seq<Byte>, fails: seq<nat>)
          returns (ret: int, off': nat, ghost txs: seq<set<nat>>)
      requires Valid() && i < |inodes| == |content| && off <= MAXFILE * BSIZE && |src| < 0x8000_0000
      modifies this`bitmap, this`data, this`logged, this`inodes, this`table, this`owner, this`content
      ensures Valid() && |content| == |old(content)| && off <= off' <= off + |src|
      ensures if off <= |old(content)[i]| then WrotePrefix(old(content), content, i, off, src, off' - off)
              else content == old(content) && off' == off
      ensures ret == if off' == off + |src| then |src| else -1
      ensures ret == -1 ==> off > |old(content)[i]| || CutShort(off, src, fails, |txs|, bitmap)
      ensures forall t :: 0 <= t < |txs| ==> |txs[t]| <= MAXOPBLOCKS
    {
      hide Whole, WrotePrefix, BlocksOf, Full, Covers, LogIs, Unfilled;
      var done, t := 0, 0;
      off', txs := off, [];
      if off <= |content[i]| {
        WroteNothing(content, i, off, src);
      }
      while done < |src|
        invariant Valid() && i < |inodes| == |content| == |old(content)| && done <= |src| && off' == off + done
                  && off' <= MAXFILE * BSIZE
        invariant if off <= |old(content)[i]| then WrotePrefix(old(content), content, i, off, src, done)
                  else content == old(content) && done == 0
        invariant forall u :: 0 <= u < |txs| ==> |txs[u]| <= MAXOPBLOCKS
        invariant t == |txs| && (done < |src| ==> done == t * CHUNK) && (off <= |old(content)[i]| ==>
                  off' <= |content[i]|)
      {
        var n1 := if |src| - done > CHUNK then CHUNK else |src| - done;
        logged := {};
        ghost var before := content;
        var r := Writei(i, off', src[done..done + n1], FailAt(fails, t));
        txs := txs + [logged];
        if r > 0 {
          WroteEnd(before, content, i, off', src[done..done + n1], r);
          off' := off' + r;
        }
        if r >= 0 {
          ChunkWritten(old(content), before, content, i, off, src, done, n1, r);
        }
        if r != n1 {
          return -1, off', txs;
        }
        done, t := done + r, t + 1;
      }
      ret := |src|;
    }
  }

  lemma RowFacts(nmeta: nat, bitmap: seq<bool>, data: seq<Block>, inodes: seq<Inode>, table: seq<seq<nat>>,
        owner: map<nat, Loc>, content: seq<seq<Byte>>, i: nat)
    requires Whole(nmeta, bitmap, data, inodes, table, owner, content) && i < |inodes|
    ensures |bitmap| == |data| && 0 < nmeta <= |bitmap| && bitmap[0] && |inodes| == |table| == |content|
    ensures |table[i]| == SLOTS && |inodes[i].addrs| == NDIRECT + 1 && forall k :: 0 <= k <= NDIRECT ==>
              inodes[i].addrs[k] == table[i][k]
    ensures table[i][NDIRECT] < |data| && |content[i]| <= MAXFILE * BSIZE && Shows(data, table[i], content[i])
  {
    assert Stored(data, inodes[i], table[i]);
  }

  lemma EntryFacts(nmeta: nat, bitmap: seq<bool>, data: seq<Block>, inodes: seq<Inode>, table: seq<seq<nat>>,
        owner: map<nat, Loc>, content: seq<seq<Byte>>, i: nat, e: nat)
    requires Whole(nmeta, bitmap, data, inodes, table, owner, content) && i < |inodes| == |table| && |table[i]| == SLOTS
             && e < NINDIRECT && table[i][NDIRECT] < |data|
    ensures table[i][NDIRECT + 1 + e] == if table[i][NDIRECT] == 0 then 0 else Entry(data[table[i][NDIRECT]], e)
  {
    hide Entry;
    assert Stored(data, inodes[i], table[i]);
    assert table[i][NDIRECT + 1..][e] == table[i][NDIRECT + 1 + e];
  }

  lemma SizesSame(inodes: seq<Inode>)
    ensures SameSizes(inodes, inodes)
  {
  }

  lemma MappedSame(bmapstart: nat, table: seq<seq<nat>>, i: nat, bn: nat, logged: set<nat>)
    requires i < |table| && bn < MAXFILE && |table[i]| == SLOTS
    ensures Mapped(bmapstart, table, table, i, bn, logged, logged)
  {
  }

  lemma MappedDirect(bmapstart: nat, table: seq<seq<nat>>, i: nat, bn: nat, logged: set<nat>, b: nat,
        table': seq<seq<nat>>, logged': set<nat>)
    requires bn < NDIRECT && Filled(bmapstart, table, table', logged, logged', i, bn, b, {})
    ensures Mapped(bmapstart, table, table', i, bn, logged, logged') && table'[i][bn] == b
  {
  }

  lemma MappedIndirect(bmapstart: nat, table: seq<seq<nat>>, i: nat, e: nat, logged: set<nat>, b: nat,
        table': seq<seq<nat>>, logged': set<nat>)
    requires e < NINDIRECT && Filled(bmapstart, table, table', logged, logged', i, NDIRECT, b, {})
             && table[i][NDIRECT + 1 + e] == 0
    ensures Mapped(bmapstart, table, table', i, NDIRECT + e, logged, logged')
    ensures table'[i][NDIRECT] == b && table'[i][NDIRECT + 1 + e] == 0
  {
  }

  lemma MappedEntry(bmapstart: nat, t0: seq<seq<nat>>, t1: seq<seq<nat>>, i: nat, e: nat, l0: set<nat>, l1: set<nat>,
        ind: nat, b: nat, t2: seq<seq<nat>>, l2: set<nat>)
    requires e < NINDIRECT && Mapped(bmapstart, t0, t1, i, NDIRECT + e, l0, l1) && t1[i][NDIRECT] == ind != 0
    requires Filled(bmapstart, t1, t2, l1, l2, i, NDIRECT + 1 + e, b, {ind})
    ensures Mapped(bmapstart, t0, t2, i, NDIRECT + e, l0, l2) && t2[i][NDIRECT + 1 + e] == b
  {
  }

  lemma ProgressStart(off: nat, n: nat)
    ensures Progress(off, n, 0, 0)
  {
  }

  lemma ProgressDone(off: nat, n: nat, k: nat)
    requires Progress(off, n, n, k)
    ensures k == BlocksOf(off, n)
  {
  }

  lemma BlockBelow(o: nat)
    requires o < MAXFILE * BSIZE
    ensures o / BSIZE < MAXFILE
  {
  }

  lemma MappedAlready(bmapstart: nat, table: seq<seq<nat>>, table': seq<seq<nat>>, i: nat, bn: nat, logged: set<nat>,
        logged': set<nat>)
    requires Mapped(bmapstart, table, table', i, bn, logged, logged') && table[i][SlotIx(bn)] != 0
    ensures table' == table && logged' == logged
  {
  }

  /** The block at which the copy for chunk t fails, if it does. */
  function FailAt(fails: seq<nat>, t: nat): nat {
    if t < |fails| then fails[t] else MAXFILE
  }

  /** The last of n chunks reaches past the largest file, or fails to be copied, or the disk is full. */
  ghost predicate CutShort(off: nat, src: seq<Byte>, fails: seq<nat>, n: nat, bitmap: seq<bool>) {
    && n > 0 && (n - 1) * CHUNK < |src|
    && var o := off + (n - 1) * CHUNK;
    var m := if |src| - (n - 1) * CHUNK > CHUNK then CHUNK else |src| - (n - 1) * CHUNK;
    o + m > MAXFILE * BSIZE || FailAt(fails, n - 1) < BlocksOf(o, m) || Full(bitmap)
  }

  ghost predicate Sliced(c: seq<Byte>, off: nat, tot: nat, out: seq<Byte>) {
    off + tot <= |c| && out == c[off..off + tot]
  }

  lemma SliceStart(c: seq<Byte>, off: nat)
    requires off <= |c|
    ensures Sliced(c, off, 0, [])
  {
  }

  lemma SliceMore(c: seq<Byte>, off: nat, tot: nat, m: nat, out: seq<Byte>, piece: seq<Byte>)
    requires Sliced(c, off, tot, out) && off + tot + m <= |c| && piece == c[off + tot..off + tot + m]
    ensures Sliced(c, off, tot + m, out + piece)
  {
  }

  /** c' is c with these bytes written to file i at this offset. */
  ghost predicate WroteTo(c: seq<seq<Byte>>, c': seq<seq<Byte>>, i: nat, off: nat, bytes: seq<Byte>) {
    i < |c| && off <= |c[i]| && c' == c[i := Overwrite(c[i], off, bytes)]
  }

  ghost predicate WrotePrefix(c: seq<seq<Byte>>, c': seq<seq<Byte>>, i: nat, off: nat, src: seq<Byte>, tot: nat) {
    tot <= |src| && WroteTo(c, c', i, off, src[..tot])
  }

  function Cut(src: seq<Byte>, tot: nat, m: nat): (r: seq<Byte>)
    requires tot + m <= |src|
    ensures |r| == m
  {
    src[tot..tot + m]
  }

  lemma WroteEnd(c0: seq<seq<Byte>>, c: seq<seq<Byte>>, i: nat, off: nat, src: seq<Byte>, tot: nat)
    requires WrotePrefix(c0, c, i, off, src, tot)
    ensures |c| == |c0| && i < |c| && off + tot <= |c[i]|
  {
  }

  lemma WroteMore(c0: seq<seq<Byte>>, c: seq<seq<Byte>>, c': seq<seq<Byte>>, i: nat, off: nat, src: seq<Byte>, tot: nat,
        m: nat)
    requires tot + m <= |src| && WrotePrefix(c0, c, i, off, src, tot) && WroteTo(c, c', i, off + tot, Cut(src, tot, m))
    ensures WrotePrefix(c0, c', i, off, src, tot + m)
  {
    OverwriteMore(c0[i], off, src[..tot], src[tot..tot + m]);
    assert src[..tot] + src[tot..tot + m] == src[..tot + m];
    hide Overwrite;
  }

  /** The slot of block bn is empty. */
  ghost predicate Unfilled(row: seq<nat>, bn: nat) {
    bn < MAXFILE && |row| == SLOTS && row[SlotIx(bn)] == 0
  }

  /** Exactly what writei has logged, with the inode's block. */
  ghost predicate LogIs(bmapstart: nat, table: seq<seq<nat>>, table': seq<seq<nat>>, i: nat, bn: nat, k: nat,
        more: bool, inode: nat, logged: set<nat>) {
    && i < |table| == |table'| && table' == table[i := table'[i]]
    && bn + k <= MAXFILE && (more ==> bn + k < MAXFILE) && Extended(table[i], table'[i], bn, if more then k + 1 else k)
    && AllFilled(table'[i], bn, k)
    && logged == LoggedBy(bmapstart, table[i], table'[i], bn, k, more) + {inode}
  }

  lemma LogIsThat(bmapstart: nat, table: seq<seq<nat>>, table': seq<seq<nat>>, i: nat, bn: nat, k: nat, more: bool,
        inode: nat, logged: set<nat>)
    requires i < |table| == |table'| && table' == table[i := table'[i]] && Exactly(bmapstart, table[i], table'[i], bn,
             k, more, logged)
    ensures LogIs(bmapstart, table, table', i, bn, k, more, inode, logged + {inode})
  {
  }

  lemma CoversInode(s: Snapshot, t: Snapshot, bmapstart: nat, i: nat, b: nat)
    requires i < |s.inodes| == |t.inodes| && t.inodes == s.inodes[i := t.inodes[i]] && t.data == s.data
             && t.bitmap == s.bitmap && t.logged == s.logged + {b}
    ensures Covers(s, t, bmapstart, i)
  {
  }

  lemma ExactlyStart(bmapstart: nat, row: seq<nat>, off: nat)
    requires |row| == SLOTS && off <= MAXFILE * BSIZE && forall s :: NDIRECT < s < SLOTS && row[s] != 0 ==>
               row[NDIRECT] != 0
    ensures Exactly(bmapstart, row, row, off / BSIZE, 0, false, {})
  {
  }

  lemma EntriesNeedIndirect(nmeta: nat, bitmap: seq<bool>, data: seq<Block>, inodes: seq<Inode>, table: seq<seq<nat>>,
        owner: map<nat, Loc>, content: seq<seq<Byte>>, i: nat)
    requires Whole(nmeta, bitmap, data, inodes, table, owner, content) && i < |table|
    ensures |table[i]| == SLOTS && forall s :: NDIRECT < s < SLOTS && table[i][s] != 0 ==> table[i][NDIRECT] != 0
  {
    assert |inodes| == |table| && Stored(data, inodes[i], table[i]);
    hide Entries;
    forall s | NDIRECT < s < SLOTS && table[i][s] != 0 ensures table[i][NDIRECT] != 0 {
      assert table[i][NDIRECT + 1..][s - NDIRECT - 1] == table[i][s];
    }
  }

  lemma ProgressBlocks(off: nat, n: nat, tot: nat, k: nat)
    requires Progress(off, n, tot, k)
    ensures k == BlocksOf(off, tot) && (if tot < n then k + 1 else k) <= BlocksOf(off, n)
  {
  }

  lemma SizesTrans(a: seq<Inode>, b: seq<Inode>, c: seq<Inode>)
    requires SameSizes(a, b) && SameSizes(b, c)
    ensures SameSizes(a, c)
  {
  }

  lemma MappedMeans(bmapstart: nat, table: seq<seq<nat>>, table': seq<seq<nat>>, i: nat, bn: nat, logged: set<nat>,
        logged': set<nat>)
    requires Mapped(bmapstart, table, table', i, bn, logged, logged')
    ensures |table'| == |table| && i < |table| && Grown(table[i], table'[i], bn) && |table'[i]| == SLOTS
    ensures logged' == logged + NewLog(bmapstart, table[i], table'[i], SlotIx(bn)) + NewLog(bmapstart, table[i],
            table'[i], NDIRECT)
    ensures table' == table[i := table'[i]]
  {
  }

  /** Below the end of a file every block is mapped, so an unaligned write starts in a mapped block. */
  lemma StartMapped(data: seq<Block>, slots: seq<nat>, content: seq<Byte>, off: nat)
    requires Shows(data, slots, content) && off <= |content| && off < MAXFILE * BSIZE
    ensures SlotIx(off / BSIZE) < |slots| && (off % BSIZE != 0 ==> slots[SlotIx(off / BSIZE)] != 0)
  {
    if off % BSIZE != 0 {
      assert ByteIs(data, slots, off - 1, content[off - 1]);
    }
  }

  lemma WriteStart(content: seq<seq<Byte>>, i: nat, off: nat, src: seq<Byte>, row: seq<nat>, inodes: seq<Inode>)
    requires i < |content| && off <= |content[i]| && |row| == SLOTS
    ensures WrotePrefix(content, content, i, off, src, 0) && Tally(off, row, row, {}, {}, 0, 0)
            && SameSizes(inodes, inodes)
  {
    assert Overwrite(content[i], off, []) == content[i];
  }

  /** The size of an inode plays no part in what is stored. */
  lemma Resized(nmeta: nat, bitmap: seq<bool>, data: seq<Block>, inodes: seq<Inode>, table: seq<seq<nat>>,
        owner: map<nat, Loc>, content: seq<seq<Byte>>, i: nat)
    requires Whole(nmeta, bitmap, data, inodes, table, owner, content) && i < |inodes|
    ensures forall size: nat :: Whole(nmeta, bitmap, data, inodes[i := inodes[i].(size := size)], table, owner, content)
  {
    forall size: nat ensures AllStored(data, inodes[i := inodes[i].(size := size)], table) {
      forall j | 0 <= j < |table| ensures Stored(data, inodes[i := inodes[i].(size := size)][j], table[j]) {
        assert Stored(data, inodes[j], table[j]);
      }
    }
  }

  lemma SizeAfter(a: seq<Inode>, b: seq<Inode>, c0: seq<seq<Byte>>, c: seq<seq<Byte>>, i: nat, off: nat, src: seq<Byte>,
        tot: nat)
    requires SameSizes(a, b) && WrotePrefix(c0, c, i, off, src, tot) && |a| == |c0| && forall j :: 0 <= j < |a| ==>
               a[j].size == |c0[j]|
    ensures |b| == |c| == |c0| && (forall j :: 0 <= j < |b| && j != i ==> b[j].size == |c[j]|)
    ensures |c[i]| == if off + tot > b[i].size then off + tot else b[i].size
  {
  }

  // ---------- Truncation ----------

  ghost predicate AllZero(slots: seq<nat>, k: nat) {
    k <= |slots| && forall x :: 0 <= x < k ==> slots[x] == 0
  }

  lemma AllZeroNone(slots: seq<nat>)
    ensures AllZero(slots, 0)
  {
  }

  lemma AllZeroIs(slots: seq<nat>)
    requires |slots| == SLOTS && forall x :: 0 <= x < SLOTS ==> slots[x] == 0
    ensures AllZero(slots, SLOTS)
  {
  }

  lemma ZeroMore(slots: seq<nat>, k: nat)
    requires AllZero(slots, k) && k < |slots| && slots[k] == 0
    ensures AllZero(slots, k + 1)
  {
  }

  lemma ClearStep(table: seq<seq<nat>>, i: nat, k: nat)
    requires i < |table| && k < |table[i]| && AllZero(table[i], k)
    ensures AllZero(Put(table, i, k, 0)[i], k + 1) && |Put(table, i, k, 0)[i]| == |table[i]|
  {
  }

  /** What is left of the ownership and the bitmap when some blocks of inode i have been freed. */
  ghost predicate Shrunk(i: nat, owner0: map<nat, Loc>, bitmap0: seq<bool>, owner: map<nat, Loc>, bitmap: seq<bool>) {
    && |bitmap| == |bitmap0| && (forall b :: b in owner ==> b in owner0 && owner[b] == owner0[b])
    && (forall b :: b in owner0 && b !in owner ==> owner0[b].ino == i)
    && (forall b :: 0 <= b < |bitmap| ==> (bitmap[b] <==> bitmap0[b] && !(b in owner0 && b !in owner)))
  }

  lemma ShrunkSelf(i: nat, owner: map<nat, Loc>, bitmap: seq<bool>)
    ensures Shrunk(i, owner, bitmap, owner, bitmap)
  {
  }

  lemma ShrinkStep(i: nat, owner0: map<nat, Loc>, bitmap0: seq<bool>, owner: map<nat, Loc>, bitmap: seq<bool>, b: nat)
    requires Shrunk(i, owner0, bitmap0, owner, bitmap) && b in owner && owner[b].ino == i && b < |bitmap|
    ensures Shrunk(i, owner0, bitmap0, owner - {b}, bitmap[b := false])
  {
  }

  /** The bitmap blocks of the blocks that have been freed. */
  ghost function FreedLog(bmapstart: nat, owner0: map<nat, Loc>, owner: map<nat, Loc>): set<nat> {
    set b | b in owner0 && b !in owner :: BBlock(bmapstart, b)
  }

  /** The bitmap blocks of the blocks of inode i. */
  ghost function BitmapBlocks(bmapstart: nat, owner: map<nat, Loc>, i: nat): set<nat> {
    set b | b in owner && owner[b].ino == i :: BBlock(bmapstart, b)
  }

  /** Nothing but addresses of inode i has changed. */
  ghost predicate Readdressed(i: nat, a: seq<Inode>, b: seq<Inode>) {
    i < |a| == |b| && b == a[i := b[i]] && b[i].size == a[i].size
  }

  lemma ReaddressedSelf(i: nat, a: seq<Inode>)
    requires i < |a|
    ensures Readdressed(i, a, a)
  {
  }

  /** Some blocks of inode i have been freed, and exactly their bitmap blocks logged. */
  ghost predicate Freed(i: nat, bmapstart: nat, s0: Snapshot, s: Snapshot) {
    && Shrunk(i, s0.owner, s0.bitmap, s.owner, s.bitmap) && s.data == s0.data && Readdressed(i, s0.inodes, s.inodes)
    && s.logged == s0.logged + FreedLog(bmapstart, s0.owner, s.owner)
  }

  lemma FreedSelf(i: nat, bmapstart: nat, s: Snapshot)
    requires i < |s.inodes|
    ensures Freed(i, bmapstart, s, s)
  {
    ShrunkSelf(i, s.owner, s.bitmap);
  }

  lemma FreedStill(i: nat, bmapstart: nat, s0: Snapshot, s: Snapshot, s': Snapshot)
    requires Freed(i, bmapstart, s0, s)
    requires s'.owner == s.owner && s'.bitmap == s.bitmap && s'.data == s.data && s'.inodes == s.inodes
             && s'.logged == s.logged
    ensures Freed(i, bmapstart, s0, s')
  {
  }

  lemma FreedStep(i: nat, bmapstart: nat, s0: Snapshot, s: Snapshot, s': Snapshot, b: nat)
    requires Freed(i, bmapstart, s0, s) && b in s.owner && s.owner[b].ino == i && b < |s.bitmap|
    requires s'.owner == s.owner - {b} && s'.bitmap == s.bitmap[b := false] && s'.data == s.data
             && s'.logged == s.logged + {BBlock(bmapstart, b)} && Readdressed(i, s.inodes, s'.inodes)
    ensures Freed(i, bmapstart, s0, s')
  {
    hide BBlock;
    ShrinkStep(i, s0.owner, s0.bitmap, s.owner, s.bitmap, b);
    FreedMore(bmapstart, s0.owner, s.owner, b);
  }

  lemma FreedMore(bmapstart: nat, owner0: map<nat, Loc>, owner: map<nat, Loc>, b: nat)
    requires b in owner0 && b in owner
    ensures FreedLog(bmapstart, owner0, owner - {b}) == FreedLog(bmapstart, owner0, owner) + {BBlock(bmapstart, b)}
  {
    hide BBlock;
  }

  lemma FreedMeans(i: nat, bmapstart: nat, s0: Snapshot, s: Snapshot)
    requires Freed(i, bmapstart, s0, s)
    ensures Shrunk(i, s0.owner, s0.bitmap, s.owner, s.bitmap) && Covers(s0, s, bmapstart, i)
    ensures s.logged == s0.logged + FreedLog(bmapstart, s0.owner, s.owner)
    ensures |s.inodes| == |s0.inodes| && forall j :: 0 <= j < |s.inodes| ==> s.inodes[j].size == s0.inodes[j].size
  {
    hide BBlock;
    forall b | 0 <= b < |s.bitmap| && s.bitmap[b] != s0.bitmap[b] ensures BBlock(bmapstart, b) in s.logged {
      assert BBlock(bmapstart, b) in FreedLog(bmapstart, s0.owner, s.owner);
    }
  }

  lemma FreedAll(bmapstart: nat, owner0: map<nat, Loc>, owner: map<nat, Loc>, i: nat)
    requires forall b :: b in owner <==> b in owner0 && owner0[b].ino != i
    ensures FreedLog(bmapstart, owner0, owner) == BitmapBlocks(bmapstart, owner0, i)
  {
    hide BBlock;
  }

  lemma OwnerOf(nmeta: nat, bitmap: seq<bool>, data: seq<Block>, inodes: seq<Inode>, table: seq<seq<nat>>,
        owner: map<nat, Loc>, content: seq<seq<Byte>>, i: nat, k: nat)
    requires Whole(nmeta, bitmap, data, inodes, table, owner, content) && i < |table| && k < |table[i]|
             && table[i][k] != 0
    ensures table[i][k] in owner && owner[table[i][k]].ino == i
  {
    assert SlotOwned(table, owner, i, k);
  }

  lemma AddrCleared(inodes: seq<Inode>, i: nat, k: nat)
    requires i < |inodes| && k < |inodes[i].addrs|
    ensures Readdressed(i, inodes, inodes[i := inodes[i].(addrs := inodes[i].addrs[k := 0])])
  {
  }

  lemma FreeingFacts(nmeta: nat, bitmap: seq<bool>, data: seq<Block>, inodes: seq<Inode>, table: seq<seq<nat>>,
        owner: map<nat, Loc>, content: seq<seq<Byte>>, i: nat, e: nat)
    requires Freeing(nmeta, bitmap, data, inodes, table, owner, content, i, e)
    ensures i < |inodes| == |table| && |inodes[i].addrs| == NDIRECT + 1 && |table[i]| == SLOTS
            && inodes[i].addrs[NDIRECT] == table[i][NDIRECT]
    ensures 0 < table[i][NDIRECT] < |data| == |bitmap| && table[i][NDIRECT] in owner && owner[table[i][NDIRECT]].ino ==
            i
    ensures e < NINDIRECT ==> var b := Entry(data[table[i][NDIRECT]], e);
            Entries(data[table[i][NDIRECT]])[e] == b && (b != 0 ==> b in owner && owner[b].ino == i)
  {
    hide Entry;
    assert SlotOwned(table, owner, i, NDIRECT);
    if e < NINDIRECT {
      assert SlotOwned(table, owner, i, NDIRECT + 1 + e);
    }
  }

  lemma StartTruncating(nmeta: nat, bitmap: seq<bool>, data: seq<Block>, inodes: seq<Inode>, table: seq<seq<nat>>,
        owner: map<nat, Loc>, content: seq<seq<Byte>>, i: nat)
    requires Whole(nmeta, bitmap, data, inodes, table, owner, content) && i < |table| && content[i] == []
             && |table[i]| == SLOTS
    requires AllZero(table[i], NDIRECT) && table[i][NDIRECT] != 0
    ensures Freeing(nmeta, bitmap, data, inodes, table, owner, content, i, 0)
  {
    StartFreeing(nmeta, bitmap, data, inodes, table, owner, content, i);
  }

  lemma NoIndirect(nmeta: nat, bitmap: seq<bool>, data: seq<Block>, inodes: seq<Inode>, table: seq<seq<nat>>,
        owner: map<nat, Loc>, content: seq<seq<Byte>>, i: nat)
    requires Whole(nmeta, bitmap, data, inodes, table, owner, content) && i < |table| && |table[i]| == SLOTS
    requires AllZero(table[i], NDIRECT) && table[i][NDIRECT] == 0
    ensures AllZero(table[i], SLOTS)
  {
    assert Stored(data, inodes[i], table[i]);
    forall x | NDIRECT < x < SLOTS ensures table[i][x] == 0 {
      assert table[i][NDIRECT + 1..][x - NDIRECT - 1] == table[i][x];
    }
  }

  lemma ShrunkAll(nmeta: nat, bitmap: seq<bool>, data: seq<Block>, inodes: seq<Inode>, table: seq<seq<nat>>,
        owner: map<nat, Loc>, content: seq<seq<Byte>>, i: nat, owner0: map<nat, Loc>, bitmap0: seq<bool>)
    requires Whole(nmeta, bitmap, data, inodes, table, owner, content) && i < |table| && |table[i]| == SLOTS
             && AllZero(table[i], SLOTS)
    requires Shrunk(i, owner0, bitmap0, owner, bitmap)
    ensures forall b :: b in owner <==> b in owner0 && owner0[b].ino != i
    ensures forall b :: b in owner ==> owner[b] == owner0[b]
    ensures |bitmap| == |bitmap0| && forall b :: 0 <= b < |bitmap| ==>
              (bitmap[b] <==> bitmap0[b] && !(b in owner0 && owner0[b].ino == i))
  {
    forall b | b in owner ensures owner[b].ino != i {
      assert OwnedBy(nmeta, bitmap, table, b, owner[b]);
    }
  }

  lemma WroteNothing(c: seq<seq<Byte>>, i: nat, off: nat, src: seq<Byte>)
    requires i < |c| && off <= |c[i]|
    ensures WrotePrefix(c, c, i, off, src, 0)
  {
    assert Overwrite(c[i], off, []) == c[i];
  }

  lemma ChunkWritten(c0: seq<seq<Byte>>, c: seq<seq<Byte>>, c': seq<seq<Byte>>, i: nat, off: nat, src: seq<Byte>,
        done: nat, n: nat, r: nat)
    requires i < |c0| == |c| && (if off <= |c0[i]| then WrotePrefix(c0, c, i, off, src, done) else c == c0 && done == 0)
    requires done + n <= |src| && WrotePrefix(c, c', i, off + done, src[done..done + n], r)
    ensures off <= |c0[i]| && WrotePrefix(c0, c', i, off, src, done + r)
  {
    if off > |c0[i]| {
      assert false;
    }
    assert src[done..done + n][..r] == Cut(src, done, r);
    WroteMore(c0, c, c', i, off, src, done, r);
  }
}
