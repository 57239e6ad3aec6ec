/** A chunk of filewrite (kernel/file.c) from the system call down to the disk: the blocks that writei changes go
    through the log, and a crash after any write of the commit, however often recovery crashes too, leaves a disk on
    which every file is as it was before the chunk, or every file as it is after it.  log_write notes a block's number
    and pins its buffer, and nothing is written before the commit; so the calls that writei makes are gathered behind
    it, each with the contents its block has at the end. */
module FileCrash {
  import opened BufferCache
  import opened FsBlocks
  import opened InodeLayer
  import opened LogCache
  import opened LogRecovery
  import opened Journal
  import opened DiskImage

  type Block = FsBlocks.Block

  // ---------- Which blocks are logged ----------

  /** A data block, or a bitmap block. */
  ghost predicate Place(l: Layout, size: nat, x: nat) {
    l.nmeta <= x < size || l.bmapstart <= x <= l.bmapstart + size / BPB
  }

  lemma BitmapPlace(l: Layout, size: nat, b: nat)
    requires b < size
    ensures Place(l, size, BBlock(l.bmapstart, b))
  {
  }

  lemma SlotPlace(l: Layout, s: Snapshot, i: nat, k: nat)
    requires Whole(l.nmeta, s.bitmap, s.data, s.inodes, s.table, s.owner, s.content) && i < |s.table|
             && k < |s.table[i]| && s.table[i][k] != 0
    ensures Place(l, |s.bitmap|, s.table[i][k]) && Place(l, |s.bitmap|, BBlock(l.bmapstart, s.table[i][k]))
  {
    hide AllStored, AllShow, Owned;
    SlotMarked(l.nmeta, s.bitmap, s.table, s.owner, i, k);
    BitmapPlace(l, |s.bitmap|, s.table[i][k]);
  }

  lemma NewPlaces(l: Layout, s: Snapshot, i: nat, row0: seq<nat>, k: nat, x: nat)
    requires Whole(l.nmeta, s.bitmap, s.data, s.inodes, s.table, s.owner, s.content) && i < |s.table|
             && |row0| == |s.table[i]| == SLOTS && k < SLOTS
    requires k > NDIRECT && s.table[i][k] != 0 ==> s.table[i][NDIRECT] != 0
    requires x in NewLog(l.bmapstart, row0, s.table[i], k)
    ensures Place(l, |s.bitmap|, x)
  {
    hide Whole, Place;
    SlotPlace(l, s, i, k);
    if k > NDIRECT {
      SlotPlace(l, s, i, NDIRECT);
    }
  }

  lemma {:induction false} WrittenPlaces(l: Layout, s: Snapshot, i: nat, row0: seq<nat>, bn: nat, k: nat, x: nat)
    requires Whole(l.nmeta, s.bitmap, s.data, s.inodes, s.table, s.owner, s.content) && i < |s.table|
             && |row0| == |s.table[i]| == SLOTS
    requires bn + k <= MAXFILE && AllFilled(s.table[i], bn, k)
    requires forall t :: NDIRECT < t < SLOTS && s.table[i][t] != 0 ==> s.table[i][NDIRECT] != 0
    requires x in WrittenLog(l.bmapstart, row0, s.table[i], bn, k)
    ensures Place(l, |s.bitmap|, x)
    decreases k
  {
    hide Whole, Place, NewLog;
    var j := SlotIx(bn + k - 1);
    if x in WrittenLog(l.bmapstart, row0, s.table[i], bn, k - 1) {
      WrittenPlaces(l, s, i, row0, bn, k - 1, x);
    } else if x in NewLog(l.bmapstart, row0, s.table[i], j) {
      NewPlaces(l, s, i, row0, j, x);
    } else {
      SlotPlace(l, s, i, j);
    }
  }

  /** Besides the inode's block writei logs data blocks and bitmap blocks. */
  lemma LoggedPlaces(l: Layout, table0: seq<seq<nat>>, s: Snapshot, i: nat, bn: nat, k: nat, more: bool, inode: nat,
        x: nat)
    requires Whole(l.nmeta, s.bitmap, s.data, s.inodes, s.table, s.owner, s.content)
    requires LogIs(l.bmapstart, table0, s.table, i, bn, k, more, inode, s.logged) && x in s.logged
    ensures x == inode || Place(l, |s.bitmap|, x)
  {
    hide Whole, Place, NewLog, WrittenLog;
    if x in WrittenLog(l.bmapstart, table0[i], s.table[i], bn, k) {
      WrittenPlaces(l, s, i, table0[i], bn, k, x);
    } else if more && x in NewLog(l.bmapstart, table0[i], s.table[i], SlotIx(bn + k)) {
      NewPlaces(l, s, i, table0[i], SlotIx(bn + k), x);
    } else if x in NewLog(l.bmapstart, table0[i], s.table[i], NDIRECT) {
      NewPlaces(l, s, i, table0[i], NDIRECT, x);
    }
  }

  // ---------- What goes into the blocks ----------

  /** iupdate: the inode over its place in the block. */
  function WithInode(block: Words, k: nat, ip: Inode): Words
    requires k < IPB && |ip.addrs| == NDIRECT + 1
  {
    seq(256, w requires 0 <= w < 256 =>
      if w == 16 * k + 2 then ip.size else if 16 * k + 3 <= w < 16 * k + 16 then ip.addrs[w - 16 * k - 3] else block[w])
  }

  /** The contents of block b after a write to file i; `was` is what it held. */
  function NewWords(l: Layout, bitmap: seq<bool>, data: seq<Block>, ip: Inode, i: nat, b: nat, was: Words): Words
    requires |ip.addrs| == NDIRECT + 1
  {
    if l.nmeta <= b < |data| then Entries(data[b])
    else if b >= l.bmapstart then Entries(BitBytes(bitmap, b - l.bmapstart))
    else WithInode(was, i % IPB, ip)
  }

  ghost predicate Renewed(d: Disk, d': Disk, l: Layout, s: Snapshot, i: nat, blocks: set<nat>) {
    && i < |s.inodes| && |s.inodes[i].addrs| == NDIRECT + 1 && |d'| == |d|
    && (forall b :: 0 <= b < |d| && b !in blocks ==> d'[b] == d[b])
    && (forall b :: 0 <= b < |d| && b in blocks ==> d'[b] == NewWords(l, s.bitmap, s.data, s.inodes[i], i, b, d[b]))
  }

  /** Writing the logged blocks turns the disk of one file system into the disk of the next. */
  lemma RenewedRepresents(d: Disk, d': Disk, l: Layout, s: Snapshot, t: Snapshot, i: nat)
    requires Represents(d, l, s) && LayoutOk(l, |d|, |s.inodes|) && Covers(s, t, l.bmapstart, i)
             && Renewed(d, d', l, t, i, t.logged)
    requires l.inodestart + i / IPB in t.logged
    requires forall x :: x in t.logged ==> x == l.inodestart + i / IPB || Place(l, |d|, x)
    ensures Represents(d', l, t)
  {
    RenewedData(d, d', l, s, t, i);
    RenewedBitmap(d, d', l, s, t, i);
    RenewedInodes(d, d', l, s, t, i);
  }

  lemma RenewedData(d: Disk, d': Disk, l: Layout, s: Snapshot, t: Snapshot, i: nat)
    requires DataOn(d, l, s.data) && Covers(s, t, l.bmapstart, i) && Renewed(d, d', l, t, i, t.logged)
    ensures DataOn(d', l, t.data)
  {
    hide Entries, BitBytes, WithInode;
  }

  lemma RenewedBitmap(d: Disk, d': Disk, l: Layout, s: Snapshot, t: Snapshot, i: nat)
    requires BitmapOn(d, l, s.bitmap) && LayoutOk(l, |d|, |s.inodes|) && Covers(s, t, l.bmapstart, i)
             && Renewed(d, d', l, t, i, t.logged)
    ensures BitmapOn(d', l, t.bitmap)
  {
    hide Entries, BitBytes, WithInode;
    forall k | 0 <= k <= |d| / BPB ensures d'[l.bmapstart + k] == Entries(BitBytes(t.bitmap, k)) {
      var b := l.bmapstart + k;
      if b !in t.logged {
        forall c | 0 <= c < |s.bitmap| && c / BPB == k ensures t.bitmap[c] == s.bitmap[c] {
          assert BBlock(l.bmapstart, c) == b;
        }
        BlockOther(s.bitmap, t.bitmap, k);
      }
    }
  }

  lemma RenewedInodes(d: Disk, d': Disk, l: Layout, s: Snapshot, t: Snapshot, i: nat)
    requires InodesOn(d, l, s.inodes) && LayoutOk(l, |d|, |s.inodes|) && Covers(s, t, l.bmapstart, i)
             && Renewed(d, d', l, t, i, t.logged)
    requires l.inodestart + i / IPB in t.logged
    requires forall x :: x in t.logged ==> x == l.inodestart + i / IPB || Place(l, |d|, x)
    ensures InodesOn(d', l, t.inodes)
  {
    hide Entries, BitBytes, InodeIn, WithInode;
    forall j | 0 <= j < |t.inodes| ensures InodeIn(d'[l.inodestart + j / IPB], j % IPB, t.inodes[j]) {
      var b := l.inodestart + j / IPB;
      IndexBelow(l.inodestart, j, |t.inodes|);
      IndexBelow(l.inodestart, i, |t.inodes|);
      assert InodeIn(d[b], j % IPB, s.inodes[j]);
      if j / IPB == i / IPB {
        assert d'[b] == WithInode(d[b], i % IPB, t.inodes[i]);
        assert j != i ==> j % IPB != i % IPB;
        InodeSet(d[b], i % IPB, t.inodes[i], j % IPB, t.inodes[j]);
      } else {
        assert b !in t.logged;
      }
    }
  }

  lemma InodeSet(block: Words, k: nat, ip: Inode, m: nat, other: Inode)
    requires k < IPB && m < IPB && |ip.addrs| == NDIRECT + 1
    requires m == k ==> other == ip
    requires m != k ==> InodeIn(block, m, other)
    ensures InodeIn(WithInode(block, k, ip), m, other)
  {
  }

  // ---------- Truncation ----------

  /** itrunc of a file of s has left t: it changed what it logged, the bitmap blocks of the file's blocks and the
      inode's block. */
  ghost predicate Truncated(l: Layout, s: Snapshot, t: Snapshot, i: nat) {
    && Whole(l.nmeta, s.bitmap, s.data, s.inodes, s.table, s.owner, s.content) && s.logged == {}
    && Covers(s, t, l.bmapstart, i) && t.logged == BitmapBlocks(l.bmapstart, s.owner, i) + {IBlock(l.inodestart, i)}
  }

  lemma TruncPlaces(l: Layout, s: Snapshot, t: Snapshot, i: nat, x: nat)
    requires Truncated(l, s, t, i) && x in t.logged
    ensures x == l.inodestart + i / IPB || Place(l, |s.bitmap|, x)
  {
    hide BBlock, Place, Covers;
    if x in BitmapBlocks(l.bmapstart, s.owner, i) {
      var b :| b in s.owner && s.owner[b].ino == i && x == BBlock(l.bmapstart, b);
      OwnedInside(l, s, b);
      BitmapPlace(l, |s.bitmap|, b);
    }
  }

  lemma OwnedInside(l: Layout, s: Snapshot, b: nat)
    requires Whole(l.nmeta, s.bitmap, s.data, s.inodes, s.table, s.owner, s.content) && b in s.owner
    ensures b < |s.bitmap|
  {
    assert OwnedBy(l.nmeta, s.bitmap, s.table, b, s.owner[b]);
  }

  /** Writing the blocks that itrunc logs turns the disk of the file system before it into the disk of the one after. */
  lemma TruncRepresents(d: Disk, d': Disk, l: Layout, s: Snapshot, t: Snapshot, i: nat)
    requires Represents(d, l, s) && LayoutOk(l, |d|, |s.inodes|) && Truncated(l, s, t, i)
             && Renewed(d, d', l, t, i, t.logged)
    ensures Represents(d', l, t)
  {
    hide Represents, LayoutOk, Covers, Renewed, Place, Whole, BitmapBlocks;
    RepresentsSizes(d, l, s);
    forall x | x in t.logged ensures x == l.inodestart + i / IPB || Place(l, |d|, x) {
      TruncPlaces(l, s, t, i, x);
    }
    RenewedRepresents(d, d', l, s, t, i);
  }

  /** One block of the log for each bitmap block, and one for the inode. */
  lemma TruncLogSize(l: Layout, s: Snapshot, t: Snapshot, i: nat)
    requires Truncated(l, s, t, i)
    ensures |t.logged| <= |s.bitmap| / BPB + 2
  {
    hide Covers, Whole, BBlock;
    var n := |s.bitmap| / BPB + 1;
    var maps := Numbers(l.bmapstart, n);
    forall x | x in BitmapBlocks(l.bmapstart, s.owner, i) ensures x in maps {
      var b :| b in s.owner && s.owner[b].ino == i && x == BBlock(l.bmapstart, b);
      OwnedInside(l, s, b);
      InBitmap(l, |s.bitmap|, b);
      NumbersHave(l.bmapstart, n, x);
    }
    SubsetSize(BitmapBlocks(l.bmapstart, s.owner, i), maps);
  }

  lemma InBitmap(l: Layout, size: nat, b: nat)
    requires b < size
    ensures l.bmapstart <= BBlock(l.bmapstart, b) < l.bmapstart + (size / BPB + 1)
  {
  }

  ghost function Numbers(from: nat, n: nat): (r: set<nat>)
    ensures |r| <= n
  {
    if n == 0 then {} else Numbers(from, n - 1) + {from + n - 1}
  }

  lemma {:induction false} NumbersHave(from: nat, n: nat, x: nat)
    requires from <= x < from + n
    ensures x in Numbers(from, n)
  {
    if x != from + n - 1 {
      NumbersHave(from, n - 1, x);
    }
  }

  // ---------- A transaction ----------

  /** No operation is under way and the disk holds the file system. */
  ghost predicate Ready(fs: FileSystem, log: Log, l: Layout)
    reads fs, log, log.bc
  {
    && fs.Valid() && log.Valid() && log.lh == [] && log.held == multiset{} && log.outstanding == 0 && !log.committing
        && log.Reserve()
    && l == Layout(log.start, fs.inodestart, fs.bmapstart, fs.nmeta) && LayoutOk(l, |log.bc.disk|, |fs.inodes|)
    && Represents(log.bc.disk, l, fs.Now())
  }

  /** An operation has logged the blocks in `done` since the logical contents were v0; the disk is still d0. */
  ghost predicate Logging(log: Log, l: Layout, s: Snapshot, i: nat, done: set<nat>, v0: Disk, room0: nat, d0: Disk,
        w0: seq<Disk>)
    reads log, log.bc
  {
    && log.Valid() && log.held == multiset{} && log.outstanding > 0 && !log.committing && log.Reserve()
    && log.start == l.start && log.room + |done| >= room0 && room0 >= MAXOPBLOCKS
    && log.bc.disk == d0 && log.bc.writes == w0 && |v0| == |d0| && Renewed(v0, log.view, l, s, i, done)
  }

  /** The block is read, given its new contents, logged and released. */
  method LogOne(fs: FileSystem, log: Log, l: Layout, i: nat, b: nat, ghost done: set<nat>, ghost v0: Disk,
        ghost room0: nat, ghost d0: Disk, ghost w0: seq<Disk>)
    requires Logging(log, l, fs.Now(), i, done, v0, room0, d0, w0) && b !in done && b < |d0| && !InLog(l.start, b)
    requires |done| < MAXOPBLOCKS
    modifies log, log.bc
    ensures Logging(log, l, fs.Now(), i, done + {b}, v0, room0, d0, w0) && log.outstanding == old(log.outstanding)
    ensures |log.lh| + log.room == |old(log.lh)| + old(log.room)
  {
    hide NewWords, Renewed, Ring, Everybody, Unique, Coherent, HomeList, DiskOk, HeadOf, Steady, NoFree, Keeps;
    RenewedAt(v0, log.view, l, fs.Now(), i, done, b);
    RoomFree(log);
    var buf := log.Read(b);
    var words := NewWords(l, fs.bitmap, fs.data, fs.inodes[i], i, b, log.bc.bufs[buf.value].data);
    RenewedOne(v0, log.view, l, fs.Now(), i, done, b);
    var ok := log.LogWrite(buf.value, words);
    log.Release(buf.value);
  }

  /** With room in the log and no buffer in use there is a free buffer. */
  lemma RoomFree(log: Log)
    requires log.Valid() && log.held == multiset{} && log.Reserve() && log.room > 0
    ensures !NoFree(log.bc.bufs)
  {
    hide Coherent, NoFree;
    BusyExactly(log.bc.bufs, log.bc.disk, log.view, log.lh, log.held);
    CountAtMost(log.bc.bufs, log.lh, log.held);
  }

  lemma RenewedAt(d: Disk, view: Disk, l: Layout, s: Snapshot, i: nat, done: set<nat>, b: nat)
    requires Renewed(d, view, l, s, i, done) && b < |d| && b !in done
    ensures |view| == |d| && view[b] == d[b] && i < |s.inodes| && |s.inodes[i].addrs| == NDIRECT + 1
  {
  }

  lemma RenewedOne(d: Disk, view: Disk, l: Layout, s: Snapshot, i: nat, done: set<nat>, b: nat)
    requires Renewed(d, view, l, s, i, done) && b < |d| == |view| && b !in done && i < |s.inodes|
             && |s.inodes[i].addrs| == NDIRECT + 1
    ensures Renewed(d, view[b := NewWords(l, s.bitmap, s.data, s.inodes[i], i, b, view[b])], l, s, i, done + {b})
  {
    hide NewWords;
  }

  method LogAll(fs: FileSystem, log: Log, l: Layout, i: nat, ghost v0: Disk, ghost room0: nat, ghost d0: Disk,
        ghost w0: seq<Disk>)
    requires Logging(log, l, fs.Now(), i, {}, v0, room0, d0, w0) && |fs.logged| <= MAXOPBLOCKS
    requires forall b :: b in fs.logged ==> b < |d0| && !InLog(l.start, b)
    modifies log, log.bc
    ensures Logging(log, l, fs.Now(), i, fs.logged, v0, room0, d0, w0) && log.outstanding == old(log.outstanding)
    ensures |log.lh| + log.room == |old(log.lh)| + old(log.room)
  {
    hide Logging, InLog;
    var rest := fs.logged;
    assert fs.logged - rest == {};
    while rest != {}
      invariant rest <= fs.logged && Logging(log, l, fs.Now(), i, fs.logged - rest, v0, room0, d0, w0)
      invariant log.outstanding == old(log.outstanding) && |log.lh| + log.room == |old(log.lh)| + old(log.room)
      decreases |rest|
    {
      var b :| b in rest;
      Fewer(fs.logged, rest, b);
      LogOne(fs, log, l, i, b, fs.logged - rest, v0, room0, d0, w0);
      rest := rest - {b};
    }
    assert fs.logged - rest == fs.logged;
  }

  lemma Fewer(all: set<nat>, rest: set<nat>, b: nat)
    requires rest <= all && b in rest
    ensures |all - rest| < |all| && all - (rest - {b}) == all - rest + {b}
  {
    assert all == (all - rest) + rest;
  }

  // ---------- All or nothing ----------

  /** A machine that starts with this disk recovers to this file system. */
  ghost predicate Survives(l: Layout, d: Disk, s: Snapshot) {
    DiskOk(l.start, d) && Represents(Recovered(l.start, d), l, s)
  }

  /** Every disk between the writes w0 and w recovers to s before write number c, and to t from it on. */
  ghost predicate AllOrNothing(l: Layout, s: Snapshot, t: Snapshot, w0: seq<Disk>, c: nat, w: seq<Disk>) {
    && |w0| <= |w| && w[..|w0|] == w0
    && forall j :: |w0| <= j < |w| ==> Survives(l, w[j], if j < c then s else t)
  }

  /** What writei has left behind: it changed what it logged, and logged what it may. */
  ghost predicate Written(l: Layout, s: Snapshot, t: Snapshot, i: nat, size: nat) {
    && Covers(s, t, l.bmapstart, i) && l.inodestart + i / IPB in t.logged && |t.logged| <= MAXOPBLOCKS
    && forall x :: x in t.logged ==> x == l.inodestart + i / IPB || Place(l, size, x)
  }

  lemma WrittenPlacesOk(l: Layout, s: Snapshot, t: Snapshot, i: nat, size: nat)
    requires Written(l, s, t, i, size) && LayoutOk(l, size, |t.inodes|) && i < |t.inodes|
    ensures forall b :: b in t.logged ==> b < size && !InLog(l.start, b)
  {
    IndexBelow(l.inodestart, i, |t.inodes|);
  }

  lemma IsWritten(l: Layout, s: Snapshot, t: Snapshot, i: nat, bn: nat, k: nat, more: bool)
    requires Whole(l.nmeta, t.bitmap, t.data, t.inodes, t.table, t.owner, t.content) && Covers(s, t, l.bmapstart, i)
             && |t.logged| <= MAXOPBLOCKS
    requires LogIs(l.bmapstart, s.table, t.table, i, bn, k, more, IBlock(l.inodestart, i), t.logged)
    ensures Written(l, s, t, i, |t.bitmap|)
  {
    hide Whole, LoggedBy, Place;
    forall x | x in t.logged ensures x == l.inodestart + i / IPB || Place(l, |t.bitmap|, x) {
      LoggedPlaces(l, s.table, t, i, bn, k, more, IBlock(l.inodestart, i), x);
    }
  }

  lemma NothingRenewed(d: Disk, view: Disk, l: Layout, s: Snapshot, i: nat)
    requires Renewed(d, view, l, s, i, {})
    ensures view == d
  {
  }

  lemma RenewedNone(d: Disk, view: Disk, l: Layout, s: Snapshot, i: nat)
    requires i < |s.inodes| && |s.inodes[i].addrs| == NDIRECT + 1 && view == d
    ensures Renewed(d, view, l, s, i, {})
  {
  }

  lemma CleanView(log: Log)
    requires log.Valid() && log.lh == []
    ensures log.view == log.bc.disk
  {
    CleanHome(log.bc.bufs, log.bc.disk, log.view, log.dirty, log.held);
  }

  lemma AtomicMeans(l: Layout, s: Snapshot, t: Snapshot, d0: Disk, d1: Disk, w0: seq<Disk>, c: nat, w: seq<Disk>)
    requires Atomic(l.start, d0, d1, w0, c, w) && Represents(d0, l, s) && Represents(d1, l, t)
    requires LayoutOk(l, |d0|, |s.inodes|) && LayoutOk(l, |d1|, |t.inodes|)
    ensures AllOrNothing(l, s, t, w0, c, w)
  {
    hide Represents, LayoutOk, DiskOk, SameHome, Recovered;
    forall j | |w0| <= j < |w| ensures Survives(l, w[j], if j < c then s else t) {
      assert RecoversTo(l.start, w[j], if j < c then d0 else d1);
      SameHomeBack(l.start, Recovered(l.start, w[j]), if j < c then d0 else d1);
      SameOutsideLog(if j < c then d0 else d1, Recovered(l.start, w[j]), l, if j < c then s else t);
    }
  }

  lemma SameHomeBack(start: nat, d: Disk, d': Disk)
    requires SameHome(start, d, d')
    ensures SameHome(start, d', d) && |d| == |d'|
  {
  }

  // ---------- A group of operations ----------

  /** A transaction under way: any number of operations have begun, and `waiting` of them have not written yet.  The
      disk
      still holds the file system s0, and the logical contents of the blocks hold the file system as it is now. */
  ghost predicate Group(fs: FileSystem, log: Log, l: Layout, s0: Snapshot, w0: seq<Disk>, waiting: nat)
    reads fs, log, log.bc
  {
    && fs.Valid() && log.Valid() && log.held == multiset{} && !log.committing && log.Reserve()
    && l == Layout(log.start, fs.inodestart, fs.bmapstart, fs.nmeta) && |s0.inodes| == |fs.inodes|
    && LayoutOk(l, |log.bc.disk|, |fs.inodes|) && |log.view| == |log.bc.disk|
    && Represents(log.bc.disk, l, s0) && Represents(log.view, l, fs.Now()) && log.bc.writes == w0
    && waiting <= log.outstanding && log.room >= waiting * MAXOPBLOCKS
  }

  lemma ReadyGroup(fs: FileSystem, log: Log, l: Layout)
    requires Ready(fs, log, l)
    ensures Group(fs, log, l, fs.Now(), log.bc.writes, 0) && fs.Valid() && log.lh == [] && log.outstanding == 0
            && log.Reserve()
  {
    hide Represents, LayoutOk;
    CleanView(log);
  }

  /** begin_op, one try. */
  method OpBegin(fs: FileSystem, log: Log, l: Layout, ghost s0: Snapshot, ghost w0: seq<Disk>, ghost waiting: nat)
        returns (admitted: bool)
    requires Group(fs, log, l, s0, w0, waiting)
    modifies log`outstanding, log`room
    ensures Group(fs, log, l, s0, w0, if admitted then waiting + 1 else waiting)
    ensures log.outstanding == old(log.outstanding) + if admitted then 1 else 0
    ensures log.room == old(log.room) + if admitted then MAXOPBLOCKS else 0
    ensures admitted <==> |log.lh| + (old(log.outstanding) + 1) * MAXOPBLOCKS <= LOGBLOCKS
  {
    hide Represents, LayoutOk, Ring, Everybody, Unique, Coherent, HomeList, DiskOk, HeadOf;
    admitted := log.BeginOp();
  }

  /** The write of one of the operations, at any time between the steps of the others. */
  method OpWrite(fs: FileSystem, log: Log, l: Layout, i: nat, off: nat, src: seq<Byte>, failAt: nat,
        ghost s0: Snapshot, ghost w0: seq<Disk>, ghost waiting: nat)
        returns (r: int)
    requires Group(fs, log, l, s0, w0, waiting) && waiting > 0 && i < |fs.inodes| && off < TWO32 && |src| <= CHUNK
    modifies fs, log, log.bc
    ensures Group(fs, log, l, s0, w0, waiting - 1) && log.outstanding == old(log.outstanding)
    ensures |log.lh| + log.room == |old(log.lh)| + old(log.room)
    ensures |fs.inodes| == |old(fs.inodes)| == |fs.content| == |old(fs.content)|
    ensures r == -1 <==> off > |old(fs.content)[i]| || off + |src| > MAXFILE * BSIZE
    ensures r == -1 ==> fs.content == old(fs.content)
    ensures r != -1 ==> 0 <= r <= |src| && WrotePrefix(old(fs.content), fs.content, i, off, src, r)
    ensures 0 <= r < |src| ==> failAt < BlocksOf(off, |src|) || Full(fs.bitmap)
  {
    hide Represents, LayoutOk, Covers, LogIs, WrotePrefix, Full, Unfilled, Whole, BlocksOf, Written, Renewed,
         Ring, Everybody, Unique, Coherent, HomeList, DiskOk, HeadOf;
    ghost var v0, room0, d0, s := log.view, log.room, log.bc.disk, fs.Now();
    RepresentsSizes(v0, l, s);
    fs.logged := {};
    ghost var s1 := fs.Now();
    SameRepresented(v0, l, s, s1);
    r := fs.Writei(i, off, src, failAt);
    CoversSizes(s1, fs.Now(), l.bmapstart, i);
    RowFacts(fs.nmeta, fs.bitmap, fs.data, fs.inodes, fs.table, fs.owner, fs.content, i);
    if r != -1 {
      IsWritten(l, s1, fs.Now(), i, off / BSIZE, BlocksOf(off, r), r < |src|);
    }
    RenewedNone(v0, log.view, l, fs.Now(), i);
    LoggedFits(l, s1, fs.Now(), i, |d0|);
    LogAll(fs, log, l, i, v0, room0, d0, w0);
    NowRepresents(v0, log.view, l, s1, fs.Now(), i);
  }

  /** itrunc in one of the operations.  Its log_writes are what the operation reserved, unless the file's blocks are
      spread over too many bitmap blocks; up to nine bitmap blocks on the disk none can be. */
  method OpTrunc(fs: FileSystem, log: Log, l: Layout, i: nat, ghost s0: Snapshot, ghost w0: seq<Disk>,
        ghost waiting: nat)
        returns (fits: bool)
    requires Group(fs, log, l, s0, w0, waiting) && waiting > 0 && i < |fs.inodes|
    modifies fs, log, log.bc
    ensures fs.Valid() && i < |old(fs.content)| && fs.content == old(fs.content)[i := []]
    ensures fits <==> |BitmapBlocks(l.bmapstart, old(fs.owner), i) + {IBlock(l.inodestart, i)}| <= MAXOPBLOCKS
    ensures |old(log.bc.disk)| < (MAXOPBLOCKS - 1) * BPB ==> fits
    ensures fits ==> Group(fs, log, l, s0, w0, waiting - 1) && log.outstanding == old(log.outstanding)
                     && |log.lh| + log.room == |old(log.lh)| + old(log.room)
  {
    hide Represents, LayoutOk, Covers, Whole, Written, Renewed, Truncated, BitmapBlocks, IBlock,
         Ring, Everybody, Unique, Coherent, HomeList, DiskOk, HeadOf;
    ghost var v0, room0, d0, s := log.view, log.room, log.bc.disk, fs.Now();
    RepresentsSizes(v0, l, s);
    fs.logged := {};
    ghost var s1 := fs.Now();
    SameRepresented(v0, l, s, s1);
    var ok := fs.Itrunc(i);
    CoversSizes(s1, fs.Now(), l.bmapstart, i);
    RowFacts(fs.nmeta, fs.bitmap, fs.data, fs.inodes, fs.table, fs.owner, fs.content, i);
    IsTruncated(l, s1, fs.Now(), i);
    fits := |fs.logged| <= MAXOPBLOCKS;
    if fits {
      RenewedNone(v0, log.view, l, fs.Now(), i);
      LoggedFits(l, s1, fs.Now(), i, |d0|);
      LogAll(fs, log, l, i, v0, room0, d0, w0);
      NowRepresents(v0, log.view, l, s1, fs.Now(), i);
    }
  }

  lemma IsTruncated(l: Layout, s: Snapshot, t: Snapshot, i: nat)
    requires Whole(l.nmeta, s.bitmap, s.data, s.inodes, s.table, s.owner, s.content) && s.logged == {}
    requires Covers(s, t, l.bmapstart, i)
    requires t.logged == s.logged + BitmapBlocks(l.bmapstart, s.owner, i) + {IBlock(l.inodestart, i)}
    ensures |t.logged| <= |s.bitmap| / BPB + 2 && (|t.logged| <= MAXOPBLOCKS ==> Written(l, s, t, i, |s.bitmap|))
    ensures t.logged == BitmapBlocks(l.bmapstart, s.owner, i) + {IBlock(l.inodestart, i)}
  {
    hide Whole, Covers, BitmapBlocks, Place;
    assert Truncated(l, s, t, i);
    TruncLogSize(l, s, t, i);
    forall x | x in t.logged ensures x == l.inodestart + i / IPB || Place(l, |s.bitmap|, x) {
      TruncPlaces(l, s, t, i, x);
    }
  }

  /** Truncating a file, from begin_op to end_op, with no other operation under way: whatever disk a crash leaves, it
      recovers to the file system with the whole file or to the one with the file empty. */
  method TruncateFile(fs: FileSystem, log: Log, l: Layout, i: nat) returns (ghost c: nat)
    requires Ready(fs, log, l) && i < |fs.inodes| && |log.bc.disk| < (MAXOPBLOCKS - 1) * BPB
    modifies fs, log, log.bc
    ensures Ready(fs, log, l) && i < |old(fs.content)| && fs.content == old(fs.content)[i := []]
    ensures AllOrNothing(l, old(fs.Now()), fs.Now(), old(log.bc.writes), c, log.bc.writes)
  {
    hide Ready, AllOrNothing, Group, BitmapBlocks, Whole, Ring, Everybody, Unique, Coherent, HomeList, DiskOk,
         HeadOf;
    ghost var s0, w0 := fs.Now(), log.bc.writes;
    ReadyGroup(fs, log, l);
    var ok := OpBegin(fs, log, l, s0, w0, 0);
    assert ok;
    var fits := OpTrunc(fs, log, l, i, s0, w0, 1);
    ok, c := OpEnd(fs, log, l, s0, w0, 0);
  }

  /** end_op of an operation that has written.  The last one commits: whatever disk a crash leaves then, it recovers to
      the file system before the first of the operations, or to the one after the last of them.  The commit fails if
      and only if the list takes all the buffers. */
  method OpEnd(fs: FileSystem, log: Log, l: Layout, ghost s0: Snapshot, ghost w0: seq<Disk>, ghost waiting: nat)
        returns (ok: bool, ghost c: nat)
    requires Group(fs, log, l, s0, w0, waiting) && waiting < log.outstanding
    modifies log, log.bc
    ensures log.outstanding == old(log.outstanding) - 1
    ensures log.outstanding > 0 ==> ok && Group(fs, log, l, s0, w0, waiting)
    ensures log.outstanding == 0 ==> AllOrNothing(l, s0, fs.Now(), w0, c, log.bc.writes) && (ok ==> Ready(fs, log, l))
    ensures log.outstanding == 0 ==> (ok <==> |old(log.lh)| < NBUF)
  {
    hide Represents, LayoutOk, Atomic, SameHome, AllOrNothing, Ring, Everybody, Unique, Coherent, HomeList, DiskOk,
         HeadOf, BusyCount, NoLogHeld;
    ghost var d0, d1, outstanding0 := log.bc.disk, log.view, log.outstanding;
    NobodyHolds(log);
    c := |w0| + |log.lh|;
    ok := log.EndOp();
    if log.outstanding == 0 {
      AtomicMeans(l, s0, fs.Now(), d0, d1, w0, c, log.bc.writes);
      if ok {
        SameHomeBack(l.start, log.bc.disk, d1);
        SameOutsideLog(d1, log.bc.disk, l, fs.Now());
      }
    }
  }

  lemma NobodyHolds(log: Log)
    requires log.held == multiset{}
    ensures NoLogHeld(log.start, log.bc.bufs, log.held) && BusyCount(log.bc.bufs, log.lh, log.held) == |log.lh|
  {
    assert Others(log.bc.bufs, log.lh, log.held) == {};
  }

  /** A chunk of filewrite: the operation, from begin_op to end_op, with no other under way.  It writes as Writei does;
      whatever disk a crash leaves, it recovers to the file system before the chunk or to the file system after it. */
  method WriteChunk(fs: FileSystem, log: Log, l: Layout, i: nat, off: nat, src: seq<Byte>, failAt: nat)
        returns (r: int, ghost c: nat)
    requires Ready(fs, log, l) && i < |fs.inodes| && off < TWO32 && |src| <= CHUNK
    modifies fs, log, log.bc
    ensures Ready(fs, log, l) && |fs.inodes| == |old(fs.inodes)| == |fs.content| == |old(fs.content)|
    ensures r == -1 <==> off > |old(fs.content)[i]| || off + |src| > MAXFILE * BSIZE
    ensures r == -1 ==> fs.content == old(fs.content)
    ensures r != -1 ==> 0 <= r <= |src| && WrotePrefix(old(fs.content), fs.content, i, off, src, r)
    ensures 0 <= r < |src| ==> failAt < BlocksOf(off, |src|) || Full(fs.bitmap)
    ensures AllOrNothing(l, old(fs.Now()), fs.Now(), old(log.bc.writes), c, log.bc.writes)
  {
    hide Ready, WrotePrefix, Full, BlocksOf, AllOrNothing, Group, Whole, Ring, Everybody, Unique, Coherent, HomeList,
         DiskOk, HeadOf;
    ghost var s0, w0 := fs.Now(), log.bc.writes;
    ReadyGroup(fs, log, l);
    var ok := OpBegin(fs, log, l, s0, w0, 0);
    assert ok;
    r := OpWrite(fs, log, l, i, off, src, failAt, s0, w0, 1);
    ok, c := OpEnd(fs, log, l, s0, w0, 0);
  }

  lemma RepresentsSizes(d: Disk, l: Layout, s: Snapshot)
    requires Represents(d, l, s)
    ensures |d| == |s.data| == |s.bitmap|
  {
  }

  /** What is logged plays no part in what the disk holds. */
  lemma SameRepresented(d: Disk, l: Layout, s: Snapshot, t: Snapshot)
    requires Represents(d, l, s) && t == s.(logged := t.logged)
    ensures Represents(d, l, t)
  {
  }

  lemma LoggedFits(l: Layout, s: Snapshot, t: Snapshot, i: nat, size: nat)
    requires (Written(l, s, t, i, size) && LayoutOk(l, size, |t.inodes|) && i < |t.inodes|) || t.logged == {}
    ensures |t.logged| <= MAXOPBLOCKS && forall b :: b in t.logged ==> b < size && !InLog(l.start, b)
  {
    hide Place, Covers;
    if t.logged != {} {
      WrittenPlacesOk(l, s, t, i, size);
    }
  }

  lemma NowRepresents(d: Disk, d': Disk, l: Layout, s: Snapshot, t: Snapshot, i: nat)
    requires Renewed(d, d', l, t, i, t.logged) && Represents(d, l, s) && LayoutOk(l, |d|, |s.inodes|)
    requires Written(l, s, t, i, |d|) || (t == s && s.logged == {})
    ensures Represents(d', l, t) && |d'| == |d|
  {
    hide Place, Covers, Represents, LayoutOk, NewWords;
    if Written(l, s, t, i, |d|) {
      RenewedRepresents(d, d', l, s, t, i);
    } else {
      NothingRenewed(d, d', l, t, i);
    }
  }

  /** The whole story for a reader: a crash after any write of the chunk, then any number of crashed recoveries, and
      every file has the bytes it had before the chunk, or every file the bytes it has after it. */
  lemma ChunkSurvivesCrashes(l: Layout, s: Snapshot, t: Snapshot, w0: seq<Disk>, c: nat, w: seq<Disk>, j: nat,
        ds: seq<Disk>, k: nat, i: nat)
    requires AllOrNothing(l, s, t, w0, c, w) && |w0| <= j < |w| && CrashChain(l.start, ds) && ds[0] == w[j] && k < |ds|
    requires forall x: Snapshot :: x == s || x == t ==>
               Whole(l.nmeta, x.bitmap, x.data, x.inodes, x.table, x.owner, x.content)
                   && LayoutOk(l, |x.data|, |x.inodes|)
               && i < |x.inodes| == |x.content| && x.inodes[i].size == |x.content[i]|
    ensures DiskOk(l.start, ds[k])
    ensures DiskFile(Recovered(l.start, ds[k]), l, i) == if j < c then s.content[i] else t.content[i]
  {
    hide Represents, LayoutOk, Whole, DiskOk, Recovered, CrashChain, DiskFile;
    var x := if j < c then s else t;
    assert Survives(l, w[j], x);
    RepeatedCrashes(l.start, ds, k);
    var d, d' := Recovered(l.start, ds[0]), Recovered(l.start, ds[k]);
    SameHomeBack(l.start, d', d);
    RepresentsSizes(d, l, x);
    SameOutsideLog(d, d', l, x);
    FilesOnDisk(d', l, x, i);
  }

  // ---------- All of filewrite ----------

  /** The disk recovers to one of these. */
  ghost predicate SurvivesAs(l: Layout, d: Disk, states: seq<Snapshot>) {
    exists t :: 0 <= t < |states| && Survives(l, d, states[t])
  }

  ghost predicate SurvivesAll(l: Layout, w0: seq<Disk>, w: seq<Disk>, states: seq<Snapshot>) {
    |w0| <= |w| && w[..|w0|] == w0 && forall j :: |w0| <= j < |w| ==> SurvivesAs(l, w[j], states)
  }

  /** State t has t chunks of the bytes, and the last state `done` bytes. */
  ghost predicate Stages(c0: seq<seq<Byte>>, states: seq<Snapshot>, i: nat, off: nat, src: seq<Byte>, done: nat) {
    && |states| > 0 && WrotePrefix(c0, states[|states| - 1].content, i, off, src, done)
    && forall t :: 0 <= t < |states| - 1 ==> WrotePrefix(c0, states[t].content, i, off, src, t * CHUNK)
  }

  lemma SurvivesMore(l: Layout, w0: seq<Disk>, w1: seq<Disk>, w2: seq<Disk>, states: seq<Snapshot>, t: Snapshot, c: nat)
    requires |states| > 0 && SurvivesAll(l, w0, w1, states) && AllOrNothing(l, states[|states| - 1], t, w1, c, w2)
    ensures SurvivesAll(l, w0, w2, states + [t])
  {
    hide Survives;
    var more := states + [t];
    assert w2[..|w0|] == w2[..|w1|][..|w0|];
    forall j | |w0| <= j < |w2| ensures SurvivesAs(l, w2[j], more) {
      if j < |w1| {
        assert w2[j] == w1[j] && SurvivesAs(l, w1[j], states);
        var k :| 0 <= k < |states| && Survives(l, w1[j], states[k]);
        assert Survives(l, w2[j], more[k]);
      } else {
        assert Survives(l, w2[j], if j < c then states[|states| - 1] else t);
        assert Survives(l, w2[j], more[if j < c then |states| - 1 else |states|]);
      }
    }
  }

  lemma StagesMore(c0: seq<seq<Byte>>, states: seq<Snapshot>, i: nat, off: nat, src: seq<Byte>, t: Snapshot, done: nat)
    requires |states| > 0 && Stages(c0, states, i, off, src, (|states| - 1) * CHUNK)
             && WrotePrefix(c0, t.content, i, off, src, done)
    ensures Stages(c0, states + [t], i, off, src, done)
  {
    hide WrotePrefix;
  }

  /** filewrite on an inode, chunk by chunk: whatever disk a crash leaves, it recovers to a file system in which some
      number of the chunks have been written, whole, and the others not at all. */
  method WriteFile(fs: FileSystem, log: Log, l: Layout, i: nat, off: nat, src: seq<Byte>, fails: seq<nat>)
    returns (ret: int, off': nat, ghost states: seq<Snapshot>)
    requires Ready(fs, log, l) && i < |fs.inodes| == |fs.content| && off <= MAXFILE * BSIZE && |src| < 0x8000_0000
    modifies fs, log, log.bc
    ensures Ready(fs, log, l) && off <= off' <= off + |src| && ret == if off' == off + |src| then |src| else -1
    ensures |states| > 0 && states[0] == old(fs.Now()) && states[|states| - 1] == fs.Now()
    ensures if off <= |old(fs.content)[i]| then Stages(old(fs.content), states, i, off, src, off' - off)
            else fs.content == old(fs.content) && off' == off
    ensures SurvivesAll(l, old(log.bc.writes), log.bc.writes, states)
  {
    hide Ready, WrotePrefix, BlocksOf, Full, AllOrNothing, SurvivesAll, Stages;
    ReadyFacts(fs, log, l, i);
    var done, t := 0, 0;
    off', states := off, [fs.Now()];
    if off <= |fs.content[i]| {
      WroteNothing(fs.content, i, off, src);
      StagesStart(fs.content, fs.Now(), i, off, src);
    }
    SurvivesStart(l, log.bc.writes, states);
    while done < |src|
      invariant Ready(fs, log, l) && i < |fs.inodes| == |fs.content| == |old(fs.content)| && done <= |src|
                && off' == off + done <= MAXFILE * BSIZE
      invariant |states| == t + 1 && (done < |src| ==> done == t * CHUNK) && states[0] == old(fs.Now())
                && states[t] == fs.Now()
      invariant if off <= |old(fs.content)[i]|
        then WrotePrefix(old(fs.content), fs.content, i, off, src, done) && Stages(old(fs.content), states, i, off, src,
            done)
        else fs.content == old(fs.content) && done == 0
      invariant SurvivesAll(l, old(log.bc.writes), log.bc.writes, states)
    {
      var n1 := if |src| - done > CHUNK then CHUNK else |src| - done;
      ghost var before, w1 := fs.content, log.bc.writes;
      var r;
      ghost var c;
      r, c := WriteChunk(fs, log, l, i, off', src[done..done + n1], FailAt(fails, t));
      SurvivesMore(l, old(log.bc.writes), w1, log.bc.writes, states, fs.Now(), c);
      if r > 0 {
        WroteEnd(before, fs.content, i, off', src[done..done + n1], r);
        ReadyFacts(fs, log, l, i);
        off' := off' + r;
      }
      if r >= 0 {
        ChunkWritten(old(fs.content), before, fs.content, i, off, src, done, n1, r);
      }
      if off <= |old(fs.content)[i]| {
        StagesMore(old(fs.content), states, i, off, src, fs.Now(), if r > 0 then done + r else done);
      }
      states := states + [fs.Now()];
      if r != n1 {
        return -1, off', states;
      }
      done, t := done + r, t + 1;
    }
    ret := |src|;
  }

  lemma ReadyFacts(fs: FileSystem, log: Log, l: Layout, i: nat)
    requires Ready(fs, log, l) && i < |fs.inodes|
    ensures |fs.inodes| == |fs.content| && |fs.content[i]| <= MAXFILE * BSIZE
  {
    hide Whole, Represents;
    RowFacts(fs.nmeta, fs.bitmap, fs.data, fs.inodes, fs.table, fs.owner, fs.content, i);
  }

  lemma StagesStart(c0: seq<seq<Byte>>, s: Snapshot, i: nat, off: nat, src: seq<Byte>)
    requires WrotePrefix(c0, s.content, i, off, src, 0)
    ensures Stages(c0, [s], i, off, src, 0)
  {
  }

  lemma SurvivesStart(l: Layout, w: seq<Disk>, states: seq<Snapshot>)
    ensures SurvivesAll(l, w, w, states)
  {
  }

  /** The machine comes up again after a crash: initlog recovers the disk, and everything is ready for the next write,
      on the file system s that the disk survives as. */
  method Reboot(image: Disk, l: Layout, s: Snapshot) returns (fs: FileSystem, log: Log)
    requires Survives(l, image, s) && LayoutOk(l, |image|, |s.inodes|) && s.logged == {}
    requires Whole(l.nmeta, s.bitmap, s.data, s.inodes, s.table, s.owner, s.content)
    requires |s.inodes| == |s.content| && forall i :: 0 <= i < |s.inodes| ==> s.inodes[i].size == |s.content[i]|
    ensures Ready(fs, log, l) && fs.Now() == s
  {
    hide Represents, LayoutOk, Whole, Recovered, DiskOk, HeadOf, RecoveryWrites;
    RecoveredSize(l.start, image);
    var bc := new BufCache(image);
    log := new Log(bc, l.start);
    log.RecoverFromLog();
    fs := new FileSystem.Mount(l.nmeta, l.bmapstart, l.inodestart, s);
  }

  lemma RecoveredSize(start: nat, d: Disk)
    requires DiskOk(start, d)
    ensures start + LOGBLOCKS < |d| == |Recovered(start, d)|
  {
  }
}
