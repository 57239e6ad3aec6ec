/** The parts of kernel/fs.c that do not change state: what an indirect block says, who owns a disk block,
    and what bytes an inode shows.  An inode has SLOTS places that can hold a block number: its direct
    addresses, the address of its indirect block, and the entries of that block. */
module FsBlocks {
  const BSIZE: nat := 1024
  const NDIRECT: nat := 12
  const NINDIRECT: nat := 256
  const MAXFILE: nat := 268
  const SLOTS: nat := 269
  const BPB: nat := 8192
  const IPB: nat := 16
  const TWO32: nat := 0x1_0000_0000

  type Byte = x: nat | x < 256
  type Block = b: seq<Byte> | |b| == 1024 witness seq(1024, i => 0)

  datatype Inode = Inode(size: nat, addrs: seq<nat>)

  /** memset of a block. */
  function Zeroed(b: Block): Block {
    seq(|b|, i => 0)
  }

  // ---------- Little-endian words in a block ----------

  function Entry(b: Block, j: nat): nat
    requires j < NINDIRECT
  {
    var b0: nat, b1: nat, b2: nat, b3: nat := b[4 * j], b[4 * j + 1], b[4 * j + 2], b[4 * j + 3];
    b0 + 0x100 * b1 + 0x1_0000 * b2 + 0x100_0000 * b3
  }

  function SetEntry(b: Block, j: nat, v: nat): Block
    requires j < NINDIRECT
  {
    b[4 * j := v % 0x100][4 * j + 1 := v / 0x100 % 0x100][4 * j + 2 := v / 0x1_0000 % 0x100][4 * j + 3 :=
        v / 0x100_0000 % 0x100]
  }

  /** A stored word reads back, and storing it leaves the other words alone. */
  lemma EntryRoundTrip(b: Block, j: nat, v: nat, k: nat)
    requires j < NINDIRECT && k < NINDIRECT && v < TWO32
    ensures Entry(SetEntry(b, j, v), k) == if k == j then v else Entry(b, k)
  {
    assert v / 0x1_0000 == v / 0x100 / 0x100 && v / 0x100_0000 == v / 0x100 / 0x100 / 0x100;
  }

  function Entries(b: Block): (s: seq<nat>)
    ensures |s| == NINDIRECT
  {
    seq(NINDIRECT, j requires 0 <= j < NINDIRECT => Entry(b, j))
  }

  lemma EntriesSet(b: Block, j: nat, v: nat)
    requires j < NINDIRECT && v < TWO32
    ensures Entries(SetEntry(b, j, v)) == Entries(b)[j := v]
  {
    forall k | 0 <= k < NINDIRECT ensures Entries(SetEntry(b, j, v))[k] == Entries(b)[j := v][k] {
      EntryRoundTrip(b, j, v, k);
    }
  }

  lemma EntriesZero(b: Block)
    ensures Entries(Zeroed(b)) == seq(NINDIRECT, j => 0)
  {
  }

  // ---------- Ownership ----------

  datatype Loc = Loc(ino: nat, slot: nat)

  /** The slot that holds the number of the file's block bn. */
  function SlotIx(bn: nat): nat {
    if bn < NDIRECT then bn else bn + 1
  }

  ghost predicate OwnedBy(nmeta: nat, bitmap: seq<bool>, table: seq<seq<nat>>, b: nat, at: Loc) {
    nmeta <= b < |bitmap| && bitmap[b] && at.ino < |table| && at.slot < |table[at.ino]| && table[at.ino][at.slot] == b
  }

  ghost predicate SlotOwned(table: seq<seq<nat>>, owner: map<nat, Loc>, i: nat, k: nat)
    requires i < |table| && k < |table[i]|
  {
    table[i][k] != 0 ==> table[i][k] in owner && owner[table[i][k]] == Loc(i, k)
  }

  /** The blocks marked in use are the metadata blocks and, each exactly once, the blocks in the slots. */
  ghost predicate Owned(nmeta: nat, bitmap: seq<bool>, table: seq<seq<nat>>, owner: map<nat, Loc>) {
    && 0 < nmeta <= |bitmap| && (forall b :: 0 <= b < nmeta ==> bitmap[b])
    && (forall b :: b in owner ==> OwnedBy(nmeta, bitmap, table, b, owner[b]))
    && (forall i, k :: 0 <= i < |table| && 0 <= k < |table[i]| ==> SlotOwned(table, owner, i, k))
    && (forall b :: nmeta <= b < |bitmap| && bitmap[b] ==> b in owner)
  }

  /** Two slots never hold the same block. */
  lemma SlotsDiffer(nmeta: nat, bitmap: seq<bool>, table: seq<seq<nat>>, owner: map<nat, Loc>, i: nat, k: nat, j: nat,
        l: nat)
    requires Owned(nmeta, bitmap, table, owner) && i < |table| && j < |table| && k < |table[i]| && l < |table[j]|
    requires table[i][k] != 0 && table[i][k] == table[j][l]
    ensures i == j && k == l
  {
    assert SlotOwned(table, owner, i, k) && SlotOwned(table, owner, j, l);
  }

  /** A block in a slot is marked in use: bfree of it does not panic. */
  lemma SlotMarked(nmeta: nat, bitmap: seq<bool>, table: seq<seq<nat>>, owner: map<nat, Loc>, i: nat, k: nat)
    requires Owned(nmeta, bitmap, table, owner) && i < |table| && k < |table[i]| && table[i][k] != 0
    ensures nmeta <= table[i][k] < |bitmap| && bitmap[table[i][k]]
  {
    assert SlotOwned(table, owner, i, k);
  }

  /** A block not marked in use is in no slot. */
  lemma FreeNotInSlot(nmeta: nat, bitmap: seq<bool>, table: seq<seq<nat>>, owner: map<nat, Loc>, b: nat)
    requires Owned(nmeta, bitmap, table, owner) && b < |bitmap| && !bitmap[b]
    ensures b >= nmeta && b !in owner && forall i, k :: 0 <= i < |table| && 0 <= k < |table[i]| ==> table[i][k] != b
  {
    forall i, k | 0 <= i < |table| && 0 <= k < |table[i]| ensures table[i][k] != b {
      assert SlotOwned(table, owner, i, k);
    }
  }

  ghost function Put(table: seq<seq<nat>>, i: nat, k: nat, b: nat): (r: seq<seq<nat>>)
    requires i < |table| && k < |table[i]|
    ensures |r| == |table|
  {
    var row: seq<nat> := table[i];
    table[i := row[k := b]]
  }

  /** Allocating a block and storing it in an empty slot. */
  lemma AttachOwned(nmeta: nat, bitmap: seq<bool>, table: seq<seq<nat>>, owner: map<nat, Loc>, b: nat, i: nat, k: nat)
    requires Owned(nmeta, bitmap, table, owner) && b < |bitmap| && !bitmap[b] && i < |table| && k < |table[i]|
             && table[i][k] == 0
    ensures Owned(nmeta, bitmap[b := true], Put(table, i, k, b), owner[b := Loc(i, k)])
  {
    FreeNotInSlot(nmeta, bitmap, table, owner, b);
    var table', owner' := Put(table, i, k, b), owner[b := Loc(i, k)];
    forall x | x in owner' ensures OwnedBy(nmeta, bitmap[b := true], table', x, owner'[x]) {
      if x != b {
        assert OwnedBy(nmeta, bitmap, table, x, owner[x]);
      }
    }
    forall j, l | 0 <= j < |table'| && 0 <= l < |table'[j]| ensures SlotOwned(table', owner', j, l) {
      if !(j == i && l == k) {
        assert table'[j][l] == table[j][l] && SlotOwned(table, owner, j, l);
      }
    }
  }

  /** Freeing the block of a slot and emptying the slot. */
  lemma DetachOwned(nmeta: nat, bitmap: seq<bool>, table: seq<seq<nat>>, owner: map<nat, Loc>, i: nat, k: nat)
    requires Owned(nmeta, bitmap, table, owner) && i < |table| && k < |table[i]| && table[i][k] != 0
    ensures table[i][k] < |bitmap| && Owned(nmeta, bitmap[table[i][k] := false], Put(table, i, k, 0),
            owner - {table[i][k]})
  {
    SlotMarked(nmeta, bitmap, table, owner, i, k);
    var b := table[i][k];
    var table', owner' := Put(table, i, k, 0), owner - {b};
    forall x | x in owner' ensures OwnedBy(nmeta, bitmap[b := false], table', x, owner'[x]) {
      assert OwnedBy(nmeta, bitmap, table, x, owner[x]);
    }
    forall j, l | 0 <= j < |table'| && 0 <= l < |table'[j]| ensures SlotOwned(table', owner', j, l) {
      if !(j == i && l == k) {
        assert table'[j][l] == table[j][l] && SlotOwned(table, owner, j, l) && SlotOwned(table, owner, i, k);
      }
    }
  }

  // ---------- What is on disk ----------

  /** The inode's addresses and its indirect block hold these slots. */
  ghost predicate Stored(data: seq<Block>, ip: Inode, slots: seq<nat>) {
    && |slots| == SLOTS && |ip.addrs| == NDIRECT + 1 && ip.addrs == slots[..NDIRECT + 1]
    && slots[NDIRECT] < |data|
    && slots[NDIRECT + 1..] == if slots[NDIRECT] == 0 then seq(NINDIRECT, j => 0) else Entries(data[slots[NDIRECT]])
  }

  ghost predicate AllStored(data: seq<Block>, inodes: seq<Inode>, table: seq<seq<nat>>) {
    |inodes| == |table| && forall i :: 0 <= i < |table| ==> Stored(data, inodes[i], table[i])
  }

  /** Byte o of the file is x. */
  ghost predicate ByteIs(data: seq<Block>, slots: seq<nat>, o: nat, x: Byte) {
    && SlotIx(o / BSIZE) < |slots|
    && var b := slots[SlotIx(o / BSIZE)]; 0 < b < |data| && data[b][o % BSIZE] == x
  }

  /** The file is this sequence of bytes: every block below its end is mapped and holds them. */
  ghost predicate Shows(data: seq<Block>, slots: seq<nat>, content: seq<Byte>) {
    |slots| == SLOTS && |content| <= MAXFILE * BSIZE && forall o :: 0 <= o < |content| ==>
          ByteIs(data, slots, o, content[o])
  }

  ghost predicate AllShow(data: seq<Block>, table: seq<seq<nat>>, content: seq<seq<Byte>>) {
    |table| == |content| && forall i :: 0 <= i < |table| ==> Shows(data, table[i], content[i])
  }

  /** Block b is in no data slot, so what is written there shows in no file. */
  ghost predicate NotData(table: seq<seq<nat>>, b: nat) {
    forall i, k :: 0 <= i < |table| && 0 <= k < |table[i]| && k != NDIRECT ==> table[i][k] != b
  }

  lemma HiddenWrite(data: seq<Block>, table: seq<seq<nat>>, content: seq<seq<Byte>>, b: nat, x: Block)
    requires AllShow(data, table, content) && b < |data| && NotData(table, b)
    ensures AllShow(data[b := x], table, content)
  {
    forall i | 0 <= i < |table| ensures Shows(data[b := x], table[i], content[i]) {
      assert Shows(data, table[i], content[i]);
      forall o | 0 <= o < |content[i]| ensures ByteIs(data[b := x], table[i], o, content[i][o]) {
        assert ByteIs(data, table[i], o, content[i][o]);
        assert SlotIx(o / BSIZE) != NDIRECT;
      }
    }
  }

  lemma PutShows(data: seq<Block>, table: seq<seq<nat>>, content: seq<seq<Byte>>, i: nat, k: nat, b: nat)
    requires AllShow(data, table, content) && i < |table| && k < |table[i]| && table[i][k] == 0
    ensures AllShow(data, Put(table, i, k, b), content)
  {
    forall j | 0 <= j < |table| ensures Shows(data, Put(table, i, k, b)[j], content[j]) {
      assert Shows(data, table[j], content[j]);
      forall o | 0 <= o < |content[j]| ensures ByteIs(data, Put(table, i, k, b)[j], o, content[j][o]) {
        assert ByteIs(data, table[j], o, content[j][o]);
      }
    }
  }

  lemma StoredFrame(data: seq<Block>, data': seq<Block>, ip: Inode, slots: seq<nat>)
    requires Stored(data, ip, slots) && |data'| == |data|
    requires slots[NDIRECT] != 0 ==> data'[slots[NDIRECT]] == data[slots[NDIRECT]]
    ensures Stored(data', ip, slots)
  {
  }

  // ---------- The whole file system ----------

  ghost predicate Whole(nmeta: nat, bitmap: seq<bool>, data: seq<Block>, inodes: seq<Inode>, table: seq<seq<nat>>,
        owner: map<nat, Loc>, content: seq<seq<Byte>>) {
    |bitmap| == |data| <= TWO32 && Owned(nmeta, bitmap, table, owner) && AllStored(data, inodes, table)
        && AllShow(data, table, content)
  }

  /** Writing a block that is in no slot, or in the slot of an indirect block of inode i, stores the same
      slots for every other inode. */
  lemma OthersStored(data: seq<Block>, data': seq<Block>, inodes: seq<Inode>, table: seq<seq<nat>>, i: nat, j: nat)
    requires AllStored(data, inodes, table) && |data'| == |data| && j < |table| && i < |table| && i != j
    requires forall b :: 0 <= b < |data| && data'[b] != data[b] ==> b != 0 && table[j][NDIRECT] != b
    ensures Stored(data', inodes[j], table[j])
  {
    assert Stored(data, inodes[j], table[j]);
    StoredFrame(data, data', inodes[j], table[j]);
  }

  lemma AttachStored(data: seq<Block>, inodes: seq<Inode>, table: seq<seq<nat>>, b: nat, i: nat, k: nat)
    requires AllStored(data, inodes, table) && 0 < b < |data| && i < |table| && k <= NDIRECT && table[i][k] == 0
    requires forall j :: 0 <= j < |table| ==> table[j][NDIRECT] != b
    ensures AllStored(data[b := Zeroed(data[b])], inodes[i := inodes[i].(addrs := inodes[i].addrs[k := b])],
            Put(table, i, k, b))
  {
    var data' := data[b := Zeroed(data[b])];
    var inodes' := inodes[i := inodes[i].(addrs := inodes[i].addrs[k := b])];
    var table' := Put(table, i, k, b);
    forall j | 0 <= j < |table'| ensures Stored(data', inodes'[j], table'[j]) {
      assert Stored(data, inodes[j], table[j]);
      if j != i {
        OthersStored(data, data', inodes, table, i, j);
      } else {
        EntriesZero(data[b]);
        assert table'[i][NDIRECT + 1..] == table[i][NDIRECT + 1..];
        assert inodes'[i].addrs == table'[i][..NDIRECT + 1];
      }
    }
  }

  /** bmap gives the inode a direct block, or its indirect block. */
  lemma Attach(nmeta: nat, bitmap: seq<bool>, data: seq<Block>, inodes: seq<Inode>, table: seq<seq<nat>>,
        owner: map<nat, Loc>, content: seq<seq<Byte>>, b: nat, i: nat, k: nat)
    requires Whole(nmeta, bitmap, data, inodes, table, owner, content)
    requires b < |bitmap| && !bitmap[b] && i < |table| && k <= NDIRECT && |table[i]| == SLOTS && table[i][k] == 0
    ensures Whole(nmeta, bitmap[b := true], data[b := Zeroed(data[b])],
            inodes[i := inodes[i].(addrs := inodes[i].addrs[k := b])], Put(table, i, k, b), owner[b := Loc(i, k)],
            content)
  {
    FreeNotInSlot(nmeta, bitmap, table, owner, b);
    AttachOwned(nmeta, bitmap, table, owner, b, i, k);
    forall j | 0 <= j < |table| ensures table[j][NDIRECT] != b {
      assert Stored(data, inodes[j], table[j]);
    }
    AttachStored(data, inodes, table, b, i, k);
    HiddenWrite(data, table, content, b, Zeroed(data[b]));
    PutShows(data[b := Zeroed(data[b])], table, content, i, k, b);
  }

  /** The blocks after b is cleared and named in entry e of the indirect block d. */
  ghost function WithEntry(data: seq<Block>, b: nat, d: nat, e: nat): (r: seq<Block>)
    requires b < |data| && d < |data| && e < NINDIRECT
    ensures |r| == |data|
  {
    data[b := Zeroed(data[b])][d := SetEntry(data[d], e, b)]
  }

  lemma AttachEntryStored(data: seq<Block>, inodes: seq<Inode>, table: seq<seq<nat>>, b: nat, i: nat, e: nat)
    requires AllStored(data, inodes, table) && 0 < b < |data| <= TWO32 && i < |table| && e < NINDIRECT
    requires |table[i]| == SLOTS && table[i][NDIRECT] != 0
    requires forall j :: 0 <= j < |table| ==>
               table[j][NDIRECT] != b && (j != i ==> table[j][NDIRECT] != table[i][NDIRECT])
    ensures table[i][NDIRECT] < |data|
    ensures AllStored(WithEntry(data, b, table[i][NDIRECT], e), inodes, Put(table, i, NDIRECT + 1 + e, b))
  {
    assert Stored(data, inodes[i], table[i]);
    var d := table[i][NDIRECT];
    var data' := WithEntry(data, b, d, e);
    var table' := Put(table, i, NDIRECT + 1 + e, b);
    forall j | 0 <= j < |table'| ensures Stored(data', inodes[j], table'[j]) {
      assert Stored(data, inodes[j], table[j]);
      if j != i {
        OthersStored(data, data', inodes, table, i, j);
      } else {
        EntriesSet(data[d], e, b);
        hide SetEntry, Entries;
        assert table'[i][NDIRECT + 1..] == table[i][NDIRECT + 1..][e := b];
        assert table'[i][..NDIRECT + 1] == table[i][..NDIRECT + 1];
      }
    }
  }

  /** bmap gives the inode a block through its indirect block. */
  lemma AttachEntry(nmeta: nat, bitmap: seq<bool>, data: seq<Block>, inodes: seq<Inode>, table: seq<seq<nat>>,
        owner: map<nat, Loc>, content: seq<seq<Byte>>, b: nat, i: nat, e: nat)
    requires Whole(nmeta, bitmap, data, inodes, table, owner, content)
    requires b < |bitmap| && !bitmap[b] && i < |table| && e < NINDIRECT && |table[i]| == SLOTS && table[i][NDIRECT] != 0
             && table[i][NDIRECT + 1 + e] == 0
    ensures table[i][NDIRECT] < |data| && table[i][NDIRECT] != b
    ensures Whole(nmeta, bitmap[b := true], data[b := Zeroed(data[b])][table[i][NDIRECT] :=
            SetEntry(data[table[i][NDIRECT]], e, b)], inodes,
              Put(table, i, NDIRECT + 1 + e, b), owner[b := Loc(i, NDIRECT + 1 + e)], content)
  {
    hide SetEntry;
    FreeNotInSlot(nmeta, bitmap, table, owner, b);
    AttachOwned(nmeta, bitmap, table, owner, b, i, NDIRECT + 1 + e);
    IndirectAlone(nmeta, bitmap, data, inodes, table, owner, i, b);
    AttachEntryStored(data, inodes, table, b, i, e);
    IndirectNotData(nmeta, bitmap, table, owner, i);
    AttachEntryShows(data, table, content, b, i, e);
  }

  lemma AttachEntryShows(data: seq<Block>, table: seq<seq<nat>>, content: seq<seq<Byte>>, b: nat, i: nat, e: nat)
    requires AllShow(data, table, content) && 0 < b < |data| && i < |table| && e < NINDIRECT
    requires |table[i]| == SLOTS && table[i][NDIRECT] < |data| && table[i][NDIRECT + 1 + e] == 0
    requires NotData(table, b) && NotData(table, table[i][NDIRECT])
    ensures AllShow(data[b := Zeroed(data[b])][table[i][NDIRECT] := SetEntry(data[table[i][NDIRECT]], e, b)],
            Put(table, i, NDIRECT + 1 + e, b), content)
  {
    hide SetEntry, AllShow, NotData;
    var d := table[i][NDIRECT];
    HiddenWrite(data, table, content, b, Zeroed(data[b]));
    HiddenWrite(data[b := Zeroed(data[b])], table, content, d, SetEntry(data[d], e, b));
    PutShows(data[b := Zeroed(data[b])][d := SetEntry(data[d], e, b)], table, content, i, NDIRECT + 1 + e, b);
  }

  lemma IndirectAlone(nmeta: nat, bitmap: seq<bool>, data: seq<Block>, inodes: seq<Inode>, table: seq<seq<nat>>,
        owner: map<nat, Loc>, i: nat, b: nat)
    requires Owned(nmeta, bitmap, table, owner) && AllStored(data, inodes, table) && i < |table| && b < |bitmap|
             && !bitmap[b]
    requires |table[i]| == SLOTS && table[i][NDIRECT] != 0
    ensures forall j :: 0 <= j < |table| ==>
              |table[j]| == SLOTS && table[j][NDIRECT] != b && (j != i ==> table[j][NDIRECT] != table[i][NDIRECT])
  {
    FreeNotInSlot(nmeta, bitmap, table, owner, b);
    forall j | 0 <= j < |table| ensures |table[j]| == SLOTS && table[j][NDIRECT] != b
        && (j != i ==> table[j][NDIRECT] != table[i][NDIRECT]) {
      assert Stored(data, inodes[j], table[j]);
      assert SlotOwned(table, owner, i, NDIRECT) && SlotOwned(table, owner, j, NDIRECT);
    }
  }

  lemma IndirectNotData(nmeta: nat, bitmap: seq<bool>, table: seq<seq<nat>>, owner: map<nat, Loc>, i: nat)
    requires Owned(nmeta, bitmap, table, owner) && i < |table| && |table[i]| == SLOTS && table[i][NDIRECT] != 0
    ensures NotData(table, table[i][NDIRECT])
  {
    forall j, k | 0 <= j < |table| && 0 <= k < |table[j]| && k != NDIRECT ensures table[j][k] != table[i][NDIRECT] {
      assert SlotOwned(table, owner, j, k) && SlotOwned(table, owner, i, NDIRECT);
    }
  }

  // ---------- Bytes ----------

  function Splice(b: Block, p: nat, bytes: seq<Byte>): (r: Block)
    requires p + |bytes| <= BSIZE
    ensures forall q :: 0 <= q < BSIZE ==> r[q] == if p <= q < p + |bytes| then bytes[q - p] else b[q]
  {
    b[..p] + bytes + b[p + |bytes|..]
  }

  /** The file with these bytes at this offset, longer if they reach past its end. */
  function Overwrite(c: seq<Byte>, off: nat, bytes: seq<Byte>): (r: seq<Byte>)
    requires off <= |c|
    ensures |r| == if off + |bytes| > |c| then off + |bytes| else |c|
    ensures forall o :: 0 <= o < |r| ==> r[o] == if off <= o < off + |bytes| then bytes[o - off] else c[o]
  {
    c[..off] + bytes + if off + |bytes| < |c| then c[off + |bytes|..] else []
  }

  /** Writing piece by piece is writing the whole. */
  lemma OverwriteMore(c: seq<Byte>, off: nat, bytes: seq<Byte>, more: seq<Byte>)
    requires off <= |c|
    ensures off + |bytes| <= |Overwrite(c, off, bytes)|
    ensures Overwrite(Overwrite(c, off, bytes), off + |bytes|, more) == Overwrite(c, off, bytes + more)
  {
    hide Overwrite;
  }

  lemma SameBlock(off: nat, o: nat, m: nat)
    requires off % BSIZE + m <= BSIZE
    ensures off <= o < off + m ==> o / BSIZE == off / BSIZE && o % BSIZE == off % BSIZE + (o - off)
    ensures !(off <= o < off + m) && o / BSIZE == off / BSIZE ==> !(off % BSIZE <= o % BSIZE < off % BSIZE + m)
  {
  }

  lemma SpliceShows(data: seq<Block>, slots: seq<nat>, content: seq<Byte>, off: nat, bytes: seq<Byte>, b: nat)
    requires Shows(data, slots, content) && off <= |content| && off + |bytes| <= MAXFILE * BSIZE && 0 < |bytes|
             && off % BSIZE + |bytes| <= BSIZE
    requires SlotIx(off / BSIZE) < SLOTS && slots[SlotIx(off / BSIZE)] == b && 0 < b < |data|
    requires forall k :: 0 <= k < SLOTS && k != SlotIx(off / BSIZE) ==> slots[k] != b
    ensures Shows(data[b := Splice(data[b], off % BSIZE, bytes)], slots, Overwrite(content, off, bytes))
  {
    var c := Overwrite(content, off, bytes);
    forall o | 0 <= o < |c| ensures ByteIs(data[b := Splice(data[b], off % BSIZE, bytes)], slots, o, c[o]) {
      SameBlock(off, o, |bytes|);
      if !(off <= o < off + |bytes|) {
        assert ByteIs(data, slots, o, content[o]);
      }
    }
  }

  lemma OthersShow(data: seq<Block>, slots: seq<nat>, content: seq<Byte>, b: nat, x: Block)
    requires Shows(data, slots, content) && b < |data| && forall k :: 0 <= k < |slots| ==> slots[k] != b
    ensures Shows(data[b := x], slots, content)
  {
    forall o | 0 <= o < |content| ensures ByteIs(data[b := x], slots, o, content[o]) {
      assert ByteIs(data, slots, o, content[o]);
    }
  }

  /** writei copies into a mapped block: that part of that file changes, and nothing else. */
  lemma WriteBytes(nmeta: nat, bitmap: seq<bool>, data: seq<Block>, inodes: seq<Inode>, table: seq<seq<nat>>,
        owner: map<nat, Loc>, content: seq<seq<Byte>>, i: nat, off: nat, bytes: seq<Byte>)
    requires Whole(nmeta, bitmap, data, inodes, table, owner, content) && i < |table|
    requires off <= |content[i]| && off + |bytes| <= MAXFILE * BSIZE && 0 < |bytes| && off % BSIZE + |bytes| <= BSIZE
    requires |table[i]| == SLOTS && SlotIx(off / BSIZE) < SLOTS && table[i][SlotIx(off / BSIZE)] != 0
    ensures table[i][SlotIx(off / BSIZE)] < |data|
    ensures var b := table[i][SlotIx(off / BSIZE)];
      Whole(nmeta, bitmap, data[b := Splice(data[b], off % BSIZE, bytes)], inodes, table, owner,
          content[i := Overwrite(content[i], off, bytes)])
  {
    var s := SlotIx(off / BSIZE);
    var b := table[i][s];
    SlotMarked(nmeta, bitmap, table, owner, i, s);
    SlotAlone(nmeta, bitmap, table, owner, i, s);
    assert Stored(data, inodes[i], table[i]) && Shows(data, table[i], content[i]);
    SpliceShows(data, table[i], content[i], off, bytes, b);
    var x, c := Splice(data[b], off % BSIZE, bytes), Overwrite(content[i], off, bytes);
    hide Splice, Overwrite;
    DataWrite(data, inodes, table, content, i, s, x, c);
  }

  ghost predicate Alone(table: seq<seq<nat>>, i: nat, s: nat)
    requires i < |table| && s < |table[i]|
  {
    forall j, k :: 0 <= j < |table| && 0 <= k < |table[j]| && !(j == i && k == s) ==> table[j][k] != table[i][s]
  }

  lemma SlotAlone(nmeta: nat, bitmap: seq<bool>, table: seq<seq<nat>>, owner: map<nat, Loc>, i: nat, s: nat)
    requires Owned(nmeta, bitmap, table, owner) && i < |table| && s < |table[i]| && table[i][s] != 0
    ensures Alone(table, i, s)
  {
    forall j, k | 0 <= j < |table| && 0 <= k < |table[j]| && !(j == i && k == s) ensures table[j][k] != table[i][s] {
      assert SlotOwned(table, owner, j, k) && SlotOwned(table, owner, i, s);
    }
  }

  /** Writing the block in a data slot concerns that inode only. */
  lemma DataWrite(data: seq<Block>, inodes: seq<Inode>, table: seq<seq<nat>>, content: seq<seq<Byte>>, i: nat, s: nat,
        x: Block, c: seq<Byte>)
    requires AllStored(data, inodes, table) && AllShow(data, table, content) && i < |table| && s < |table[i]|
             && s != NDIRECT
    requires table[i][s] < |data| && Alone(table, i, s) && Shows(data[table[i][s] := x], table[i], c)
    ensures AllStored(data[table[i][s] := x], inodes, table) && AllShow(data[table[i][s] := x], table, content[i := c])
  {
    var data' := data[table[i][s] := x];
    forall j | 0 <= j < |table| ensures Stored(data', inodes[j], table[j])
        && Shows(data', table[j], content[i := c][j]) {
      assert Stored(data, inodes[j], table[j]) && Shows(data, table[j], content[j]);
      StoredFrame(data, data', inodes[j], table[j]);
      if j != i {
        OthersShow(data, table[j], content[j], table[i][s], x);
      }
    }
  }

  /** readi finds the bytes of the file in the block bmap names. */
  lemma ReadBytes(data: seq<Block>, slots: seq<nat>, content: seq<Byte>, off: nat, m: nat)
    requires Shows(data, slots, content) && 0 < m && off + m <= |content| && off % BSIZE + m <= BSIZE
    ensures SlotIx(off / BSIZE) < SLOTS && 0 < slots[SlotIx(off / BSIZE)] < |data|
    ensures data[slots[SlotIx(off / BSIZE)]][off % BSIZE..off % BSIZE + m] == content[off..off + m]
  {
    assert ByteIs(data, slots, off, content[off]);
    forall o | off <= o < off + m ensures data[slots[SlotIx(off / BSIZE)]][off % BSIZE + (o - off)] == content[o] {
      SameBlock(off, o, m);
      assert ByteIs(data, slots, o, content[o]);
    }
  }

  // ---------- Truncation ----------

  /** itrunc forgets the bytes first. */
  lemma ForgetBytes(nmeta: nat, bitmap: seq<bool>, data: seq<Block>, inodes: seq<Inode>, table: seq<seq<nat>>,
        owner: map<nat, Loc>, content: seq<seq<Byte>>, i: nat)
    requires Whole(nmeta, bitmap, data, inodes, table, owner, content) && i < |table|
    ensures Whole(nmeta, bitmap, data, inodes, table, owner, content[i := []])
  {
    forall j | 0 <= j < |table| ensures Shows(data, table[j], content[i := []][j]) {
      assert Shows(data, table[j], content[j]);
    }
  }

  ghost predicate EntriesFrom(slots: seq<nat>, entries: seq<nat>, j: nat)
    requires |slots| == SLOTS && |entries| == NINDIRECT
  {
    forall k :: NDIRECT < k < SLOTS ==> slots[k] == if k < NDIRECT + 1 + j then 0 else entries[k - NDIRECT - 1]
  }

  /** All of Whole but that, of inode i, only the entries from j on are still in the slots. */
  ghost predicate Freeing(nmeta: nat, bitmap: seq<bool>, data: seq<Block>, inodes: seq<Inode>, table: seq<seq<nat>>,
        owner: map<nat, Loc>, content: seq<seq<Byte>>, i: nat, j: nat) {
    && |bitmap| == |data| <= TWO32 && Owned(nmeta, bitmap, table, owner) && AllShow(data, table, content)
    && |inodes| == |table| && i < |table| && content[i] == [] && j <= NINDIRECT
    && (forall x :: 0 <= x < |table| && x != i ==> Stored(data, inodes[x], table[x]))
    && |table[i]| == SLOTS && |inodes[i].addrs| == NDIRECT + 1 && inodes[i].addrs == table[i][..NDIRECT + 1]
    && (forall k :: 0 <= k < NDIRECT ==> table[i][k] == 0) && 0 < table[i][NDIRECT] < |data|
    && EntriesFrom(table[i], Entries(data[table[i][NDIRECT]]), j)
  }

  lemma EmptySlotShows(data: seq<Block>, table: seq<seq<nat>>, content: seq<seq<Byte>>, i: nat, k: nat)
    requires AllShow(data, table, content) && i < |table| && k < |table[i]| && content[i] == []
    ensures AllShow(data, Put(table, i, k, 0), content)
  {
    forall j | 0 <= j < |table| ensures Shows(data, Put(table, i, k, 0)[j], content[j]) {
      assert Shows(data, table[j], content[j]);
    }
  }

  /** itrunc frees a direct block. */
  lemma DetachDirect(nmeta: nat, bitmap: seq<bool>, data: seq<Block>, inodes: seq<Inode>, table: seq<seq<nat>>,
        owner: map<nat, Loc>, content: seq<seq<Byte>>, i: nat, k: nat)
    requires Whole(nmeta, bitmap, data, inodes, table, owner, content) && i < |table| && content[i] == [] && k < NDIRECT
             && |table[i]| == SLOTS && table[i][k] != 0
    ensures table[i][k] < |bitmap| && bitmap[table[i][k]]
    ensures Whole(nmeta, bitmap[table[i][k] := false], data, inodes[i := inodes[i].(addrs := inodes[i].addrs[k := 0])],
            Put(table, i, k, 0), owner - {table[i][k]}, content)
  {
    SlotMarked(nmeta, bitmap, table, owner, i, k);
    DetachOwned(nmeta, bitmap, table, owner, i, k);
    EmptySlotShows(data, table, content, i, k);
    var inodes', table' := inodes[i := inodes[i].(addrs := inodes[i].addrs[k := 0])], Put(table, i, k, 0);
    forall j | 0 <= j < |table| ensures Stored(data, inodes'[j], table'[j]) {
      assert Stored(data, inodes[j], table[j]);
      assert table'[i][NDIRECT + 1..] == table[i][NDIRECT + 1..];
    }
  }

  lemma StartFreeing(nmeta: nat, bitmap: seq<bool>, data: seq<Block>, inodes: seq<Inode>, table: seq<seq<nat>>,
        owner: map<nat, Loc>, content: seq<seq<Byte>>, i: nat)
    requires Whole(nmeta, bitmap, data, inodes, table, owner, content) && i < |table| && content[i] == []
             && |table[i]| == SLOTS
    requires (forall k :: 0 <= k < NDIRECT ==> table[i][k] == 0) && table[i][NDIRECT] != 0
    ensures Freeing(nmeta, bitmap, data, inodes, table, owner, content, i, 0)
  {
    assert Stored(data, inodes[i], table[i]);
    hide Entries;
    forall k | NDIRECT < k < SLOTS ensures table[i][k] == Entries(data[table[i][NDIRECT]])[k - NDIRECT - 1] {
      assert table[i][NDIRECT + 1..][k - NDIRECT - 1] == table[i][k];
    }
  }

  /** itrunc frees the block of an entry, if it has one. */
  lemma DetachEntry(nmeta: nat, bitmap: seq<bool>, data: seq<Block>, inodes: seq<Inode>, table: seq<seq<nat>>,
        owner: map<nat, Loc>, content: seq<seq<Byte>>, i: nat, e: nat)
    requires Freeing(nmeta, bitmap, data, inodes, table, owner, content, i, e) && e < NINDIRECT
    ensures Entries(data[table[i][NDIRECT]])[e] == 0 ==>
              Freeing(nmeta, bitmap, data, inodes, table, owner, content, i, e + 1)
    ensures var b := Entries(data[table[i][NDIRECT]])[e];
      b != 0 ==> && b == table[i][NDIRECT + 1 + e] < |bitmap| && bitmap[b]
                 && Freeing(nmeta, bitmap[b := false], data, inodes, Put(table, i, NDIRECT + 1 + e, 0), owner - {b},
                     content, i, e + 1)
  {
    hide Entries;
    var b := table[i][NDIRECT + 1 + e];
    if b != 0 {
      SlotMarked(nmeta, bitmap, table, owner, i, NDIRECT + 1 + e);
      DetachOwned(nmeta, bitmap, table, owner, i, NDIRECT + 1 + e);
      EmptySlotShows(data, table, content, i, NDIRECT + 1 + e);
      assert Put(table, i, NDIRECT + 1 + e, 0)[i][..NDIRECT + 1] == table[i][..NDIRECT + 1];
    }
  }

  /** itrunc frees the indirect block itself: no slot of the inode is left. */
  lemma DetachIndirect(nmeta: nat, bitmap: seq<bool>, data: seq<Block>, inodes: seq<Inode>, table: seq<seq<nat>>,
        owner: map<nat, Loc>, content: seq<seq<Byte>>, i: nat)
    requires Freeing(nmeta, bitmap, data, inodes, table, owner, content, i, NINDIRECT)
    ensures table[i][NDIRECT] < |bitmap| && bitmap[table[i][NDIRECT]]
    ensures Whole(nmeta, bitmap[table[i][NDIRECT] := false], data,
            inodes[i := inodes[i].(addrs := inodes[i].addrs[NDIRECT := 0])],
              Put(table, i, NDIRECT, 0), owner - {table[i][NDIRECT]}, content)
    ensures forall k :: 0 <= k < SLOTS ==> Put(table, i, NDIRECT, 0)[i][k] == 0
  {
    hide Entries;
    SlotMarked(nmeta, bitmap, table, owner, i, NDIRECT);
    DetachOwned(nmeta, bitmap, table, owner, i, NDIRECT);
    EmptySlotShows(data, table, content, i, NDIRECT);
    var inodes', table' := inodes[i := inodes[i].(addrs := inodes[i].addrs[NDIRECT := 0])], Put(table, i, NDIRECT, 0);
    assert table'[i][NDIRECT + 1..] == seq(NINDIRECT, j => 0);
    assert inodes'[i].addrs == table'[i][..NDIRECT + 1];
    assert Stored(data, inodes'[i], table'[i]);
  }
}
