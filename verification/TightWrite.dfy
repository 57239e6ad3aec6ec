/** The bound on the blocks of a transaction is met: an image, in order, whose four free blocks lie under four
    different bitmap blocks, and a write of three blocks' worth of bytes that logs MAXOPBLOCKS blocks.  The write
    starts inside block 10 of a file that has no indirect block yet. */
module TightWrite {
  import opened BufferCache
  import opened FsBlocks
  import opened InodeLayer
  import opened DiskImage

  type Block = FsBlocks.Block

  const META: nat := 46
  const BMAPSTART: nat := 41
  const INODESTART: nat := 33
  const FILES: nat := 124
  const LAST: nat := 123
  const SIZE: nat := 33144

  /** The free blocks. */
  predicate Gap(b: nat) {
    b == 46 || b == 8192 || b == 16384 || b == 24576
  }

  /** Slot k of inode i holds this block, unless it is a free one. */
  function SlotBlock(i: nat, k: nat): nat {
    META + SLOTS * i + k
  }

  function SlotOf(i: nat, k: nat): nat {
    if i < LAST then (if Gap(SlotBlock(i, k)) then 0 else SlotBlock(i, k)) else if k <= 10 then SlotBlock(LAST, k)
        else 0
  }

  function Row(i: nat): (row: seq<nat>)
    ensures |row| == SLOTS && forall k :: 0 <= k < SLOTS ==> row[k] == SlotOf(i, k)
  {
    seq(SLOTS, k requires 0 <= k < SLOTS => SlotOf(i, k))
  }

  /** A block with these entries. */
  function Packed(es: seq<nat>): (b: Block)
    requires |es| == NINDIRECT
  {
    seq(BSIZE, j requires 0 <= j < BSIZE => WordByte(es[j / 4], j % 4))
  }

  lemma PackedEntry(es: seq<nat>, j: nat)
    requires |es| == NINDIRECT && j < NINDIRECT && es[j] < TWO32
    ensures Entry(Packed(es), j) == es[j]
  {
    var e := es[j];
    assert 4 * j / 4 == (4 * j + 1) / 4 == (4 * j + 2) / 4 == (4 * j + 3) / 4 == j;
    assert 4 * j % 4 == 0 && (4 * j + 1) % 4 == 1 && (4 * j + 2) % 4 == 2 && (4 * j + 3) % 4 == 3;
    assert e / 0x1_0000 == e / 0x100 / 0x100 && e / 0x100_0000 == e / 0x100 / 0x100 / 0x100;
  }

  lemma PackedEntries(es: seq<nat>)
    requires |es| == NINDIRECT && forall j :: 0 <= j < NINDIRECT ==> es[j] < TWO32
    ensures Entries(Packed(es)) == es
  {
    hide Entry, Packed;
    forall j | 0 <= j < NINDIRECT ensures Entries(Packed(es))[j] == es[j] {
      PackedEntry(es, j);
    }
  }

  function BlockAt(image: Block, b: nat): Block {
    if b >= META && (b - META) % SLOTS == NDIRECT then Packed(Row((b - META) / SLOTS)[NDIRECT + 1..]) else Zeroed(image)
  }

  function Bitmap(): (s: seq<bool>)
    ensures |s| == SIZE && forall b :: 0 <= b < SIZE ==> s[b] == !Gap(b)
  {
    seq(SIZE, b requires 0 <= b < SIZE => !Gap(b))
  }

  function Data(image: Block): (s: seq<Block>)
    ensures |s| == SIZE && forall b :: 0 <= b < SIZE ==> s[b] == BlockAt(image, b)
  {
    seq(SIZE, b requires 0 <= b < SIZE => BlockAt(image, b))
  }

  function Rows(): (s: seq<seq<nat>>)
    ensures |s| == FILES && forall i :: 0 <= i < FILES ==> s[i] == Row(i)
  {
    seq(FILES, i requires 0 <= i < FILES => Row(i))
  }

  function FileAt(i: nat): Inode {
    Inode(if i == LAST then 10 * BSIZE + 1 else 0, Row(i)[..NDIRECT + 1])
  }

  function Inodes(): (s: seq<Inode>)
    ensures |s| == FILES && forall i :: 0 <= i < FILES ==> s[i] == FileAt(i)
  {
    seq(FILES, i requires 0 <= i < FILES => FileAt(i))
  }

  function Zeros(n: nat): (s: seq<Byte>)
    ensures |s| == n && forall o :: 0 <= o < n ==> s[o] == 0
  {
    seq(n, o => 0)
  }

  function Contents(): (s: seq<seq<Byte>>)
    ensures |s| == FILES && forall i :: 0 <= i < FILES ==> s[i] == Zeros(if i == LAST then 10 * BSIZE + 1 else 0)
  {
    seq(FILES, i => Zeros(if i == LAST then 10 * BSIZE + 1 else 0))
  }

  function LocOf(b: nat): Loc
    requires b >= META
  {
    Loc((b - META) / SLOTS, (b - META) % SLOTS)
  }

  function Owners(): (m: map<nat, Loc>)
    ensures forall b :: b in m <==> META <= b < SIZE && !Gap(b)
    ensures forall b :: b in m ==> m[b] == LocOf(b)
  {
    map b | META <= b < SIZE && !Gap(b) :: LocOf(b)
  }

  // ---------- The image is in order ----------

  lemma LocRow(b: nat)
    requires META <= b < SIZE && !Gap(b)
    ensures var at := LocOf(b); at.ino < FILES && at.slot < SLOTS && SlotOf(at.ino, at.slot) == b
  {
  }

  lemma RowLoc(i: nat, k: nat)
    requires i < FILES && k < SLOTS && SlotOf(i, k) != 0
    ensures META <= SlotOf(i, k) < SIZE && !Gap(SlotOf(i, k)) && LocOf(SlotOf(i, k)) == Loc(i, k)
  {
  }

  lemma ImageOwned()
    ensures Owned(META, Bitmap(), Rows(), Owners())
  {
    hide Row, Bitmap, Rows, Owners, Gap, SlotOf, LocOf;
    MetaUsed();
    forall b | b in Owners() ensures OwnedBy(META, Bitmap(), Rows(), b, Owners()[b]) {
      LocRow(b);
    }
    forall i, k | 0 <= i < |Rows()| && 0 <= k < |Rows()[i]| ensures SlotOwned(Rows(), Owners(), i, k) {
      if SlotOf(i, k) != 0 {
        RowLoc(i, k);
      }
    }
  }

  lemma MetaUsed()
    ensures forall b: nat :: b < META ==> !Gap(b)
  {
  }

  lemma ImageStored(image: Block, i: nat)
    requires i < FILES
    ensures Stored(Data(image), FileAt(i), Row(i))
  {
    hide Row, Data, Gap, Packed, Entries;
    IndirectSlot(i);
    var row := Row(i);
    if i < LAST {
      assert row[NDIRECT] == SlotBlock(i, NDIRECT);
      assert (SlotBlock(i, NDIRECT) - META) % SLOTS == NDIRECT && (SlotBlock(i, NDIRECT) - META) / SLOTS == i;
      PackedEntries(row[NDIRECT + 1..]);
    } else {
      assert row[NDIRECT + 1..] == seq(NINDIRECT, j => 0);
    }
  }

  lemma IndirectSlot(i: nat)
    requires i < FILES
    ensures i < LAST ==> SlotOf(i, NDIRECT) == SlotBlock(i, NDIRECT) < SIZE
    ensures i == LAST ==> forall k :: NDIRECT <= k < SLOTS ==> SlotOf(i, k) == 0
    ensures forall k :: 0 <= k < SLOTS ==> SlotOf(i, k) < TWO32
  {
  }

  lemma ImageShows(image: Block, i: nat)
    requires i < FILES
    ensures Shows(Data(image), Row(i), Zeros(if i == LAST then 10 * BSIZE + 1 else 0))
  {
    hide Row, Data, Packed, Zeros;
    if i == LAST {
      forall o | 0 <= o < 10 * BSIZE + 1 ensures ByteIs(Data(image), Row(LAST), o, 0) {
        LastByte(image, o);
      }
    }
  }

  lemma LastByte(image: Block, o: nat)
    requires o < 10 * BSIZE + 1
    ensures ByteIs(Data(image), Row(LAST), o, 0)
  {
    hide Row, Data, Packed, Gap;
    var k := o / BSIZE;
    assert SlotIx(k) == k <= 10 && SlotOf(LAST, k) == SlotBlock(LAST, k) && (SlotBlock(LAST, k) - META) % SLOTS == k;
  }

  lemma ImageWhole(image: Block)
    ensures Whole(META, Bitmap(), Data(image), Inodes(), Rows(), Owners(), Contents())
  {
    hide Bitmap, Data, Inodes, Rows, Owners, Contents, Owned, Stored, Shows, Row, FileAt, Zeros;
    ImageOwned();
    forall i | 0 <= i < FILES ensures Stored(Data(image), Inodes()[i], Rows()[i])
        && Shows(Data(image), Rows()[i], Contents()[i]) {
      ImageStored(image, i);
      ImageShows(image, i);
    }
  }

  // ---------- The write ----------

  /** A file system that was the image, in which only inode LAST has gained blocks. */
  ghost predicate Later(image: Block, s: Snapshot) {
    && Whole(META, s.bitmap, s.data, s.inodes, s.table, s.owner, s.content) && |s.bitmap| == SIZE
    && |s.table| == FILES && s.table == Rows()[LAST := s.table[LAST]] && Extended(Row(LAST), s.table[LAST], 10, 4)
  }

  /** A slot that was empty holds one of the free blocks. */
  lemma NewIsGap(image: Block, s: Snapshot, k: nat)
    requires Later(image, s) && k < SLOTS && Row(LAST)[k] == 0 && s.table[LAST][k] != 0
    ensures Gap(s.table[LAST][k])
  {
    hide Row, Rows, Gap, AllStored, AllShow, Extended, SlotOf, LocOf;
    var row := s.table[LAST];
    ExtendedFacts(Row(LAST), row);
    var b := row[k];
    assert SlotOwned(s.table, s.owner, LAST, k);
    if !Gap(b) {
      LocRow(b);
      var at := LocOf(b);
      assert s.table[at.ino][at.slot] == b;
      SlotsDiffer(META, s.bitmap, s.table, s.owner, LAST, k, at.ino, at.slot);
    }
  }

  lemma ExtendedFacts(row0: seq<nat>, row: seq<nat>)
    requires Extended(row0, row, 10, 4)
    ensures |row0| == |row| == SLOTS && (forall s :: 0 <= s < SLOTS && row0[s] != 0 ==> row[s] == row0[s])
    ensures forall s :: 0 <= s < SLOTS && s != 11 && s != 12 && s != 13 && s != 14 && s != 10 ==> row[s] == row0[s]
    ensures row[13] != 0 || row[14] != 0 ==> row[12] != 0
  {
  }

  lemma LastRow()
    ensures |Row(LAST)| == SLOTS && Row(LAST)[10] == 33143
    ensures Row(LAST)[11] == Row(LAST)[12] == Row(LAST)[13] == Row(LAST)[14] == 0
  {
  }

  /** If the disk is full, each free block is in one of the four slots. */
  lemma GapUsed(image: Block, s: Snapshot, b: nat) returns (k: nat)
    requires Later(image, s) && Full(s.bitmap) && Gap(b)
    ensures 11 <= k <= 14 && s.table[LAST][k] == b
  {
    hide Row, Rows, AllStored, AllShow, Extended;
    GapRange(b);
    LastRow();
    ExtendedFacts(Row(LAST), s.table[LAST]);
    var at := s.owner[b];
    assert OwnedBy(META, s.bitmap, s.table, b, at);
    k := at.slot;
    if at.ino != LAST || k < 11 || k > 14 {
      assert Rows()[at.ino][k] == b;
      RowLoc(at.ino, k);
      assert false;
    }
  }

  lemma GapRange(b: nat)
    requires Gap(b)
    ensures META <= b < SIZE
  {
  }

  /** A full disk means that all four slots are filled. */
  lemma FullFills(image: Block, s: Snapshot)
    requires Later(image, s) && Full(s.bitmap)
    ensures |s.table[LAST]| == SLOTS
    ensures s.table[LAST][11] != 0 && s.table[LAST][12] != 0 && s.table[LAST][13] != 0 && s.table[LAST][14] != 0
  {
    hide Later, Full;
    var a := GapUsed(image, s, 46);
    var b := GapUsed(image, s, 8192);
    var c := GapUsed(image, s, 16384);
    var d := GapUsed(image, s, 24576);
    LaterRow(image, s);
    assert a != b && a != c && a != d && b != c && b != d && c != d;
  }

  lemma LaterRow(image: Block, s: Snapshot)
    requires Later(image, s)
    ensures |s.table| == FILES && |s.table[LAST]| == SLOTS && Extended(Row(LAST), s.table[LAST], 10, 4)
    ensures Owned(META, s.bitmap, s.table, s.owner) && AllShow(s.data, s.table, s.content)
  {
  }

  /** The four new blocks are the four free ones, so their bitmap blocks differ too. */
  lemma FourNew(image: Block, s: Snapshot)
    requires Later(image, s)
    requires |s.table[LAST]| == SLOTS && s.table[LAST][11] != 0 && s.table[LAST][13] != 0 && s.table[LAST][14] != 0
    ensures var row := s.table[LAST];
      && row[10] == 33143 && Gap(row[11]) && Gap(row[12]) && Gap(row[13]) && Gap(row[14])
      && row[11] != row[12] && row[11] != row[13] && row[11] != row[14] && row[12] != row[13] && row[12] != row[14]
          && row[13] != row[14]
  {
    hide Later, Row, Gap, Owned;
    LaterRow(image, s);
    LastRow();
    var row := s.table[LAST];
    ExtendedFacts(Row(LAST), row);
    NewIsGap(image, s, 11);
    NewIsGap(image, s, 12);
    NewIsGap(image, s, 13);
    NewIsGap(image, s, 14);
    forall k, l | 11 <= k < l <= 14 ensures row[k] != row[l] {
      if row[k] == row[l] {
        SlotsDiffer(META, s.bitmap, s.table, s.owner, LAST, k, LAST, l);
      }
    }
  }

  /** Ten blocks: the old data block, the four new ones, their bitmap blocks and the inode's block. */
  lemma TenBlocks(row0: seq<nat>, row: seq<nat>)
    requires |row0| == |row| == SLOTS && row0[10] != 0 && row0[11] == row0[12] == row0[13] == row0[14] == 0
             && row[10] == 33143
    requires Gap(row[11]) && Gap(row[12]) && Gap(row[13]) && Gap(row[14])
    requires row[11] != row[12] && row[11] != row[13] && row[11] != row[14] && row[12] != row[13] && row[12] != row[14]
             && row[13] != row[14]
    ensures |LoggedBy(BMAPSTART, row0, row, 10, 4, false) + {40}| == MAXOPBLOCKS
  {
    hide LoggedBy, BBlock, Gap, NewBlocks, NewMaps;
    FourGaps(row);
    FourRounds(row0, row);
    var news, maps := NewBlocks(row), NewMaps(row);
    CountTen(news, maps, 33143, 40);
    assert LoggedBy(BMAPSTART, row0, row, 10, 4, false) + {40} == news + maps + {33143} + {40};
  }

  ghost function NewBlocks(row: seq<nat>): set<nat>
    requires |row| == SLOTS
  {
    {row[11], row[12], row[13], row[14]}
  }

  ghost function NewMaps(row: seq<nat>): set<nat>
    requires |row| == SLOTS
  {
    {BBlock(BMAPSTART, row[11]), BBlock(BMAPSTART, row[12]), BBlock(BMAPSTART, row[13]), BBlock(BMAPSTART, row[14])}
  }

  lemma CountTen(a: set<nat>, b: set<nat>, x: nat, y: nat)
    requires |a| == |b| == 4 && a !! b && x !in a && x !in b && y !in a && y !in b && x != y
    ensures |a + b + {x} + {y}| == 10
  {
  }

  lemma FourGaps(row: seq<nat>)
    requires |row| == SLOTS && Gap(row[11]) && Gap(row[12]) && Gap(row[13]) && Gap(row[14])
    requires row[11] != row[12] && row[11] != row[13] && row[11] != row[14] && row[12] != row[13] && row[12] != row[14]
             && row[13] != row[14]
    ensures row[11] != 0 && row[12] != 0 && row[13] != 0 && row[14] != 0
    ensures |NewBlocks(row)| == 4 && forall b :: b in NewBlocks(row) ==> 46 <= b < 33143
    ensures |NewMaps(row)| == 4 && forall b :: b in NewMaps(row) ==> 41 <= b < 46
  {
    var a, b, c, d := row[11], row[12], row[13], row[14];
    assert a / BPB != b / BPB && a / BPB != c / BPB && a / BPB != d / BPB && b / BPB != c / BPB && b / BPB != d / BPB
           && c / BPB != d / BPB;
    FourDistinct(a, b, c, d);
    FourDistinct(BBlock(BMAPSTART, a), BBlock(BMAPSTART, b), BBlock(BMAPSTART, c), BBlock(BMAPSTART, d));
  }

  lemma FourDistinct(a: nat, b: nat, c: nat, d: nat)
    requires a != b && a != c && a != d && b != c && b != d && c != d
    ensures |{a, b, c, d}| == 4
  {
  }

  lemma FourRounds(row0: seq<nat>, row: seq<nat>)
    requires |row0| == |row| == SLOTS && row0[10] != 0 && row0[11] == row0[12] == row0[13] == row0[14] == 0
    requires row[11] != 0 && row[12] != 0 && row[13] != 0 && row[14] != 0
    ensures LoggedBy(BMAPSTART, row0, row, 10, 4, false) ==
            {row[10]} + NewBlocks(row) + NewMaps(row)
  {
    hide BBlock, WrittenLog;
    WrittenMore(BMAPSTART, row0, row, 10, 3);
    WrittenMore(BMAPSTART, row0, row, 10, 2);
    WrittenMore(BMAPSTART, row0, row, 10, 1);
    WrittenMore(BMAPSTART, row0, row, 10, 0);
    WrittenNone(BMAPSTART, row0, row, 10);
  }

  lemma Outcome(image: Block, s: Snapshot, src: seq<Byte>, r: nat, inode: nat)
    requires |src| == 3 * BSIZE && r <= |src| && inode == 40
    requires Whole(META, s.bitmap, s.data, s.inodes, s.table, s.owner, s.content) && |s.bitmap| == SIZE
    requires LogIs(BMAPSTART, Rows(), s.table, LAST, 10, BlocksOf(10 * BSIZE + 1, r), r < |src|, inode, s.logged)
    requires WrotePrefix(Contents(), s.content, LAST, 10 * BSIZE + 1, src, r)
    requires r < |src| ==>
               BlocksOf(10 * BSIZE + 1, r) < 4 && Full(s.bitmap)
               && Unfilled(s.table[LAST], 10 + BlocksOf(10 * BSIZE + 1, r))
    ensures r == |src| && |s.logged| == MAXOPBLOCKS
  {
    hide Row, Rows, Whole, Full, Contents, LoggedBy;
    var k := BlocksOf(10 * BSIZE + 1, r);
    assert k <= 4 && BlocksOf(10 * BSIZE + 1, 3 * BSIZE) == 4;
    var row := s.table[LAST];
    MoreExtended(Row(LAST), row, if r < |src| then k + 1 else k);
    IsLater(image, s);
    hide LogIs, Later, Extended, BlocksOf;
    if r < |src| {
      FullFills(image, s);
      assert false;
    }
    LastRow();
    NowMapped(image, s, src);
    FourNew(image, s);
    TenBlocks(Row(LAST), row);
  }

  /** The blocks of the bytes written are mapped. */
  lemma NowMapped(image: Block, s: Snapshot, src: seq<Byte>)
    requires Later(image, s) && |src| == 3 * BSIZE && WrotePrefix(Contents(), s.content, LAST, 10 * BSIZE + 1, src,
             |src|)
    ensures |s.table[LAST]| == SLOTS && s.table[LAST][11] != 0 && s.table[LAST][13] != 0 && s.table[LAST][14] != 0
  {
    hide Later, Contents, WrotePrefix, AllShow, Owned, Extended, Shows;
    LaterRow(image, s);
    WroteEnd(Contents(), s.content, LAST, 10 * BSIZE + 1, src, |src|);
    MappedThere(s.data, s.table, s.content, 11);
    MappedThere(s.data, s.table, s.content, 12);
    MappedThere(s.data, s.table, s.content, 13);
  }

  lemma MappedThere(data: seq<Block>, table: seq<seq<nat>>, content: seq<seq<Byte>>, bn: nat)
    requires AllShow(data, table, content) && |table| == FILES && |content[LAST]| > bn * BSIZE && bn < MAXFILE
    ensures |table[LAST]| == SLOTS && table[LAST][SlotIx(bn)] != 0
  {
    assert Shows(data, table[LAST], content[LAST]);
    assert ByteIs(data, table[LAST], bn * BSIZE, content[LAST][bn * BSIZE]);
    assert bn * BSIZE / BSIZE == bn;
  }

  /** Such a file system, and a write that logs as many blocks as an operation may. */
  method BoundIsTight(src: seq<Byte>, image: Block) returns (fs: FileSystem, r: int)
    requires |src| == 3 * BSIZE
    ensures fs.Valid() && r == |src| && |fs.logged| == MAXOPBLOCKS
  {
    hide Bitmap, Data, Inodes, Rows, Contents, Whole, LogIs, WrotePrefix, Full, Unfilled, Covers, FileAt, Zeros;
    ImageWhole(image);
    ImageSizes();
    fs := new FileSystem.Mount(META, BMAPSTART, INODESTART, Snapshot(Bitmap(), Data(image), Inodes(), Rows(), Owners(),
        Contents(), {}));
    r := fs.Writei(LAST, 10 * BSIZE + 1, src, MAXFILE);
    assert IBlock(INODESTART, LAST) == 40;
    CoversSizes(Snapshot(Bitmap(), Data(image), Inodes(), Rows(), Owners(), Contents(), {}), fs.Now(), BMAPSTART, LAST);
    Outcome(image, fs.Now(), src, r, 40);
  }

  lemma ImageSizes()
    ensures |Inodes()| == |Contents()| == FILES && forall i :: 0 <= i < FILES ==> Inodes()[i].size == |Contents()[i]|
    ensures |Contents()[LAST]| == 10 * BSIZE + 1
  {
    hide Inodes, Contents, Row;
  }

  lemma MoreExtended(row0: seq<nat>, row: seq<nat>, k: nat)
    requires Extended(row0, row, 10, k) && k <= 4
    ensures Extended(row0, row, 10, 4)
  {
  }

  lemma IsLater(image: Block, s: Snapshot)
    requires Whole(META, s.bitmap, s.data, s.inodes, s.table, s.owner, s.content) && |s.bitmap| == SIZE
    requires |s.table| == FILES && s.table == Rows()[LAST := s.table[LAST]] && Extended(Row(LAST), s.table[LAST], 10, 4)
    ensures Later(image, s)
  {
  }
}
