/** How a file system lies on disk (kernel/fs.h): blocks as words, bitmap blocks as bits, inode blocks as inodes, and
    what somebody reads who has nothing but the disk. */
module DiskImage {
  import BufferCache
  import opened FsBlocks
  import opened InodeLayer
  import opened LogRecovery

  type Block = FsBlocks.Block
  type Words = BufferCache.Block

  // ---------- Bytes and words ----------

  /** Byte r of a word. */
  function WordByte(w: nat, r: nat): Byte {
    if r == 0 then w % 0x100 else if r == 1 then w / 0x100 % 0x100
    else if r == 2 then w / 0x1_0000 % 0x100 else w / 0x100_0000 % 0x100
  }

  /** The bytes of a block are those of its words. */
  lemma WordBytes(b: Block, o: nat)
    requires o < BSIZE
    ensures WordByte(Entry(b, o / 4), o % 4) == b[o]
  {
    var j := o / 4;
    FourBytes(b[4 * j], b[4 * j + 1], b[4 * j + 2], b[4 * j + 3]);
    hide WordByte;
  }

  lemma FourBytes(b0: Byte, b1: Byte, b2: Byte, b3: Byte)
    ensures var w := b0 + 0x100 * b1 + 0x1_0000 * b2 + 0x100_0000 * b3;
      WordByte(w, 0) == b0 && WordByte(w, 1) == b1 && WordByte(w, 2) == b2 && WordByte(w, 3) == b3
  {
    var w: nat := b0 + 0x100 * b1 + 0x1_0000 * b2 + 0x100_0000 * b3;
    assert w / 0x100 == b1 + 0x100 * b2 + 0x1_0000 * b3;
    assert w / 0x1_0000 == b2 + 0x100 * b3;
    assert w / 0x100_0000 == b3;
  }

  // ---------- Bits and bytes ----------

  function Pow2(n: nat): (m: nat)
    ensures m > 0
  {
    if n == 0 then 1 else 2 * Pow2(n - 1)
  }

  function Bit(bitmap: seq<bool>, b: nat): nat {
    if b < |bitmap| && bitmap[b] then 1 else 0
  }

  /** The n bits from b on as a number, the first the least significant. */
  function Bits(bitmap: seq<bool>, b: nat, n: nat): (m: nat)
    ensures m < Pow2(n)
    decreases n
  {
    if n == 0 then 0 else Bit(bitmap, b) + 2 * Bits(bitmap, b + 1, n - 1)
  }

  lemma EightBits()
    ensures Pow2(8) == 256
  {
    assert Pow2(4) == 16;
  }

  /** Bitmap block number k. */
  function BitBytes(bitmap: seq<bool>, k: nat): Block {
    EightBits();
    seq(BSIZE, j requires 0 <= j => Bits(bitmap, k * BPB + 8 * j, 8))
  }

  /** v >> t. */
  function Shift(v: nat, t: nat): nat {
    if t == 0 then v else Shift(v / 2, t - 1)
  }

  /** The test of bit t finds it. */
  lemma {:induction false} MaskTest(bitmap: seq<bool>, b: nat, n: nat, t: nat)
    requires t < n
    ensures Shift(Bits(bitmap, b, n), t) % 2 == Bit(bitmap, b + t)
    decreases t
  {
    if t > 0 {
      assert Bits(bitmap, b, n) / 2 == Bits(bitmap, b + 1, n - 1);
      MaskTest(bitmap, b + 1, n - 1, t - 1);
    }
  }

  /** Setting a clear bit, or clearing a set one, with the mask 1 << t. */
  lemma {:induction false} MaskChange(bitmap: seq<bool>, b: nat, n: nat, t: nat)
    requires t < n && b + t < |bitmap|
    ensures !bitmap[b + t] ==> Bits(bitmap[b + t := true], b, n) == Bits(bitmap, b, n) + Pow2(t)
    ensures bitmap[b + t] ==> Bits(bitmap[b + t := false], b, n) == Bits(bitmap, b, n) - Pow2(t)
    decreases t
  {
    if t > 0 {
      MaskChange(bitmap, b + 1, n - 1, t - 1);
    } else {
      BitsOther(bitmap, bitmap[b := true], b + 1, n - 1);
      BitsOther(bitmap, bitmap[b := false], b + 1, n - 1);
    }
  }

  /** Bits that are the same give the same number. */
  lemma {:induction false} BitsOther(bitmap: seq<bool>, bitmap': seq<bool>, b: nat, n: nat)
    requires forall c :: b <= c < b + n ==> Bit(bitmap', c) == Bit(bitmap, c)
    ensures Bits(bitmap', b, n) == Bits(bitmap, b, n)
    decreases n
  {
    if n > 0 {
      BitsOther(bitmap, bitmap', b + 1, n - 1);
    }
  }

  lemma BlockOther(bitmap: seq<bool>, bitmap': seq<bool>, k: nat)
    requires |bitmap'| == |bitmap| && forall c :: 0 <= c < |bitmap| && c / BPB == k ==> bitmap'[c] == bitmap[c]
    ensures BitBytes(bitmap', k) == BitBytes(bitmap, k)
  {
    hide Bits;
    forall j | 0 <= j < BSIZE ensures Bits(bitmap', k * BPB + 8 * j, 8) == Bits(bitmap, k * BPB + 8 * j, 8) {
      assert forall c :: k * BPB + 8 * j <= c < k * BPB + 8 * j + 8 ==> c / BPB == k;
      BitsOther(bitmap, bitmap', k * BPB + 8 * j, 8);
    }
  }

  // ---------- The disk of a file system ----------

  /** Where the parts are: the log, the inodes, the bitmap and, from nmeta on, the data. */
  datatype Layout = Layout(start: nat, inodestart: nat, bmapstart: nat, nmeta: nat)

  ghost predicate LayoutOk(l: Layout, size: nat, ninodes: nat) {
    && l.start + LOGBLOCKS < l.inodestart && l.inodestart + ninodes / IPB < l.bmapstart
    && l.bmapstart + size / BPB < l.nmeta <= size
  }

  /** The k-th inode of an inode block; its first two words are not modelled. */
  ghost predicate InodeIn(block: Words, k: nat, ip: Inode)
    requires k < IPB
  {
    |ip.addrs| == NDIRECT + 1 && block[16 * k + 2] == ip.size && forall a :: 0 <= a <= NDIRECT ==>
          block[16 * k + 3 + a] == ip.addrs[a]
  }

  ghost predicate DataOn(d: Disk, l: Layout, data: seq<Block>) {
    |d| == |data| && forall b :: l.nmeta <= b < |d| ==> d[b] == Entries(data[b])
  }

  ghost predicate BitmapOn(d: Disk, l: Layout, bitmap: seq<bool>) {
    |d| == |bitmap| && l.bmapstart + |d| / BPB < |d| && forall k :: 0 <= k <= |d| / BPB ==>
          d[l.bmapstart + k] == Entries(BitBytes(bitmap, k))
  }

  ghost predicate InodesOn(d: Disk, l: Layout, inodes: seq<Inode>) {
    l.inodestart + |inodes| / IPB < |d| && forall i :: 0 <= i < |inodes| ==>
          InodeIn(d[l.inodestart + i / IPB], i % IPB, inodes[i])
  }

  /** The disk holds this file system. */
  ghost predicate Represents(d: Disk, l: Layout, s: Snapshot) {
    DataOn(d, l, s.data) && BitmapOn(d, l, s.bitmap) && InodesOn(d, l, s.inodes)
  }

  // ---------- Reading the disk ----------

  function WordAt(d: Disk, b: nat, w: nat): nat {
    if b < |d| && w < 256 then d[b][w] else 0
  }

  function DiskAddr(d: Disk, l: Layout, i: nat, a: nat): nat {
    WordAt(d, l.inodestart + i / IPB, 16 * (i % IPB) + 3 + a)
  }

  /** The number of block bn of file i: from the inode, or from its indirect block. */
  function DiskSlot(d: Disk, l: Layout, i: nat, bn: nat): nat {
    if bn < NDIRECT then DiskAddr(d, l, i, bn) else WordAt(d, DiskAddr(d, l, i, NDIRECT), bn - NDIRECT)
  }

  function DiskByte(d: Disk, l: Layout, i: nat, o: nat): Byte {
    WordByte(WordAt(d, DiskSlot(d, l, i, o / BSIZE), o % BSIZE / 4), o % 4)
  }

  /** The bytes of file i, for somebody who has the disk alone. */
  function DiskFile(d: Disk, l: Layout, i: nat): seq<Byte> {
    seq(WordAt(d, l.inodestart + i / IPB, 16 * (i % IPB) + 2), o requires 0 <= o => DiskByte(d, l, i, o))
  }

  lemma SlotOnDisk(d: Disk, l: Layout, s: Snapshot, i: nat, bn: nat)
    requires Represents(d, l, s) && Whole(l.nmeta, s.bitmap, s.data, s.inodes, s.table, s.owner, s.content)
    requires i < |s.inodes| == |s.table| && |s.table[i]| == SLOTS && bn < MAXFILE && s.table[i][SlotIx(bn)] != 0
    ensures DiskSlot(d, l, i, bn) == s.table[i][SlotIx(bn)]
  {
    hide BitmapOn, Entry, AllShow, Owned;
    assert Stored(s.data, s.inodes[i], s.table[i]);
    assert InodeIn(d[l.inodestart + i / IPB], i % IPB, s.inodes[i]);
    IndexBelow(l.inodestart, i, |s.inodes|);
    var row := s.table[i];
    if bn >= NDIRECT {
      assert row[NDIRECT + 1..][bn - NDIRECT] == row[SlotIx(bn)];
      assert row[NDIRECT] != 0;
      SlotMarked(l.nmeta, s.bitmap, s.table, s.owner, i, NDIRECT);
    }
  }

  lemma IndexBelow(start: nat, i: nat, n: nat)
    requires i < n
    ensures start + i / IPB <= start + n / IPB
  {
  }

  lemma ByteOnDisk(d: Disk, l: Layout, s: Snapshot, i: nat, o: nat)
    requires Represents(d, l, s) && Whole(l.nmeta, s.bitmap, s.data, s.inodes, s.table, s.owner, s.content)
    requires i < |s.inodes| == |s.table| == |s.content| && o < |s.content[i]|
    ensures DiskByte(d, l, i, o) == s.content[i][o]
  {
    hide BitmapOn, InodesOn, Entry, Owned, AllStored, DiskSlot, WordByte;
    assert Shows(s.data, s.table[i], s.content[i]);
    assert ByteIs(s.data, s.table[i], o, s.content[i][o]);
    var bn, b := o / BSIZE, s.table[i][SlotIx(o / BSIZE)];
    SlotOnDisk(d, l, s, i, bn);
    SlotMarked(l.nmeta, s.bitmap, s.table, s.owner, i, SlotIx(bn));
    WordBytes(s.data[b], o % BSIZE);
    assert o % BSIZE % 4 == o % 4;
  }

  /** Whoever reads the disk finds the bytes of every file. */
  lemma FilesOnDisk(d: Disk, l: Layout, s: Snapshot, i: nat)
    requires Represents(d, l, s) && Whole(l.nmeta, s.bitmap, s.data, s.inodes, s.table, s.owner, s.content)
    requires i < |s.inodes| == |s.content| && s.inodes[i].size == |s.content[i]|
    ensures DiskFile(d, l, i) == s.content[i]
  {
    hide DataOn, BitmapOn, DiskByte, Owned, AllStored, AllShow;
    assert |s.table| == |s.inodes| by {
      TableSize(l.nmeta, s);
    }
    assert InodeIn(d[l.inodestart + i / IPB], i % IPB, s.inodes[i]);
    IndexBelow(l.inodestart, i, |s.inodes|);
    forall o | 0 <= o < |s.content[i]| ensures DiskByte(d, l, i, o) == s.content[i][o] {
      ByteOnDisk(d, l, s, i, o);
    }
  }

  lemma TableSize(nmeta: nat, s: Snapshot)
    requires Whole(nmeta, s.bitmap, s.data, s.inodes, s.table, s.owner, s.content)
    ensures |s.table| == |s.inodes| == |s.content|
  {
  }

  // ---------- Another disk ----------

  /** Only blocks outside the log matter. */
  lemma SameOutsideLog(d: Disk, d': Disk, l: Layout, s: Snapshot)
    requires Represents(d, l, s) && SameHome(l.start, d, d') && LayoutOk(l, |d|, |s.inodes|)
    ensures Represents(d', l, s)
  {
    hide Entries, InodeIn, BitBytes;
    assert forall b :: l.inodestart <= b < |d| ==> d'[b] == d[b];
    forall k | 0 <= k <= |d| / BPB ensures d'[l.bmapstart + k] == Entries(BitBytes(s.bitmap, k)) {
    }
    forall i | 0 <= i < |s.inodes| ensures InodeIn(d'[l.inodestart + i / IPB], i % IPB, s.inodes[i]) {
      IndexBelow(l.inodestart, i, |s.inodes|);
    }
  }
}
