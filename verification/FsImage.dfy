/**
 The on-disk form of the file system (kernel/fs.h): how indirect blocks, inode
 blocks, the free map and data lie in blocks of 32-bit words, little-endian, and
 what the kernel reads back from such blocks.
 */
module FsImage {
  import opened Arith
  import opened Fs
  import Log

  /** 32-bit words per struct dinode */
  const DWORDS: nat := 16
  /** The word of a dinode that holds its size, after type, major, minor and nlink; addrs follow */
  const SIZEWORD: nat := 2

  // ----- writing -----

  function RawWord(blocks: Blocks, b: nat, k: nat): nat {
    FromBytes(Byte(blocks, b, 4 * k), Byte(blocks, b, 4 * k + 1),
      Byte(blocks, b, 4 * k + 2), Byte(blocks, b, 4 * k + 3))
  }

  function FromBytes(b0: bv8, b1: bv8, b2: bv8, b3: bv8): nat {
    Num(b0) + 256 * Num(b1) + 0x1_0000 * Num(b2) + 0x100_0000 * Num(b3)
  }

  function Num(x: bv8): (n: nat)
    ensures n < 256
  {
    x as nat
  }

  /** mkfs puts the inode blocks between the log and the free map. */
  predicate InodeBlock(sb: Super, b: nat) { sb.inodestart <= b < sb.bmapstart }

  /** The inode that word k of inode block b belongs to. */
  function InodeAt(sb: Super, b: nat, k: nat): nat
    requires sb.inodestart <= b
  {
    (b - sb.inodestart) * IPB + k / DWORDS
  }

  function InodeWord(x: Inode, k: nat): nat {
    if k == SIZEWORD then x.size else if SIZEWORD < k && k - 3 < |x.addrs| then x.addrs[k - 3] else 0
  }

  /** Word k of block b. Words of an inode block that stand for no known inode, or its type, come from the raw bytes. */
  function EncWord(sb: Super, d: Disk, b: nat, k: nat): nat {
    if b in d.files.inds then Word(d.files, b, k)
    else if InodeBlock(sb, b) && InodeAt(sb, b, k) in d.files.inodes && k % DWORDS >= SIZEWORD then
      InodeWord(d.files.inodes[InodeAt(sb, b, k)], k % DWORDS)
    else RawWord(d.blocks, b, k)
  }

  function EncBlock(sb: Super, d: Disk, b: nat): (v: Log.Block)
    ensures |v| == Log.BWORDS && forall k :: 0 <= k < Log.BWORDS ==> v[k] == EncWord(sb, d, b, k)
  {
    seq(Log.BWORDS, k requires 0 <= k => EncWord(sb, d, b, k))
  }

  /** The layout of mkfs: the log lies before the inode blocks, both are metadata, and the disk has the given size. */
  ghost predicate Fits(c: Log.Config, sb: Super, d: Disk) {
    && sb.size == |c.init| && c.start + c.size <= sb.inodestart <= sb.bmapstart
    && (forall b: nat :: InodeBlock(sb, b) || c.start <= b < c.start + c.size ==> Own(d.own, b).Meta?)
    && (forall i :: i in d.files.inodes ==> IBLOCK(sb, i) < sb.bmapstart)
  }

  /** Blocks m hold file system d; what is in free blocks does not matter. */
  ghost predicate Stored(c: Log.Config, sb: Super, d: Disk, m: seq<Log.Block>) {
    forall b: nat :: Log.Home(c, b) && !Own(d.own, b).Free? ==> Log.At(m, b) == EncBlock(sb, d, b)
  }

  // ----- reading -----

  function WordOf(m: seq<Log.Block>, b: nat, k: nat): nat {
    if k < |Log.At(m, b)| then Log.At(m, b)[k] else 0
  }

  function ByteOf(m: seq<Log.Block>, b: nat, i: nat): nat { NthByte(WordOf(m, b, i / 4), i % 4) }

  function NthByte(w: nat, j: nat): (x: nat)
    ensures x < 256
  {
    if j == 0 then w % 256 else if j == 1 then w / 256 % 256
      else if j == 2 then w / 0x1_0000 % 256 else w / 0x100_0000 % 256
  }

  /** The bit of block b in the free map on disk. */
  function DiskBit(sb: Super, m: seq<Log.Block>, b: nat): bool { Test(ByteOf(m, BBLOCK(sb, b), Cell(b)) as bv8, b) }

  /** Word k of the dinode of inode i. */
  function DinodeWord(sb: Super, m: seq<Log.Block>, i: nat, k: nat): nat {
    WordOf(m, IBLOCK(sb, i), i % IPB * DWORDS + k)
  }

  function DiskSize(sb: Super, m: seq<Log.Block>, i: nat): nat { DinodeWord(sb, m, i, SIZEWORD) }

  function DiskSlot(sb: Super, m: seq<Log.Block>, i: nat, k: nat): nat { DinodeWord(sb, m, i, 3 + k) }

  /** What bmap finds for block bn of file i, following the indirect block. */
  function DiskAddr(sb: Super, m: seq<Log.Block>, i: nat, bn: nat): nat {
    if bn < NDIRECT then DiskSlot(sb, m, i, bn)
    else if bn < MAXFILE && DiskSlot(sb, m, i, NDIRECT) != 0 then WordOf(m, DiskSlot(sb, m, i, NDIRECT), bn - NDIRECT)
    else 0
  }

  /** Byte p of file i. */
  function DiskByte(sb: Super, m: seq<Log.Block>, i: nat, p: nat): nat {
    if DiskAddr(sb, m, i, p / BSIZE) != 0 then ByteOf(m, DiskAddr(sb, m, i, p / BSIZE), p % BSIZE) else 0
  }

  lemma {:induction false} BytesBack(b0: bv8, b1: bv8, b2: bv8, b3: bv8)
    ensures var w := FromBytes(b0, b1, b2, b3);
      NthByte(w, 0) == Num(b0) && NthByte(w, 1) == Num(b1) && NthByte(w, 2) == Num(b2) && NthByte(w, 3) == Num(b3)
  {
    hide Num, NthByte;
    NatsBack(Num(b0), Num(b1), Num(b2), Num(b3));
  }

  lemma {:induction false} NatsBack(x0: nat, x1: nat, x2: nat, x3: nat)
    requires x0 < 256 && x1 < 256 && x2 < 256 && x3 < 256
    ensures var w := x0 + 256 * x1 + 0x1_0000 * x2 + 0x100_0000 * x3;
      NthByte(w, 0) == x0 && NthByte(w, 1) == x1 && NthByte(w, 2) == x2 && NthByte(w, 3) == x3
  {
    var w := x0 + 256 * x1 + 0x1_0000 * x2 + 0x100_0000 * x3;
    var w1 := x1 + 256 * x2 + 0x1_0000 * x3;
    Quotient(w, w1, x0, 256);
    Quotient(w1, x2 + 256 * x3, x1, 256);
    Quotient(w, x2 + 256 * x3, x0 + 256 * x1, 0x1_0000);
    Quotient(x2 + 256 * x3, x3, x2, 256);
    Quotient(w, x3, x0 + 256 * x1 + 0x1_0000 * x2, 0x100_0000);
  }

  /** Bytes of a block that is neither an indirect block nor an inode block. */
  lemma {:induction false} RawBack(sb: Super, d: Disk, m: seq<Log.Block>, b: nat, i: nat)
    requires Log.At(m, b) == EncBlock(sb, d, b) && b !in d.files.inds && !InodeBlock(sb, b) && i < BSIZE
    ensures ByteOf(m, b, i) == Num(Byte(d.blocks, b, i))
  {
    var k := i / 4;
    BytesBack(Byte(d.blocks, b, 4 * k), Byte(d.blocks, b, 4 * k + 1),
      Byte(d.blocks, b, 4 * k + 2), Byte(d.blocks, b, 4 * k + 3));
    hide NthByte, FromBytes, Byte;
    assert WordOf(m, b, k) == RawWord(d.blocks, b, k);
    assert i == 4 * k + i % 4;
  }

  /** Where the words of inode i lie. */
  lemma {:induction false} DinodePlace(sb: Super, i: nat, k: nat)
    requires k < DWORDS
    ensures var n := i % IPB * DWORDS + k;
      n < Log.BWORDS && n % DWORDS == k && InodeAt(sb, IBLOCK(sb, i), n) == i
  {
    Quotient(i % IPB * DWORDS + k, i % IPB, k, DWORDS);
  }

  lemma {:induction false} DinodeBack(c: Log.Config, sb: Super, d: Disk, m: seq<Log.Block>, i: nat, k: nat)
    requires Good(sb, d) && Fits(c, sb, d) && Stored(c, sb, d, m) && i in d.files.inodes && SIZEWORD <= k < DWORDS
    ensures DinodeWord(sb, m, i, k) == InodeWord(d.files.inodes[i], k)
  {
    hide IBLOCK, InodeAt, RawWord, InodeWord, BitmapExact, MapDown, MapUp;
    var b := IBLOCK(sb, i);
    DinodePlace(sb, i, k);
    BlockPlaces(sb, i);
    assert Own(d.own, b).Meta? && InodeBlock(sb, b);
    MetaHome(c, sb, d, b);
    hide Shape, Layout, Fits, Own;
  }

  lemma {:induction false} SlotBack(c: Log.Config, sb: Super, d: Disk, m: seq<Log.Block>, i: nat, k: nat)
    requires Good(sb, d) && Fits(c, sb, d) && Stored(c, sb, d, m) && i in d.files.inodes && k <= NDIRECT
    ensures DiskSlot(sb, m, i, k) == Slot(d.files, i, k)
  {
    DinodeBack(c, sb, d, m, i, 3 + k);
    hide DinodeWord, Stored, BitmapExact, MapDown, MapUp;
  }

  /** Blocks in use that are not metadata lie outside the log and the inode blocks. */
  lemma {:induction false} InUse(c: Log.Config, sb: Super, d: Disk, b: nat)
    requires Good(sb, d) && Fits(c, sb, d) && (Own(d.own, b).Data? || Own(d.own, b).Ind?)
    ensures Log.Home(c, b) && !InodeBlock(sb, b) && (b in d.files.inds <==> Own(d.own, b).Ind?)
  {
    hide BitmapExact, MapDown, MapUp, Layout;
    assert b in d.own;
  }

  lemma {:induction false} IndBack(c: Log.Config, sb: Super, d: Disk, m: seq<Log.Block>, b: nat, k: nat)
    requires Shape(sb, d) && Stored(c, sb, d, m) && Log.Home(c, b) && Own(d.own, b).Ind? && k < NINDIRECT
    ensures WordOf(m, b, k) == Word(d.files, b, k)
  {
    hide RawWord, InodeWord, Word, Own;
  }

  /** The kernel finds on the blocks the block map that they store, through direct and indirect blocks. */
  lemma {:induction false} AddrBack(c: Log.Config, sb: Super, d: Disk, m: seq<Log.Block>, i: nat, bn: nat)
    requires Good(sb, d) && Fits(c, sb, d) && Stored(c, sb, d, m) && i in d.files.inodes
    ensures DiskAddr(sb, m, i, bn) == Addr(d.files, i, bn)
  {
    hide DiskSlot, Slot, Own, Shape, Layout, Fits, MapUp, BitmapExact, Stored, Word, WordOf;
    if bn < NDIRECT {
      SlotBack(c, sb, d, m, i, bn);
    } else {
      SlotBack(c, sb, d, m, i, NDIRECT);
      var b := Slot(d.files, i, NDIRECT);
      if b != 0 && bn < MAXFILE {
        assert Own(d.own, b) == Ind(i);
        InUse(c, sb, d, b);
        IndBack(c, sb, d, m, b, bn - NDIRECT);
      }
    }
  }

  /**
   What the kernel reads from blocks that store d: sizes, block maps and bytes of
   every file, and the free map.
   */
  lemma {:induction false} ReadsBack(c: Log.Config, sb: Super, d: Disk, m: seq<Log.Block>, i: nat, p: nat)
    requires Good(sb, d) && Fits(c, sb, d) && Stored(c, sb, d, m) && i in d.files.inodes
    ensures DiskSize(sb, m, i) == d.files.inodes[i].size
    ensures DiskByte(sb, m, i, p) == Num(FByte(d, i, p))
  {
    DinodeBack(c, sb, d, m, i, SIZEWORD);
    AddrBack(c, sb, d, m, i, p / BSIZE);
    var b := Addr(d.files, i, p / BSIZE);
    hide DinodeWord, DiskAddr, Addr;
    if b != 0 {
      assert Own(d.own, b) == Data(i, p / BSIZE);
      InUse(c, sb, d, b);
      hide Own, Shape, Layout, Fits, MapDown, MapUp, BitmapExact, ByteOf, Byte;
      RawBack(sb, d, m, b, p % BSIZE);
    }
  }

  lemma {:induction false} FreeMap(c: Log.Config, sb: Super, d: Disk, m: seq<Log.Block>, b: nat)
    requires Good(sb, d) && Fits(c, sb, d) && Stored(c, sb, d, m) && b < sb.size
    ensures var q := BBLOCK(sb, b); Log.At(m, q) == EncBlock(sb, d, q) && q !in d.files.inds && !InodeBlock(sb, q)
  {
    hide BBLOCK, MapDown, MapUp, BitmapExact, EncBlock;
    var q := BBLOCK(sb, b);
    BlockPlaces(sb, b);
    assert Own(d.own, q).Meta?;
    MetaHome(c, sb, d, q);
  }

  lemma {:induction false} BlockPlaces(sb: Super, b: nat)
    ensures sb.bmapstart <= BBLOCK(sb, b) && sb.inodestart <= IBLOCK(sb, b)
  {
  }

  lemma {:induction false} MetaHome(c: Log.Config, sb: Super, d: Disk, b: nat)
    requires Shape(sb, d) && Fits(c, sb, d) && Own(d.own, b).Meta? && sb.inodestart <= b
    ensures Log.Home(c, b) && b !in d.files.inds
  {
    assert b in d.own;
  }

  lemma {:induction false} BitBack(c: Log.Config, sb: Super, d: Disk, m: seq<Log.Block>, b: nat)
    requires Good(sb, d) && Fits(c, sb, d) && Stored(c, sb, d, m) && b < sb.size
    ensures DiskBit(sb, m, b) == BitAt(d.blocks, sb, b) == !Own(d.own, b).Free?
  {
    var q := BBLOCK(sb, b);
    FreeMap(c, sb, d, m, b);
    Places(b);
    hide BBLOCK, Cell, Test, Byte, ByteOf, MapDown, MapUp, EncBlock, Num, Stored, Fits, Layout, Shape, Own;
    RawBack(sb, d, m, q, Cell(b));
    SameBits(Byte(d.blocks, q, Cell(b)));
  }

  lemma {:induction false} SameBits(x: bv8)
    ensures Num(x) as bv8 == x
  {
  }

  // ----- iupdate -----

  function WithInode(d: Disk, i: nat, x: Inode): Disk { d.(files := d.files.(inodes := d.files.inodes[i := x])) }

  /** Storing inode i changes the words of its own dinode, and of no other inode and no other block. */
  lemma {:induction false} IupdateWords(sb: Super, d: Disk, i: nat, x: Inode, b: nat, k: nat)
    requires i in d.files.inodes && IBLOCK(sb, i) < sb.bmapstart && IBLOCK(sb, i) !in d.files.inds && k < Log.BWORDS
    ensures var n := i % IPB * DWORDS;
      EncWord(sb, WithInode(d, i, x), b, k) ==
        if b == IBLOCK(sb, i) && n + SIZEWORD <= k < n + DWORDS then InodeWord(x, k - n) else EncWord(sb, d, b, k)
  {
    var n := i % IPB * DWORDS;
    if InodeBlock(sb, b) {
      var q := InodeAt(sb, b, k);
      Quotient(q, b - sb.inodestart, k / DWORDS, IPB);
      assert q == i <==> b == IBLOCK(sb, i) && k / DWORDS == i % IPB;
      hide InodeAt, IBLOCK, RawWord, InodeWord;
    } else {
      assert b != IBLOCK(sb, i);
    }
  }

  /**
   iupdate: size and addrs go to their place in the buffer of the inode block;
   the other inodes of the block keep theirs.
   */
  method Iupdate(sb: Super, ghost d: Disk, i: nat, x: Inode, bp: array<nat>)
    requires Shape(sb, d) && i in d.files.inodes && |x.addrs| == NDIRECT + 1
    requires IBLOCK(sb, i) < sb.bmapstart && IBLOCK(sb, i) !in d.files.inds
    requires bp.Length == Log.BWORDS && bp[..] == EncBlock(sb, d, IBLOCK(sb, i))
    modifies bp
    ensures bp[..] == EncBlock(sb, WithInode(d, i, x), IBLOCK(sb, i))
  {
    hide IBLOCK, EncWord, Shape;
    var n := i % IPB * DWORDS;
    DinodePlace(sb, i, 0);
    bp[n + SIZEWORD] := x.size;
    var j := 0;
    while j <= NDIRECT
      invariant j <= NDIRECT + 1
      invariant forall k :: 0 <= k < Log.BWORDS ==>
        bp[k] == if n + SIZEWORD <= k < n + 3 + j then InodeWord(x, k - n) else EncWord(sb, d, IBLOCK(sb, i), k)
    {
      bp[n + 3 + j] := x.addrs[j];
      j := j + 1;
    }
    forall k | 0 <= k < Log.BWORDS ensures bp[k] == EncWord(sb, WithInode(d, i, x), IBLOCK(sb, i), k) {
      IupdateWords(sb, d, i, x, IBLOCK(sb, i), k);
    }
    hide InodeWord, WithInode;
  }
}
