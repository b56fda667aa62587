/**
 Inodes, the block map and the block allocator of kernel/fs.c, over the plain
 map of blocks that the log provides. A history variable gives every block its
 one owner; the bitmap must agree with it bit by bit.
 */
module Fs {
  import opened Arith

  const BSIZE: nat := 1024
  /** Bits per bitmap block */
  const BPB: nat := BSIZE * 8
  const NDIRECT: nat := 12
  const NINDIRECT: nat := 256
  const MAXFILE: nat := NDIRECT + NINDIRECT
  /** Inodes per block: BSIZE / sizeof(struct dinode) */
  const IPB: nat := 16

  datatype Super = Super(size: nat, inodestart: nat, bmapstart: nat)

  function BBLOCK(sb: Super, b: nat): nat { b / BPB + sb.bmapstart }
  function IBLOCK(sb: Super, inum: nat): nat { inum / IPB + sb.inodestart }

  datatype Owner =
    | Free
    | Meta
    | Held                      // between balloc and its use in the block map
    | Data(inum: nat, bn: nat)  // bn-th block of the file
    | Ind(inum: nat)            // the indirect block of the file
    | NoBlock

  datatype Inode = Inode(size: nat, addrs: seq<nat>)

  type Blocks = map<nat, seq<bv8>>
  type Owners = map<nat, Owner>

  /** Block contents, the block maps of the files, and who owns which block. */
  datatype Disk = Disk(blocks: Blocks, files: Files, own: Owners)

  /** Indirect blocks, seen as block numbers, and inodes. */
  datatype Files = Files(inds: map<nat, seq<nat>>, inodes: map<nat, Inode>)

  function Own(o: Owners, b: nat): Owner { if b in o then o[b] else NoBlock }

  function Byte(blocks: Blocks, b: nat, i: nat): bv8 {
    if b in blocks && i < |blocks[b]| then blocks[b][i] else 0
  }

  // ----- the bitmap -----

  /** 1 << (bi % 8) */
  function Mask(k: nat): bv8 {
    var j := k % 8;
    if j == 0 then 1 else if j == 1 then 2 else if j == 2 then 4 else if j == 3 then 8
    else if j == 4 then 16 else if j == 5 then 32 else if j == 6 then 64 else 128
  }

  function Test(x: bv8, k: nat): bool { x & Mask(k) != 0 }

  /** x | m and x & ~m */
  function Flip(x: bv8, k: nat, on: bool): bv8 { if on then x | Mask(k) else x & !Mask(k) }

  lemma {:induction false} FlipTest(x: bv8, k: nat, on: bool, j: nat)
    ensures Test(Flip(x, k, on), j) == if j % 8 == k % 8 then on else Test(x, j)
  {
  }

  /** The byte of its bitmap block that holds the bit of block b: bi / 8 */
  function Cell(b: nat): nat { b % BPB / 8 }

  /** The bit of block b in the free map. */
  function BitAt(blocks: Blocks, sb: Super, b: nat): bool {
    Test(Byte(blocks, BBLOCK(sb, b), Cell(b)), b)
  }

  /** Blocks with byte i of block b replaced. */
  function SetByte(blocks: Blocks, b: nat, i: nat, x: bv8): Blocks {
    if b in blocks && i < |blocks[b]| then blocks[b := blocks[b][i := x]] else blocks
  }

  lemma {:induction false} SetByteAt(blocks: Blocks, b: nat, i: nat, x: bv8)
    requires b in blocks && i < |blocks[b]|
    ensures forall c: nat, k: nat ::
      Byte(SetByte(blocks, b, i, x), c, k) == if c == b && k == i then x else Byte(blocks, c, k)
  {
  }

  /** The free map after the bit of b is set or cleared. */
  function MarkBit(blocks: Blocks, sb: Super, b: nat, on: bool): Blocks {
    SetByte(blocks, BBLOCK(sb, b), Cell(b), Flip(Byte(blocks, BBLOCK(sb, b), Cell(b)), b, on))
  }

  /** Two blocks share a byte of the free map and a mask only if they are the same block. */
  lemma {:induction false} BitPlace(sb: Super, b: nat, c: nat)
    requires BBLOCK(sb, b) == BBLOCK(sb, c) && Cell(b) == Cell(c) && b % 8 == c % 8
    ensures b == c
  {
    Places(b);
    Places(c);
  }

  lemma {:induction false} Places(b: nat)
    ensures b == b / BPB * BPB + Cell(b) * 8 + b % 8 && Cell(b) < BSIZE
  {
    var q, r := b / BPB, b % BPB;
    Quotient(b, q * 1024 + r / 8, r % 8, 8);
  }

  lemma {:induction false} MarkBitAt(blocks: Blocks, sb: Super, b: nat, on: bool, c: nat)
    requires BBLOCK(sb, b) in blocks && |blocks[BBLOCK(sb, b)]| == BSIZE
    ensures BitAt(MarkBit(blocks, sb, b, on), sb, c) == if c == b then on else BitAt(blocks, sb, c)
  {
    var p, i := BBLOCK(sb, b), Cell(b);
    var x := Byte(blocks, p, i);
    Places(b);
    SetByteAt(blocks, p, i, Flip(x, b, on));
    FlipTest(x, b, on, c);
    hide Byte, SetByte, Test, Flip, Cell, BBLOCK;
    if BBLOCK(sb, c) == p && Cell(c) == i && c % 8 == b % 8 {
      BitPlace(sb, b, c);
    }
  }

  // ----- the block map -----

  function Word(f: Files, b: nat, j: nat): nat {
    if b in f.inds && j < |f.inds[b]| then f.inds[b][j] else 0
  }

  /** ip->addrs[k] */
  function Slot(f: Files, i: nat, k: nat): nat {
    if i in f.inodes && k < |f.inodes[i].addrs| then f.inodes[i].addrs[k] else 0
  }

  /** The block number of the bn-th block of file i, 0 if there is none. */
  function Addr(f: Files, i: nat, bn: nat): nat {
    if bn < NDIRECT then Slot(f, i, bn)
    else if bn < MAXFILE && Slot(f, i, NDIRECT) != 0 then Word(f, Slot(f, i, NDIRECT), bn - NDIRECT)
    else 0
  }

  /** Byte p of file i; what is not mapped reads as 0. */
  function FByte(d: Disk, i: nat, p: nat): bv8 {
    if Addr(d.files, i, p / BSIZE) != 0 then Byte(d.blocks, Addr(d.files, i, p / BSIZE), p % BSIZE) else 0
  }

  ghost predicate SameBytes(d: Disk, d': Disk) {
    forall i: nat, p: nat :: FByte(d', i, p) == FByte(d, i, p)
  }

  // ----- the invariant -----

  ghost predicate Shape(sb: Super, d: Disk) {
    && (forall b: nat :: b in d.own <==> b < sb.size)
    && (forall b: nat :: b < sb.size ==> b in d.blocks && |d.blocks[b]| == BSIZE)
    && (forall b: nat :: b in d.files.inds <==> Own(d.own, b).Ind?)
    && (forall b :: b in d.files.inds ==> |d.files.inds[b]| == NINDIRECT)
    && (forall i :: i in d.files.inodes ==> |d.files.inodes[i].addrs| == NDIRECT + 1)
  }

  /** Boot block, free map and inode blocks are metadata. */
  ghost predicate Layout(sb: Super, d: Disk) {
    && Own(d.own, 0).Meta?
    && (forall b: nat :: b < sb.size ==> Own(d.own, BBLOCK(sb, b)).Meta?)
    && (forall i :: i in d.files.inodes ==> Own(d.own, IBLOCK(sb, i)).Meta?)
  }

  /** The set bits of the free map are exactly the blocks that have an owner. */
  ghost predicate BitmapExact(sb: Super, blocks: Blocks, own: Owners) {
    forall b: nat :: b < sb.size ==> BitAt(blocks, sb, b) == !Own(own, b).Free?
  }

  /** The first n entries of the indirect block of file x are not to be trusted (itrunc is freeing them). */
  predicate Stale(i: nat, bn: nat, x: nat, n: nat) { i == x && NDIRECT <= bn < NDIRECT + n }

  /** Mapped blocks are owned by the position that maps them. */
  ghost predicate MapDown(d: Disk, x: nat, n: nat) {
    && (forall i: nat, bn: nat :: Addr(d.files, i, bn) != 0 && !Stale(i, bn, x, n) ==>
          Own(d.own, Addr(d.files, i, bn)) == Data(i, bn))
    && (forall i: nat :: Slot(d.files, i, NDIRECT) != 0 ==> Own(d.own, Slot(d.files, i, NDIRECT)) == Ind(i))
  }

  /** Owners map the blocks they own. */
  ghost predicate MapUp(d: Disk) {
    forall b: nat :: Maps(d.files, b, Own(d.own, b))
  }

  predicate Maps(f: Files, b: nat, x: Owner) {
    && (x.Data? ==> Addr(f, x.inum, x.bn) == b)
    && (x.Ind? ==> Slot(f, x.inum, NDIRECT) == b)
  }

  ghost predicate GoodBut(sb: Super, d: Disk, x: nat, n: nat) {
    Shape(sb, d) && Layout(sb, d) && BitmapExact(sb, d.blocks, d.own) && MapDown(d, x, n) && MapUp(d)
  }

  ghost predicate Good(sb: Super, d: Disk) { GoodBut(sb, d, 0, 0) }

  lemma {:induction false} OwnAt(o: Owners, b: nat, x: Owner)
    ensures forall c: nat :: Own(o[b := x], c) == if c == b then x else Own(o, c)
  {
    forall c: nat ensures Own(o[b := x], c) == if c == b then x else Own(o, c) {
      if c != b { assert c in o[b := x] <==> c in o; }
    }
  }

  // ----- balloc -----

  function Zeros(): (z: seq<bv8>)
    ensures |z| == BSIZE && forall k :: 0 <= k < BSIZE ==> z[k] == 0
  {
    seq(BSIZE, i => 0)
  }

  /** Mark free block b in use and zero it. */
  function Take(sb: Super, d: Disk, b: nat): Disk {
    d.(blocks := MarkBit(d.blocks, sb, b, true)[b := Zeros()], own := d.own[b := Held])
  }

  lemma {:induction false} TakeGood(sb: Super, d: Disk, b: nat)
    requires Good(sb, d) && b < sb.size && Own(d.own, b).Free?
    ensures Good(sb, Take(sb, d, b)) && SameBytes(d, Take(sb, d, b)) && b != 0
    ensures forall k: nat :: Byte(Take(sb, d, b).blocks, b, k) == 0
    ensures Own(Take(sb, d, b).own, b).Held?
  {
    var d' := Take(sb, d, b);
    OwnAt(d.own, b, Held);
    hide Own, Word, Slot, MarkBit;
    TakeShape(sb, d, b);
    TakeBitmap(sb, d, b);
    TakeMap(sb, d, b);
    TakeBytes(sb, d, b);
    hide BitAt, BitmapExact, MapDown, MapUp, Shape, Byte;
  }

  lemma {:induction false} TakeShape(sb: Super, d: Disk, b: nat)
    requires Shape(sb, d) && Layout(sb, d) && b < sb.size && Own(d.own, b).Free?
    ensures Shape(sb, Take(sb, d, b)) && Layout(sb, Take(sb, d, b)) && BBLOCK(sb, b) != b
    ensures BBLOCK(sb, b) in d.blocks && |d.blocks[BBLOCK(sb, b)]| == BSIZE
    ensures forall k: nat :: Byte(Take(sb, d, b).blocks, b, k) == 0
  {
    OwnAt(d.own, b, Held);
    hide BBLOCK, Cell, Flip;
    assert forall c: nat :: c in d.own[b := Held] <==> c in d.own;
    assert BBLOCK(sb, b) in d.own;
    hide Own;
  }

  lemma {:induction false} TakeBitmap(sb: Super, d: Disk, b: nat)
    requires Shape(sb, d) && Layout(sb, d) && BitmapExact(sb, d.blocks, d.own) && b < sb.size && Own(d.own, b).Free?
    ensures BitmapExact(sb, Take(sb, d, b).blocks, Take(sb, d, b).own)
  {
    var d', blocks1 := Take(sb, d, b), MarkBit(d.blocks, sb, b, true);
    OwnAt(d.own, b, Held);
    TakeShape(sb, d, b);
    forall c: nat | c < sb.size ensures BitAt(d'.blocks, sb, c) == !Own(d'.own, c).Free? {
      MarkBitAt(d.blocks, sb, b, true, c);
      assert Own(d.own, BBLOCK(sb, c)).Meta?;
      assert BitAt(d'.blocks, sb, c) == BitAt(blocks1, sb, c) by {
        assert BBLOCK(sb, c) != b;
        hide MarkBit, Cell, Test, BBLOCK;
      }
      hide BitAt, MarkBit;
    }
  }

  lemma {:induction false} TakeMap(sb: Super, d: Disk, b: nat)
    requires Good(sb, d) && Own(d.own, b).Free?
    ensures MapDown(Take(sb, d, b), 0, 0) && MapUp(Take(sb, d, b))
  {
    var d' := Take(sb, d, b);
    OwnAt(d.own, b, Held);
    hide Own, Word, Slot, MarkBit, BitAt, Shape, Layout, Addr;
    forall c: nat ensures Maps(d'.files, c, Own(d'.own, c)) {
      assert Maps(d.files, c, Own(d.own, c));
    }
  }

  lemma {:induction false} TakeOthers(sb: Super, d: Disk, b: nat)
    ensures forall c: nat, k: nat ::
      c != b && c != BBLOCK(sb, b) ==> Byte(Take(sb, d, b).blocks, c, k) == Byte(d.blocks, c, k)
  {
    hide BBLOCK, Cell, Flip;
  }

  lemma {:induction false} TakeBytes(sb: Super, d: Disk, b: nat)
    requires Good(sb, d) && b < sb.size && Own(d.own, b).Free?
    ensures SameBytes(d, Take(sb, d, b))
  {
    TakeOthers(sb, d, b);
    assert Own(d.own, BBLOCK(sb, b)).Meta? && Take(sb, d, b).files == d.files;
    hide Own, Addr, BBLOCK, Shape, Layout, BitmapExact, MapUp, Byte, Take;
  }

  // ----- attaching a block to a file -----

  /** Only position (i, bn) of the block maps changed, from nothing to block b; b was Held and is all zero. */
  ghost predicate Attached(d: Disk, d': Disk, i: nat, bn: nat, b: nat) {
    && d'.blocks == d.blocks
    && (forall j: nat, k: nat :: Addr(d'.files, j, k) == if j == i && k == bn then b else Addr(d.files, j, k))
    && (forall j: nat :: Slot(d'.files, j, NDIRECT) == Slot(d.files, j, NDIRECT))
    && d'.own == d.own[b := Data(i, bn)]
    && b != 0 && Own(d.own, b).Held? && Addr(d.files, i, bn) == 0 && forall k: nat :: Byte(d.blocks, b, k) == 0
  }

  lemma {:induction false} AttachedMap(d: Disk, d': Disk, i: nat, bn: nat, b: nat)
    requires MapDown(d, 0, 0) && MapUp(d) && Own(d.own, 0).Meta? && Attached(d, d', i, bn, b)
    ensures MapDown(d', 0, 0) && MapUp(d') && SameBytes(d, d')
  {
    OwnAt(d.own, b, Data(i, bn));
    hide Own, Addr, Slot, Byte;
    forall c: nat ensures Maps(d'.files, c, Own(d'.own, c)) {
      assert Maps(d.files, c, Own(d.own, c));
    }
    assert MapDown(d', 0, 0);
    assert SameBytes(d, d');
  }

  lemma {:induction false} RetagBitmap(sb: Super, blocks: Blocks, o: Owners, b: nat, x: Owner)
    requires BitmapExact(sb, blocks, o) && !Own(o, b).Free? && !x.Free?
    ensures BitmapExact(sb, blocks, o[b := x])
  {
    OwnAt(o, b, x);
    hide Own, BitAt;
  }

  /** ip->addrs[bn] = b */
  function SetSlot(f: Files, i: nat, k: nat, b: nat): Files {
    if i in f.inodes && k < |f.inodes[i].addrs| then
      f.(inodes := f.inodes[i := f.inodes[i].(addrs := f.inodes[i].addrs[k := b])])
    else f
  }

  lemma {:induction false} SetSlotAt(f: Files, i: nat, k: nat, b: nat)
    requires i in f.inodes && k < |f.inodes[i].addrs|
    ensures forall j: nat, l: nat :: Slot(SetSlot(f, i, k, b), j, l) == if j == i && l == k then b else Slot(f, j, l)
    ensures forall c: nat, l: nat :: Word(SetSlot(f, i, k, b), c, l) == Word(f, c, l)
  {
  }

  function Poke(a: seq<nat>, j: nat, b: nat): seq<nat>
    requires j < |a|
  {
    a[j := b]
  }

  /** a[j] = b, in indirect block c */
  function SetWord(f: Files, c: nat, j: nat, b: nat): Files {
    if c in f.inds && j < |f.inds[c]| then f.(inds := f.inds[c := Poke(f.inds[c], j, b)]) else f
  }

  lemma {:induction false} SetWordAt(f: Files, c: nat, j: nat, b: nat)
    requires c in f.inds && j < |f.inds[c]|
    ensures forall e: nat, l: nat :: Word(SetWord(f, c, j, b), e, l) == if e == c && l == j then b else Word(f, e, l)
    ensures forall e: nat, l: nat :: Slot(SetWord(f, c, j, b), e, l) == Slot(f, e, l)
  {
  }

  /** A direct block: addrs[bn] = b. */
  function PutDirect(d: Disk, i: nat, bn: nat, b: nat): Disk {
    d.(files := SetSlot(d.files, i, bn, b), own := d.own[b := Data(i, bn)])
  }

  lemma {:induction false} AttachDirect(sb: Super, d: Disk, i: nat, bn: nat, b: nat)
    requires Good(sb, d) && i in d.files.inodes && bn < NDIRECT
    requires Slot(d.files, i, bn) == 0 && b != 0 && Own(d.own, b).Held?
    requires forall k: nat :: Byte(d.blocks, b, k) == 0
    ensures Good(sb, PutDirect(d, i, bn, b)) && Attached(d, PutDirect(d, i, bn, b), i, bn, b)
    ensures SameBytes(d, PutDirect(d, i, bn, b))
  {
    assert PutDirect(d, i, bn, b).blocks == d.blocks && PutDirect(d, i, bn, b).own == d.own[b := Data(i, bn)];
    assert Own(d.own, 0).Meta?;
    hide MapDown, MapUp, BitmapExact, Layout, Slot, Own, Addr, Byte, SameBytes, Attached;
    AttachDirectShape(sb, d, i, bn, b);
    RetagBitmap(sb, d.blocks, d.own, b, Data(i, bn));
    AttachDirectMap(sb, d, i, bn, b);
    hide PutDirect, SetSlot, Shape;
    AttachedMap(d, PutDirect(d, i, bn, b), i, bn, b);
  }

  lemma {:induction false} AttachDirectShape(sb: Super, d: Disk, i: nat, bn: nat, b: nat)
    requires Shape(sb, d) && Layout(sb, d) && i in d.files.inodes && bn < NDIRECT && Own(d.own, b).Held?
    ensures Shape(sb, PutDirect(d, i, bn, b)) && Layout(sb, PutDirect(d, i, bn, b))
  {
    hide Own, Layout, IBLOCK, BBLOCK;
    AttachShape(sb, d, PutDirect(d, i, bn, b), b, Data(i, bn));
  }

  lemma {:induction false} AttachDirectMap(sb: Super, d: Disk, i: nat, bn: nat, b: nat)
    requires Shape(sb, d) && i in d.files.inodes && bn < NDIRECT
    requires Slot(d.files, i, bn) == 0 && b != 0 && Own(d.own, b).Held?
    requires forall k: nat :: Byte(d.blocks, b, k) == 0
    ensures Attached(d, PutDirect(d, i, bn, b), i, bn, b)
  {
    SetSlotAt(d.files, i, bn, b);
    hide Slot, Word, SetSlot, Own, Byte, Shape;
  }

  lemma {:induction false} AttachShape(sb: Super, d: Disk, d': Disk, b: nat, x: Owner)
    requires Shape(sb, d) && Layout(sb, d) && Own(d.own, b).Held? && (x.Data? || x.Ind?)
    requires d'.blocks == d.blocks && d'.own == d.own[b := x]
    requires d'.files.inodes.Keys == d.files.inodes.Keys
    requires forall i :: i in d'.files.inodes ==> |d'.files.inodes[i].addrs| == NDIRECT + 1
    requires d'.files.inds.Keys == d.files.inds.Keys + (if x.Ind? then {b} else {})
    requires forall c :: c in d'.files.inds ==> |d'.files.inds[c]| == NINDIRECT
    ensures Shape(sb, d') && Layout(sb, d')
  {
    OwnAt(d.own, b, x);
    assert b in d.own;
    assert forall c: nat :: c in d'.own <==> c in d.own;
    hide Own, BBLOCK, IBLOCK;
  }

  /** A block behind the indirect block: a[j] = b. */
  function PutVia(d: Disk, i: nat, j: nat, b: nat): Disk {
    d.(files := SetWord(d.files, Slot(d.files, i, NDIRECT), j, b), own := d.own[b := Data(i, NDIRECT + j)])
  }

  lemma {:induction false} AttachVia(sb: Super, d: Disk, i: nat, j: nat, b: nat)
    requires Good(sb, d) && j < NINDIRECT && Slot(d.files, i, NDIRECT) != 0
    requires Word(d.files, Slot(d.files, i, NDIRECT), j) == 0 && b != 0 && Own(d.own, b).Held?
    requires forall k: nat :: Byte(d.blocks, b, k) == 0
    ensures Good(sb, PutVia(d, i, j, b)) && SameBytes(d, PutVia(d, i, j, b))
    ensures Attached(d, PutVia(d, i, j, b), i, NDIRECT + j, b)
  {
    assert PutVia(d, i, j, b).blocks == d.blocks && PutVia(d, i, j, b).own == d.own[b := Data(i, NDIRECT + j)];
    assert Own(d.own, 0).Meta?;
    assert Own(d.own, Slot(d.files, i, NDIRECT)) == Ind(i);
    hide MapDown, MapUp, BitmapExact, Layout, Slot, Word, Own, Addr, Byte, SameBytes, Attached;
    AttachViaShape(sb, d, i, j, b);
    RetagBitmap(sb, d.blocks, d.own, b, Data(i, NDIRECT + j));
    AttachViaMap(sb, d, i, j, b);
    hide PutVia, SetWord, Shape;
    AttachedMap(d, PutVia(d, i, j, b), i, NDIRECT + j, b);
  }

  lemma {:induction false} AttachViaShape(sb: Super, d: Disk, i: nat, j: nat, b: nat)
    requires Shape(sb, d) && Layout(sb, d) && Own(d.own, Slot(d.files, i, NDIRECT)) == Ind(i)
    requires j < NINDIRECT && Own(d.own, b).Held?
    ensures Shape(sb, PutVia(d, i, j, b)) && Layout(sb, PutVia(d, i, j, b))
  {
    hide Own, Layout, IBLOCK, BBLOCK, Slot;
    assert Slot(d.files, i, NDIRECT) in d.files.inds;
    AttachShape(sb, d, PutVia(d, i, j, b), b, Data(i, NDIRECT + j));
  }

  lemma {:induction false} AttachViaMap(sb: Super, d: Disk, i: nat, j: nat, b: nat)
    requires Shape(sb, d) && MapDown(d, 0, 0) && j < NINDIRECT && Slot(d.files, i, NDIRECT) != 0
    requires Word(d.files, Slot(d.files, i, NDIRECT), j) == 0 && b != 0 && Own(d.own, b).Held?
    requires forall k: nat :: Byte(d.blocks, b, k) == 0
    ensures Attached(d, PutVia(d, i, j, b), i, NDIRECT + j, b)
  {
    var c := Slot(d.files, i, NDIRECT);
    assert Own(d.own, c) == Ind(i);
    assert c in d.files.inds && |d.files.inds[c]| == NINDIRECT;
    SetWordAt(d.files, c, j, b);
    hide Slot, Word, SetWord, Own, Byte, Shape;
    forall e: nat | e != i ensures Slot(d.files, e, NDIRECT) != c {
      assert Slot(d.files, e, NDIRECT) != 0 ==> Own(d.own, Slot(d.files, e, NDIRECT)) == Ind(e);
    }
    hide MapDown;
  }

  function NoWords(): (z: seq<nat>)
    ensures |z| == NINDIRECT && forall k :: 0 <= k < NINDIRECT ==> z[k] == 0
  {
    seq(NINDIRECT, i => 0)
  }

  /** A zeroed block becomes the indirect block: addrs[NDIRECT] = b. */
  function PutInd(d: Disk, i: nat, b: nat): Disk {
    var f := SetSlot(d.files, i, NDIRECT, b);
    d.(files := f.(inds := f.inds[b := NoWords()]), own := d.own[b := Ind(i)])
  }

  /** The block maps of the files are the same position by position. */
  ghost predicate SameMap(f: Files, f': Files) {
    forall j: nat, k: nat :: Addr(f', j, k) == Addr(f, j, k)
  }

  ghost predicate SlotSet(f: Files, f': Files, i: nat, b: nat) {
    forall j: nat, k: nat :: Slot(f', j, k) == if j == i && k == NDIRECT then b else Slot(f, j, k)
  }

  lemma {:induction false} AttachInd(sb: Super, d: Disk, i: nat, b: nat)
    requires Good(sb, d) && i in d.files.inodes && Slot(d.files, i, NDIRECT) == 0 && b != 0 && Own(d.own, b).Held?
    ensures Good(sb, PutInd(d, i, b)) && SameBytes(d, PutInd(d, i, b)) && SameMap(d.files, PutInd(d, i, b).files)
    ensures SlotSet(d.files, PutInd(d, i, b).files, i, b)
  {
    assert PutInd(d, i, b).blocks == d.blocks && PutInd(d, i, b).own == d.own[b := Ind(i)];
    assert Own(d.own, 0).Meta?;
    hide MapDown, MapUp, BitmapExact, Layout, Slot, Own, Addr, Byte, SameBytes, SameMap, SlotSet;
    AttachIndShape(sb, d, i, b);
    RetagBitmap(sb, d.blocks, d.own, b, Ind(i));
    AttachIndSlot(sb, d, i, b);
    AttachIndSame(sb, d, i, b);
    hide PutInd, SetSlot, Shape;
    AttachIndMap(d, PutInd(d, i, b), i, b);
  }

  lemma {:induction false} AttachIndShape(sb: Super, d: Disk, i: nat, b: nat)
    requires Shape(sb, d) && Layout(sb, d) && i in d.files.inodes && Own(d.own, b).Held?
    ensures Shape(sb, PutInd(d, i, b)) && Layout(sb, PutInd(d, i, b))
  {
    hide Own, Layout, IBLOCK, BBLOCK;
    AttachShape(sb, d, PutInd(d, i, b), b, Ind(i));
  }

  lemma {:induction false} AttachIndSlot(sb: Super, d: Disk, i: nat, b: nat)
    requires Shape(sb, d) && i in d.files.inodes
    ensures SlotSet(d.files, PutInd(d, i, b).files, i, b)
  {
    SetSlotAt(d.files, i, NDIRECT, b);
    var f := SetSlot(d.files, i, NDIRECT, b);
    assert PutInd(d, i, b).files.inodes == f.inodes;
    assert forall j: nat, k: nat :: Slot(PutInd(d, i, b).files, j, k) == Slot(f, j, k);
  }

  lemma {:induction false} AttachIndSame(sb: Super, d: Disk, i: nat, b: nat)
    requires Shape(sb, d) && MapDown(d, 0, 0) && i in d.files.inodes
    requires Slot(d.files, i, NDIRECT) == 0 && Own(d.own, b).Held?
    ensures SameMap(d.files, PutInd(d, i, b).files)
  {
    var f' := PutInd(d, i, b).files;
    AttachIndSlot(sb, d, i, b);
    assert forall c: nat, k: nat :: Word(f', c, k) == if c == b then 0 else Word(d.files, c, k);
    hide Slot, Word, PutInd, Own, Shape;
    forall j: nat, k: nat ensures Addr(f', j, k) == Addr(d.files, j, k) {
      assert Slot(d.files, j, NDIRECT) != 0 ==> Own(d.own, Slot(d.files, j, NDIRECT)) == Ind(j);
    }
  }

  lemma {:induction false} AttachIndMap(d: Disk, d': Disk, i: nat, b: nat)
    requires MapDown(d, 0, 0) && MapUp(d) && Own(d.own, 0).Meta? && Own(d.own, b).Held?
    requires d'.blocks == d.blocks && d'.own == d.own[b := Ind(i)]
    requires SameMap(d.files, d'.files) && SlotSet(d.files, d'.files, i, b) && Slot(d.files, i, NDIRECT) == 0 && b != 0
    ensures MapDown(d', 0, 0) && MapUp(d') && SameBytes(d, d')
  {
    OwnAt(d.own, b, Ind(i));
    hide Slot, Addr, Own, Byte;
    forall c: nat ensures Maps(d'.files, c, Own(d'.own, c)) {
      assert Maps(d.files, c, Own(d.own, c));
    }
    assert MapDown(d', 0, 0);
    assert SameBytes(d, d');
  }

  // ----- bfree -----

  /** bfree of block b, which nothing maps afterwards. */
  lemma {:induction false} GiveBitmap(sb: Super, d: Disk, b: nat)
    requires Shape(sb, d) && Layout(sb, d) && BitmapExact(sb, d.blocks, d.own) && b < sb.size
    ensures BitmapExact(sb, MarkBit(d.blocks, sb, b, false), d.own[b := Free])
  {
    OwnAt(d.own, b, Free);
    MetaBlock(sb, d, b);
    hide Own, Shape, Layout;
    forall c: nat | c < sb.size
      ensures BitAt(MarkBit(d.blocks, sb, b, false), sb, c) == !Own(d.own[b := Free], c).Free?
    {
      MarkBitAt(d.blocks, sb, b, false, c);
      hide MarkBit, BitAt, BBLOCK;
    }
  }

  lemma {:induction false} MetaBlock(sb: Super, d: Disk, b: nat)
    requires Shape(sb, d) && Layout(sb, d) && b < sb.size
    ensures Own(d.own, BBLOCK(sb, b)).Meta? && BBLOCK(sb, b) in d.blocks
    ensures |d.blocks[BBLOCK(sb, b)]| == BSIZE && BBLOCK(sb, b) < sb.size
  {
    hide BBLOCK;
    assert BBLOCK(sb, b) in d.own;
  }

  /** Only the bitmap block that holds the bit of b changes. */
  lemma {:induction false} MarkOthers(blocks: Blocks, sb: Super, b: nat, on: bool)
    ensures forall c: nat, k: nat :: c != BBLOCK(sb, b) ==> Byte(MarkBit(blocks, sb, b, on), c, k) == Byte(blocks, c, k)
    ensures forall c: nat :: c in MarkBit(blocks, sb, b, on) <==> c in blocks
    ensures forall c: nat :: c in blocks ==> |MarkBit(blocks, sb, b, on)[c]| == |blocks[c]|
  {
    hide BBLOCK, Cell, Flip;
  }

  lemma {:induction false} GiveShape(sb: Super, d: Disk, d': Disk, b: nat)
    requires Shape(sb, d) && Layout(sb, d) && b < sb.size && (Own(d.own, b).Data? || Own(d.own, b).Ind?)
    requires d'.blocks == MarkBit(d.blocks, sb, b, false) && d'.own == d.own[b := Free]
    requires d'.files.inodes.Keys == d.files.inodes.Keys
    requires forall i :: i in d'.files.inodes ==> |d'.files.inodes[i].addrs| == NDIRECT + 1
    requires d'.files.inds == d.files.inds - {b}
    ensures Shape(sb, d') && Layout(sb, d')
  {
    OwnAt(d.own, b, Free);
    MarkOthers(d.blocks, sb, b, false);
    hide MarkBit;
    assert b in d.own;
    assert forall c: nat :: c in d'.own <==> c in d.own;
    hide Own, BBLOCK, IBLOCK;
  }

  /** Files other than i read the same. */
  ghost predicate SameElsewhere(d: Disk, d': Disk, i: nat) {
    forall j: nat, p: nat :: j != i ==> FByte(d', j, p) == FByte(d, j, p)
  }

  ghost predicate SameMapElsewhere(f: Files, f': Files, i: nat) {
    forall j: nat, k: nat :: j != i ==> Addr(f', j, k) == Addr(f, j, k)
  }

  lemma {:induction false} GiveBytes(sb: Super, d: Disk, d': Disk, b: nat, i: nat, n: nat)
    requires GoodBut(sb, d, i, n) && b < sb.size
    requires d'.blocks == MarkBit(d.blocks, sb, b, false) && SameMapElsewhere(d.files, d'.files, i)
    ensures SameElsewhere(d, d', i)
  {
    MarkOthers(d.blocks, sb, b, false);
    assert Own(d.own, BBLOCK(sb, b)).Meta?;
    hide Own, Addr, BBLOCK, Shape, Layout, BitmapExact, MapUp, Byte, MarkBit;
  }

  /** bfree(addrs[k]); addrs[k] = 0 */
  function DropDirect(sb: Super, d: Disk, i: nat, k: nat): Disk {
    Disk(MarkBit(d.blocks, sb, Slot(d.files, i, k), false), SetSlot(d.files, i, k, 0),
      d.own[Slot(d.files, i, k) := Free])
  }

  lemma {:induction false} DropDirectGood(sb: Super, d: Disk, i: nat, k: nat)
    requires Good(sb, d) && i in d.files.inodes && k < NDIRECT && Slot(d.files, i, k) != 0
    ensures Own(d.own, Slot(d.files, i, k)) == Data(i, k) && Slot(d.files, i, k) < sb.size
    ensures Good(sb, DropDirect(sb, d, i, k)) && SameElsewhere(d, DropDirect(sb, d, i, k), i)
    ensures SameMapElsewhere(d.files, DropDirect(sb, d, i, k).files, i)
  {
    hide Slot, Own, BitmapExact, MapUp, MapDown, Layout, MarkBit, Word, SameMapElsewhere, SameElsewhere;
    var b, d' := Slot(d.files, i, k), DropDirect(sb, d, i, k);
    DataHit(sb, d, 0, 0, i, k);
    assert |d.files.inodes[i].addrs| == NDIRECT + 1 && d'.own == d.own[b := Free];
    assert d'.files.inds == d.files.inds - {b} && d'.blocks == MarkBit(d.blocks, sb, b, false);
    DropDirectMap(sb, d, i, k);
    GiveShape(sb, d, d', b);
    hide DropDirect, Shape, SetSlot, Addr;
    GiveBitmap(sb, d, b);
    AnyFile(sb, d, 0, i);
    GiveBytes(sb, d, d', b, i, 0);
  }

  lemma {:induction false} InRange(sb: Super, d: Disk, b: nat)
    requires Shape(sb, d) && !Own(d.own, b).NoBlock?
    ensures b < sb.size
  {
  }

  /** With no stale entries it does not matter whose they would be. */
  lemma {:induction false} AnyFile(sb: Super, d: Disk, x: nat, i: nat)
    requires GoodBut(sb, d, x, 0)
    ensures GoodBut(sb, d, i, 0)
  {
    hide Addr, Slot, Own, Shape, Layout, BitmapExact, MapUp;
  }

  /** What a mapped position of a file is known to hold. */
  lemma {:induction false} DataHit(sb: Super, d: Disk, x: nat, n: nat, i: nat, bn: nat)
    requires GoodBut(sb, d, x, n) && Addr(d.files, i, bn) != 0 && !Stale(i, bn, x, n)
    ensures Own(d.own, Addr(d.files, i, bn)) == Data(i, bn) && Addr(d.files, i, bn) < sb.size
    ensures Addr(d.files, i, bn) !in d.files.inds
    ensures Addr(d.files, i, bn) in d.blocks && |d.blocks[Addr(d.files, i, bn)]| == BSIZE
  {
    hide Addr, BitmapExact, MapUp, Layout, Slot;
    var b := Addr(d.files, i, bn);
    assert Own(d.own, b) == Data(i, bn);
    hide MapDown;
    InRange(sb, d, b);
    hide Own;
  }

  lemma {:induction false} IndHit(sb: Super, d: Disk, x: nat, n: nat, i: nat)
    requires GoodBut(sb, d, x, n) && Slot(d.files, i, NDIRECT) != 0
    ensures Own(d.own, Slot(d.files, i, NDIRECT)) == Ind(i) && Slot(d.files, i, NDIRECT) < sb.size
    ensures Slot(d.files, i, NDIRECT) in d.files.inds && |d.files.inds[Slot(d.files, i, NDIRECT)]| == NINDIRECT
  {
    hide Addr, BitmapExact, MapUp, Layout, Slot;
    var b := Slot(d.files, i, NDIRECT);
    assert Own(d.own, b) == Ind(i);
    hide MapDown;
    InRange(sb, d, b);
    hide Own;
  }

  lemma {:induction false} DropDirectMap(sb: Super, d: Disk, i: nat, k: nat)
    requires Shape(sb, d) && MapDown(d, 0, 0) && MapUp(d)
    requires i in d.files.inodes && k < NDIRECT && Slot(d.files, i, k) != 0
    ensures MapDown(DropDirect(sb, d, i, k), 0, 0) && MapUp(DropDirect(sb, d, i, k))
    ensures SameMapElsewhere(d.files, DropDirect(sb, d, i, k).files, i)
  {
    var b, d' := Slot(d.files, i, k), DropDirect(sb, d, i, k);
    assert Addr(d.files, i, k) == b;
    SetSlotAt(d.files, i, k, 0);
    OwnAt(d.own, b, Free);
    assert d'.files == SetSlot(d.files, i, k, 0) && d'.own == d.own[b := Free];
    hide Slot, SetSlot, Own, MarkBit, Word, DropDirect, Shape;
    assert forall j: nat, l: nat :: Addr(d'.files, j, l) == if j == i && l == k then 0 else Addr(d.files, j, l);
    hide Addr;
    forall c: nat ensures Maps(d'.files, c, Own(d'.own, c)) {
      assert Maps(d.files, c, Own(d.own, c));
    }
  }

  /** bfree(a[j]), the entry of the indirect block staying as it is */
  function DropVia(sb: Super, d: Disk, i: nat, j: nat): Disk {
    var b := Addr(d.files, i, NDIRECT + j);
    d.(blocks := MarkBit(d.blocks, sb, b, false), own := d.own[b := Free])
  }

  lemma {:induction false} DropViaGood(sb: Super, d: Disk, i: nat, j: nat)
    requires GoodBut(sb, d, i, j) && Addr(d.files, i, NDIRECT + j) != 0
    ensures Own(d.own, Addr(d.files, i, NDIRECT + j)) == Data(i, NDIRECT + j) && Addr(d.files, i, NDIRECT + j) < sb.size
    ensures GoodBut(sb, DropVia(sb, d, i, j), i, j + 1) && SameElsewhere(d, DropVia(sb, d, i, j), i)
  {
    hide Addr, Own, BitmapExact, MapUp, MapDown, Layout, MarkBit, SameElsewhere;
    var b, d' := Addr(d.files, i, NDIRECT + j), DropVia(sb, d, i, j);
    DataHit(sb, d, i, j, i, NDIRECT + j);
    assert d'.own == d.own[b := Free] && d'.files == d.files && d'.blocks == MarkBit(d.blocks, sb, b, false);
    assert d.files.inds == d.files.inds - {b};
    hide DropVia;
    GiveShape(sb, d, d', b);
    hide Shape;
    GiveBitmap(sb, d, b);
    DropViaMap(d, d', i, j);
    GiveBytes(sb, d, d', b, i, j);
  }

  lemma {:induction false} DropViaMap(d: Disk, d': Disk, i: nat, j: nat)
    requires MapDown(d, i, j) && MapUp(d) && Addr(d.files, i, NDIRECT + j) != 0
    requires d'.files == d.files && d'.own == d.own[Addr(d.files, i, NDIRECT + j) := Free]
    ensures MapDown(d', i, j + 1) && MapUp(d')
  {
    OwnAt(d.own, Addr(d.files, i, NDIRECT + j), Free);
    hide Addr, Own, Slot;
    forall c: nat ensures Maps(d'.files, c, Own(d'.own, c)) {
      assert Maps(d.files, c, Own(d.own, c));
    }
  }

  /** A position that maps nothing may count as freed. */
  lemma {:induction false} SkipVia(sb: Super, d: Disk, i: nat, j: nat)
    requires GoodBut(sb, d, i, j) && Addr(d.files, i, NDIRECT + j) == 0
    ensures GoodBut(sb, d, i, j + 1)
  {
    hide Addr, Own, Slot, BitmapExact, Shape, Layout, MapUp;
  }

  /** bfree(addrs[NDIRECT]); addrs[NDIRECT] = 0, once every entry of the indirect block is freed */
  function DropInd(sb: Super, d: Disk, i: nat): Disk {
    var b := Slot(d.files, i, NDIRECT);
    var f := SetSlot(d.files, i, NDIRECT, 0);
    Disk(MarkBit(d.blocks, sb, b, false), f.(inds := f.inds - {b}), d.own[b := Free])
  }

  lemma {:induction false} DropIndGood(sb: Super, d: Disk, i: nat)
    requires GoodBut(sb, d, i, NINDIRECT) && i in d.files.inodes && Slot(d.files, i, NDIRECT) != 0
    requires forall bn: nat :: NDIRECT <= bn < MAXFILE ==> !OwnedAt(d.own, i, bn)
    ensures Own(d.own, Slot(d.files, i, NDIRECT)) == Ind(i) && Slot(d.files, i, NDIRECT) < sb.size
    ensures Good(sb, DropInd(sb, d, i)) && SameElsewhere(d, DropInd(sb, d, i), i)
    ensures SameMapElsewhere(d.files, DropInd(sb, d, i).files, i)
  {
    hide Slot, Own, BitmapExact, MapUp, MapDown, Layout, MarkBit, Word, Addr, OwnedAt, SameMapElsewhere,
      SameElsewhere, IndCleared;
    var b, d' := Slot(d.files, i, NDIRECT), DropInd(sb, d, i);
    IndHit(sb, d, i, NINDIRECT, i);
    assert |d.files.inodes[i].addrs| == NDIRECT + 1 && d'.own == d.own[b := Free];
    assert d'.files.inds == d.files.inds - {b} && d'.blocks == MarkBit(d.blocks, sb, b, false);
    DropIndAddr(sb, d, i);
    GiveShape(sb, d, d', b);
    hide DropInd, Shape, SetSlot;
    GiveBitmap(sb, d, b);
    DropIndMap(sb, d, d', i);
    GiveBytes(sb, d, d', b, i, NINDIRECT);
  }

  /** Some block belongs to position bn of file i. */
  ghost predicate OwnedAt(o: Owners, i: nat, bn: nat) { exists b: nat :: Own(o, b) == Data(i, bn) }

  ghost predicate IndCleared(f: Files, f': Files, i: nat) {
    && (forall j: nat, l: nat :: Addr(f', j, l) == if j == i && NDIRECT <= l then 0 else Addr(f, j, l))
    && (forall j: nat :: Slot(f', j, NDIRECT) == if j == i then 0 else Slot(f, j, NDIRECT))
  }

  lemma {:induction false} DropIndAddr(sb: Super, d: Disk, i: nat)
    requires Shape(sb, d) && MapDown(d, i, NINDIRECT) && i in d.files.inodes && Slot(d.files, i, NDIRECT) != 0
    ensures IndCleared(d.files, DropInd(sb, d, i).files, i) && SameMapElsewhere(d.files, DropInd(sb, d, i).files, i)
  {
    var b, f' := Slot(d.files, i, NDIRECT), DropInd(sb, d, i).files;
    var f := SetSlot(d.files, i, NDIRECT, 0);
    SetSlotAt(d.files, i, NDIRECT, 0);
    assert forall j: nat, l: nat :: Slot(f', j, l) == Slot(f, j, l);
    assert forall c: nat, l: nat :: c != b ==> Word(f', c, l) == Word(d.files, c, l);
    hide Slot, Word, SetSlot, DropInd, Own, Shape;
    forall e: nat | e != i ensures Slot(d.files, e, NDIRECT) != b {
      assert Slot(d.files, e, NDIRECT) != 0 ==> Own(d.own, Slot(d.files, e, NDIRECT)) == Ind(e);
    }
    hide MapDown;
    assert IndCleared(d.files, f', i);
  }

  lemma {:induction false} DropIndMap(sb: Super, d: Disk, d': Disk, i: nat)
    requires MapDown(d, i, NINDIRECT) && MapUp(d) && Slot(d.files, i, NDIRECT) != 0 && IndCleared(d.files, d'.files, i)
    requires d'.own == d.own[Slot(d.files, i, NDIRECT) := Free]
    requires forall bn: nat :: NDIRECT <= bn < MAXFILE ==> !OwnedAt(d.own, i, bn)
    ensures MapDown(d', 0, 0) && MapUp(d')
  {
    OwnAt(d.own, Slot(d.files, i, NDIRECT), Free);
    OutOfMap(d.files);
    hide Slot, Own, Addr;
    forall c: nat ensures Maps(d'.files, c, Own(d'.own, c)) {
      assert Maps(d.files, c, Own(d.own, c));
      assert Own(d.own, c).Data? ==> OwnedAt(d.own, Own(d.own, c).inum, Own(d.own, c).bn);
    }
  }

  lemma {:induction false} OutOfMap(f: Files)
    ensures forall i: nat, bn: nat :: bn >= MAXFILE ==> Addr(f, i, bn) == 0
  {
  }

  // ----- writing a block -----

  /** The bytes s laid over block b from offset k. */
  function Splice(blocks: Blocks, b: nat, k: nat, s: seq<bv8>): Blocks {
    if b in blocks && k + |s| <= |blocks[b]| then blocks[b := blocks[b][..k] + s + blocks[b][k + |s|..]] else blocks
  }

  lemma {:induction false} SpliceAt(blocks: Blocks, b: nat, k: nat, s: seq<bv8>)
    requires b in blocks && k + |s| <= |blocks[b]|
    ensures forall c: nat, l: nat ::
      Byte(Splice(blocks, b, k, s), c, l) == if c == b && k <= l < k + |s| then s[l - k] else Byte(blocks, c, l)
    ensures forall c: nat :: c in Splice(blocks, b, k, s) <==> c in blocks
    ensures forall c: nat :: c in blocks ==> |Splice(blocks, b, k, s)[c]| == |blocks[c]|
  {
  }

  /** File i reads s at [off, off + |s|), everything else as before. */
  ghost predicate Patched(d: Disk, d': Disk, i: nat, off: nat, s: seq<bv8>) {
    forall j: nat, p: nat :: FByte(d', j, p) == if j == i && off <= p < off + |s| then s[p - off] else FByte(d, j, p)
  }

  /** Laying bytes over a file's block changes exactly those bytes of that file. */
  lemma {:induction false} PatchGood(sb: Super, d: Disk, i: nat, off: nat, s: seq<bv8>)
    requires Good(sb, d) && Addr(d.files, i, off / BSIZE) != 0 && off % BSIZE + |s| <= BSIZE
    ensures Addr(d.files, i, off / BSIZE) in d.blocks && |d.blocks[Addr(d.files, i, off / BSIZE)]| == BSIZE
    ensures Good(sb, d.(blocks := Splice(d.blocks, Addr(d.files, i, off / BSIZE), off % BSIZE, s)))
    ensures Patched(d, d.(blocks := Splice(d.blocks, Addr(d.files, i, off / BSIZE), off % BSIZE, s)), i, off, s)
  {
    hide Splice, Byte, Addr, Slot, Own, IBLOCK, BBLOCK, BitmapExact, MapDown, MapUp, Patched, Layout;
    var b := Addr(d.files, i, off / BSIZE);
    var blocks' := Splice(d.blocks, b, off % BSIZE, s);
    DataHit(sb, d, 0, 0, i, off / BSIZE);
    SpliceAt(d.blocks, b, off % BSIZE, s);
    assert Shape(sb, d.(blocks := blocks'));
    hide Shape;
    PatchBitmap(sb, d, blocks', b);
    PatchBytes(d, blocks', i, off, s);
    SameTags(sb, d, d.(blocks := blocks'));
  }

  /** Layout and the two maps do not look at block contents. */
  lemma {:induction false} SameTags(sb: Super, d: Disk, d': Disk)
    requires Layout(sb, d) && MapDown(d, 0, 0) && MapUp(d) && d'.files == d.files && d'.own == d.own
    ensures Layout(sb, d') && MapDown(d', 0, 0) && MapUp(d')
  {
    hide Addr, Slot, Own, IBLOCK, BBLOCK;
  }

  lemma {:induction false} PatchBitmap(sb: Super, d: Disk, blocks': Blocks, b: nat)
    requires Layout(sb, d) && BitmapExact(sb, d.blocks, d.own) && Own(d.own, b).Data?
    requires forall c: nat, l: nat :: c != b ==> Byte(blocks', c, l) == Byte(d.blocks, c, l)
    ensures BitmapExact(sb, blocks', d.own)
  {
    hide Byte, Own, BBLOCK, Cell, Test;
    forall c: nat | c < sb.size ensures BitAt(blocks', sb, c) == !Own(d.own, c).Free? {
      assert Own(d.own, BBLOCK(sb, c)).Meta?;
      assert BitAt(d.blocks, sb, c) == !Own(d.own, c).Free?;
    }
  }

  lemma {:induction false} PatchBytes(d: Disk, blocks': Blocks, i: nat, off: nat, s: seq<bv8>)
    requires MapDown(d, 0, 0) && Addr(d.files, i, off / BSIZE) != 0 && off % BSIZE + |s| <= BSIZE
    requires forall c: nat, l: nat ::
      Byte(blocks', c, l) ==
        if c == Addr(d.files, i, off / BSIZE) && off % BSIZE <= l < off % BSIZE + |s| then s[l - off % BSIZE]
        else Byte(d.blocks, c, l)
    ensures Patched(d, d.(blocks := blocks'), i, off, s)
  {
    hide Addr, Own, Byte, Slot;
    var d' := d.(blocks := blocks');
    var b, bn := Addr(d.files, i, off / BSIZE), off / BSIZE;
    assert Own(d.own, b) == Data(i, bn);
    forall j: nat, p: nat
      ensures FByte(d', j, p) == if j == i && off <= p < off + |s| then s[p - off] else FByte(d, j, p)
    {
      var a := Addr(d.files, j, p / BSIZE);
      assert a != 0 ==> Own(d.own, a) == Data(j, p / BSIZE);
      SameBlock(off, p, |s|);
      hide MapDown;
    }
  }

  /** A range that stays within one block is met by position p exactly when p is in that block at those offsets. */
  lemma {:induction false} SameBlock(off: nat, p: nat, n: nat)
    requires off % BSIZE + n <= BSIZE
    ensures off <= p < off + n <==> p / BSIZE == off / BSIZE && off % BSIZE <= p % BSIZE < off % BSIZE + n
    ensures p / BSIZE == off / BSIZE ==> p % BSIZE - off % BSIZE == p - off
  {
    if off <= p < off + n {
      Quotient(p, off / BSIZE, off % BSIZE + p - off, BSIZE);
    }
  }

  // ----- what bmap does to the block maps -----

  /** No allocation is half done: every block is free, metadata or part of a file. */
  ghost predicate Settled(sb: Super, o: Owners) {
    forall b: nat :: b < sb.size ==> !Own(o, b).Held? && !Own(o, b).NoBlock?
  }

  /** No block is free. */
  ghost predicate Full(sb: Super, o: Owners) { forall b: nat :: b < sb.size ==> !Own(o, b).Free? }

  /** Position (i, bn) maps r if r is a block; every other position maps what it did. */
  ghost predicate MapSet(f: Files, f': Files, i: nat, bn: nat, r: nat) {
    forall j: nat, k: nat :: Addr(f', j, k) == if j == i && k == bn && r != 0 then r else Addr(f, j, k)
  }

  /** The other inodes are untouched, and the size of i. */
  ghost predicate SameInodes(f: Files, f': Files, i: nat) {
    && f'.inodes.Keys == f.inodes.Keys
    && (forall j :: j in f.inodes ==> f'.inodes[j].size == f.inodes[j].size && (j != i ==> f'.inodes[j] == f.inodes[j]))
  }

  /** Blocks in use keep their owner; free blocks stay free or go to file i. */
  ghost predicate OwnersKept(o: Owners, o': Owners, i: nat) {
    forall b: nat :: Own(o', b) == Own(o, b) || (Own(o, b).Free? && GoesTo(Own(o', b), i))
  }

  predicate GoesTo(x: Owner, i: nat) { (x.Data? || x.Ind?) && x.inum == i }

  ghost predicate BmapDone(sb: Super, d: Disk, d': Disk, i: nat, bn: nat, r: nat) {
    && Good(sb, d') && SameBytes(d, d') && SameInodes(d.files, d'.files, i) && OwnersKept(d.own, d'.own, i)
    && MapSet(d.files, d'.files, i, bn, r) && Addr(d'.files, i, bn) == r
    && (Slot(d.files, i, NDIRECT) != 0 ==> Slot(d'.files, i, NDIRECT) == Slot(d.files, i, NDIRECT))
    && (Addr(d.files, i, bn) != 0 ==> d' == d)
    && (r == 0 ==> Full(sb, d'.own))
  }

  /** Two allocations in a row, the first for the indirect block. */
  lemma {:induction false} BmapAfter(sb: Super, d: Disk, d1: Disk, d2: Disk, i: nat, bn: nat, r: nat)
    requires SameBytes(d, d1) && SameMap(d.files, d1.files)
    requires SameInodes(d.files, d1.files, i) && OwnersKept(d.own, d1.own, i)
    requires Slot(d.files, i, NDIRECT) != 0 ==> d1 == d
    requires Addr(d.files, i, bn) != 0 ==> d1 == d
    requires BmapDone(sb, d1, d2, i, bn, r)
    ensures BmapDone(sb, d, d2, i, bn, r)
  {
    hide Good, FByte, Addr, Slot, Own, Full;
    hide OwnersKept;
    OwnersAfter(d.own, d1.own, d2.own, i);
  }

  lemma {:induction false} OwnersAfter(o: Owners, o1: Owners, o2: Owners, i: nat)
    requires OwnersKept(o, o1, i) && OwnersKept(o1, o2, i)
    ensures OwnersKept(o, o2, i)
  {
    hide Own;
    forall b: nat ensures Own(o2, b) == Own(o, b) || (Own(o, b).Free? && GoesTo(Own(o2, b), i)) {
      assert Own(o1, b) == Own(o, b) || (Own(o, b).Free? && GoesTo(Own(o1, b), i));
    }
  }

  /** Take block b, then attach it. */
  lemma {:induction false} TakeOwner(sb: Super, d: Disk, b: nat, x: Owner)
    requires Own(d.own, b).Free?
    ensures OwnersKept(d.own, Take(sb, d, b).own[b := x], x.inum) && Take(sb, d, b).files == d.files
    requires x.Data? || x.Ind?
  {
    OwnAt(d.own, b, Held);
    OwnAt(d.own[b := Held], b, x);
    assert Take(sb, d, b).own == d.own[b := Held];
    hide Own, Take;
  }

  lemma {:induction false} SlotInodes(f: Files, i: nat, k: nat, b: nat)
    ensures SameInodes(f, SetSlot(f, i, k, b), i)
  {
  }

  lemma {:induction false} BmapDirectDone(sb: Super, d: Disk, i: nat, bn: nat, b: nat)
    requires Good(sb, d) && i in d.files.inodes && bn < NDIRECT
    requires Slot(d.files, i, bn) == 0 && b < sb.size && Own(d.own, b).Free?
    ensures BmapDone(sb, d, PutDirect(Take(sb, d, b), i, bn, b), i, bn, b)
  {
    hide Slot, Own, Byte, FByte, GoodBut, Addr, SetSlot, OwnersKept, SameInodes;
    var d1 := Take(sb, d, b);
    TakeGood(sb, d, b);
    TakeOwner(sb, d, b, Data(i, bn));
    hide Take;
    AttachDirect(sb, d1, i, bn, b);
    SlotInodes(d1.files, i, bn, b);
    DirectAddr(d.files, i, bn);
  }

  lemma {:induction false} DirectAddr(f: Files, i: nat, bn: nat)
    ensures bn < NDIRECT ==> Addr(f, i, bn) == Slot(f, i, bn)
    ensures NDIRECT <= bn < MAXFILE && Slot(f, i, NDIRECT) != 0 ==>
      Addr(f, i, bn) == Word(f, Slot(f, i, NDIRECT), bn - NDIRECT)
    ensures NDIRECT <= bn && Slot(f, i, NDIRECT) == 0 ==> Addr(f, i, bn) == 0
  {
  }

  lemma {:induction false} BmapViaDone(sb: Super, d: Disk, i: nat, j: nat, b: nat)
    requires Good(sb, d) && Slot(d.files, i, NDIRECT) != 0 && j < NINDIRECT && Addr(d.files, i, NDIRECT + j) == 0
    requires b < sb.size && Own(d.own, b).Free?
    ensures BmapDone(sb, d, PutVia(Take(sb, d, b), i, j, b), i, NDIRECT + j, b)
  {
    hide Slot, Own, Byte, FByte, GoodBut, Addr, OwnersKept, Word;
    var d1 := Take(sb, d, b);
    TakeGood(sb, d, b);
    TakeOwner(sb, d, b, Data(i, NDIRECT + j));
    hide Take;
    DirectAddr(d.files, i, NDIRECT + j);
    AttachVia(sb, d1, i, j, b);
  }

  /** The indirect block is allocated: no position changes what it maps. */
  lemma {:induction false} BmapIndDone(sb: Super, d: Disk, i: nat, b: nat)
    requires Good(sb, d) && i in d.files.inodes && Slot(d.files, i, NDIRECT) == 0 && b < sb.size && Own(d.own, b).Free?
    ensures Good(sb, PutInd(Take(sb, d, b), i, b)) && SameBytes(d, PutInd(Take(sb, d, b), i, b))
    ensures SameMap(d.files, PutInd(Take(sb, d, b), i, b).files)
    ensures SameInodes(d.files, PutInd(Take(sb, d, b), i, b).files, i)
    ensures OwnersKept(d.own, PutInd(Take(sb, d, b), i, b).own, i)
    ensures Slot(PutInd(Take(sb, d, b), i, b).files, i, NDIRECT) == b && b != 0
  {
    hide Slot, Own, Byte, FByte, GoodBut, Addr, OwnersKept, SameMap;
    var d1 := Take(sb, d, b);
    TakeGood(sb, d, b);
    TakeOwner(sb, d, b, Ind(i));
    hide Take;
    AttachInd(sb, d1, i, b);
    SlotInodes(d1.files, i, NDIRECT, b);
  }

  // ----- the meaning of the invariant -----

  ghost predicate Mapped(f: Files, b: nat) {
    (exists i: nat, bn: nat :: Addr(f, i, bn) == b) || (exists i: nat :: Slot(f, i, NDIRECT) == b)
  }

  /** A bit of the free map is set exactly for metadata and for blocks that some file maps. */
  lemma {:induction false} BitmapMeaning(sb: Super, d: Disk, b: nat)
    requires Good(sb, d) && Settled(sb, d.own) && 0 < b < sb.size
    ensures BitAt(d.blocks, sb, b) <==> Own(d.own, b).Meta? || Mapped(d.files, b)
  {
    hide Own, BitAt, Addr, Slot, Shape, Layout;
    var x := Own(d.own, b);
    assert BitAt(d.blocks, sb, b) == !x.Free?;
    assert Maps(d.files, b, x);
    assert !x.Held? && !x.NoBlock?;
    hide BitmapExact, MapUp, Settled;
    if Mapped(d.files, b) { MappedOwner(d, b); }
    if x.Data? {
      assert Addr(d.files, x.inum, x.bn) == b;
    } else if x.Ind? {
      assert Slot(d.files, x.inum, NDIRECT) == b;
    }
  }

  lemma {:induction false} MappedOwner(d: Disk, b: nat)
    requires MapDown(d, 0, 0) && b != 0 && Mapped(d.files, b)
    ensures Own(d.own, b).Data? || Own(d.own, b).Ind?
  {
    hide Own, Addr, Slot;
  }

  /** No block is mapped from two places. */
  lemma {:induction false} MappedOnce(sb: Super, d: Disk, i: nat, bn: nat, j: nat, k: nat)
    requires Good(sb, d)
    ensures Addr(d.files, i, bn) == Addr(d.files, j, k) != 0 ==> i == j && bn == k
    ensures Slot(d.files, i, NDIRECT) == Slot(d.files, j, NDIRECT) != 0 ==> i == j
    ensures Addr(d.files, i, bn) == Slot(d.files, j, NDIRECT) ==> Addr(d.files, i, bn) == 0
  {
    hide Addr, Slot, Own, Shape, Layout, BitmapExact, MapUp;
  }

  // ----- files as byte sequences -----

  function Size(f: Files, i: nat): nat { if i in f.inodes then f.inodes[i].size else 0 }

  /** The file as a flat sequence of bytes. */
  function Content(d: Disk, i: nat): (s: seq<bv8>)
    ensures |s| == Size(d.files, i)
  {
    seq(Size(d.files, i), p requires p >= 0 => FByte(d, i, p))
  }

  /** Every block below the size of the file is mapped. */
  ghost predicate NoHoles(f: Files, i: nat) {
    forall bn: nat :: bn * BSIZE < Size(f, i) ==> Addr(f, i, bn) != 0
  }

  ghost predicate SizesOk(f: Files) { forall i :: i in f.inodes ==> f.inodes[i].size <= MAXFILE * BSIZE }

  function SetSize(f: Files, i: nat, n: nat): Files {
    if i in f.inodes then f.(inodes := f.inodes[i := f.inodes[i].(size := n)]) else f
  }

  /** Block maps, bytes and the invariant do not depend on sizes. */
  lemma {:induction false} SetSizeGood(sb: Super, d: Disk, i: nat, n: nat)
    requires Good(sb, d)
    ensures Good(sb, d.(files := SetSize(d.files, i, n))) && SameBytes(d, d.(files := SetSize(d.files, i, n)))
    ensures SameMap(d.files, SetSize(d.files, i, n))
  {
    hide SetSize, Slot, Word, Shape, Layout, BitmapExact, Own;
    var d' := d.(files := SetSize(d.files, i, n));
    SetSizeShape(sb, d, i, n);
    SetSizeAt(d.files, i, n);
    assert SameMap(d.files, d'.files);
    hide Addr;
    assert SameBytes(d, d');
    forall c: nat ensures Maps(d'.files, c, Own(d'.own, c)) {
      assert Maps(d.files, c, Own(d.own, c));
    }
  }

  lemma {:induction false} SetSizeAt(f: Files, i: nat, n: nat)
    ensures forall j: nat, k: nat :: Slot(SetSize(f, i, n), j, k) == Slot(f, j, k)
    ensures forall j: nat, k: nat :: Word(SetSize(f, i, n), j, k) == Word(f, j, k)
  {
  }

  lemma {:induction false} SetSizeShape(sb: Super, d: Disk, i: nat, n: nat)
    requires Shape(sb, d) && Layout(sb, d)
    ensures Shape(sb, d.(files := SetSize(d.files, i, n))) && Layout(sb, d.(files := SetSize(d.files, i, n)))
  {
    hide Own, BBLOCK, IBLOCK;
  }

  // ----- writei, chunk by chunk -----

  /** The first `done` bytes of src are in place at off; nothing else of any file changed. */
  ghost predicate Wrote(sb: Super, d0: Disk, d: Disk, i: nat, off: nat, src: seq<bv8>, done: nat) {
    && done <= |src| && Good(sb, d) && Patched(d0, d, i, off, src[..done])
    && SameInodes(d0.files, d.files, i) && OwnersKept(d0.own, d.own, i)
    && MapKept(d0.files, d.files, i) && Covered(d.files, i, off, done)
  }

  /** Other files map what they did, and what file i mapped it still maps. */
  ghost predicate MapKept(f: Files, f': Files, i: nat) {
    forall j: nat, k: nat :: j != i || Addr(f, j, k) != 0 ==> Addr(f', j, k) == Addr(f, j, k)
  }

  ghost predicate Covered(f: Files, i: nat, off: nat, n: nat) {
    forall bn: nat :: n > 0 && off / BSIZE <= bn && bn * BSIZE < off + n ==> Addr(f, i, bn) != 0
  }

  lemma {:induction false} WroteNothing(sb: Super, d: Disk, i: nat, off: nat, src: seq<bv8>)
    requires Good(sb, d)
    ensures Wrote(sb, d, d, i, off, src, 0)
  {
    hide GoodBut, Addr, Own, FByte;
  }

  /** bmap in the middle of a write. */
  lemma {:induction false} WroteBmap(sb: Super, d0: Disk, d: Disk, d1: Disk, i: nat, off: nat, src: seq<bv8>,
        done: nat, bn: nat, r: nat)
    requires Wrote(sb, d0, d, i, off, src, done) && BmapDone(sb, d, d1, i, bn, r)
    ensures Wrote(sb, d0, d1, i, off, src, done)
  {
    hide GoodBut, Addr, Own, FByte, Full, Slot;
    OwnersAfter(d0.own, d.own, d1.own, i);
    hide OwnersKept;
    assert Patched(d0, d1, i, off, src[..done]);
    assert SameInodes(d0.files, d1.files, i);
    assert Covered(d1.files, i, off, done);
    assert MapKept(d0.files, d1.files, i);
  }

  /** One chunk more: the m bytes that fit in the block at off + done. */
  lemma {:induction false} WroteChunk(sb: Super, d0: Disk, d: Disk, i: nat, off: nat, src: seq<bv8>, done: nat, m: nat)
    requires Wrote(sb, d0, d, i, off, src, done) && done + m <= |src| && (off + done) % BSIZE + m <= BSIZE
    requires Addr(d.files, i, (off + done) / BSIZE) != 0
    ensures Wrote(sb, d0, d.(blocks := Splice(d.blocks, Addr(d.files, i, (off + done) / BSIZE),
      (off + done) % BSIZE, src[done..done + m])), i, off, src, done + m)
  {
    hide GoodBut, Addr, Own, FByte, Slot, Splice, Patched, OwnersKept, SameInodes, MapKept;
    var d' := d.(blocks := Splice(d.blocks, Addr(d.files, i, (off + done) / BSIZE),
      (off + done) % BSIZE, src[done..done + m]));
    PatchGood(sb, d, i, off + done, src[done..done + m]);
    PatchJoin(d0, d, d', i, off, src, done, m);
    ChunkCovered(d.files, i, off, done, m);
  }

  lemma {:induction false} PatchJoin(d0: Disk, d: Disk, d': Disk, i: nat, off: nat, src: seq<bv8>, done: nat, m: nat)
    requires done + m <= |src| && Patched(d0, d, i, off, src[..done])
    requires Patched(d, d', i, off + done, src[done..done + m])
    ensures Patched(d0, d', i, off, src[..done + m])
  {
    hide FByte;
  }

  lemma {:induction false} ChunkCovered(f: Files, i: nat, off: nat, done: nat, m: nat)
    requires Covered(f, i, off, done) && Addr(f, i, (off + done) / BSIZE) != 0 && (off + done) % BSIZE + m <= BSIZE
    ensures Covered(f, i, off, done + m)
  {
    hide Addr;
    forall bn: nat | off / BSIZE <= bn && bn * BSIZE < off + done + m ensures Addr(f, i, bn) != 0 {
      assert (done > 0 && bn * BSIZE < off + done) || bn == (off + done) / BSIZE;
    }
  }

  /** Growing a file over what was just written leaves no hole. */
  lemma {:induction false} StillNoHoles(f: Files, f': Files, i: nat, off: nat, n: nat)
    requires NoHoles(f, i) && off <= Size(f, i) && MapKept(f, f', i) && Covered(f', i, off, n)
    requires Size(f', i) <= Size(f, i) || Size(f', i) <= off + n
    ensures NoHoles(f', i)
  {
    hide Addr;
    forall bn: nat | bn * BSIZE < Size(f', i) ensures Addr(f', i, bn) != 0 {
      assert Addr(f, i, bn) != 0 || bn * BSIZE >= Size(f, i);
      assert bn * BSIZE >= Size(f, i) ==> off / BSIZE <= bn;
    }
  }

  /** What a write means for the file as a sequence of bytes. */
  lemma {:induction false} WriteContent(d: Disk, d': Disk, i: nat, off: nat, s: seq<bv8>)
    requires Patched(d, d', i, off, s) && off <= Size(d.files, i)
    requires Size(d'.files, i) == if off + |s| > Size(d.files, i) then off + |s| else Size(d.files, i)
    ensures Content(d', i) ==
      Content(d, i)[..off] + s + (if off + |s| <= Size(d.files, i) then Content(d, i)[off + |s|..] else [])
  {
    hide FByte, Size;
  }

  // ----- itrunc -----

  /** Blocks of file i at positions below n are free now, the indirect block too if so said; the rest is as before. */
  ghost predicate Released(o: Owners, o': Owners, i: nat, n: nat, ind: bool) {
    forall b: nat :: Own(o', b) == if Leaves(Own(o, b), i, n, ind) then Free else Own(o, b)
  }

  predicate Leaves(x: Owner, i: nat, n: nat, ind: bool) { (x.Data? && x.inum == i && x.bn < n) || (ind && x == Ind(i)) }

  /** Freeing the block at position n, or finding none there. */
  lemma {:induction false} ReleaseStep(d: Disk, o: Owners, i: nat, n: nat)
    requires MapUp(d) && Own(d.own, 0).Meta? && Released(o, d.own, i, n, false)
    requires Addr(d.files, i, n) != 0 ==> Own(d.own, Addr(d.files, i, n)) == Data(i, n)
    ensures Addr(d.files, i, n) == 0 ==> Released(o, d.own, i, n + 1, false)
    ensures Addr(d.files, i, n) != 0 ==> Released(o, d.own[Addr(d.files, i, n) := Free], i, n + 1, false)
  {
    var a := Addr(d.files, i, n);
    OwnAt(d.own, a, Free);
    hide Own, Addr, Slot;
    forall b: nat ensures Own(d.own, b) == Data(i, n) ==> b == a && a != 0 {
      assert Maps(d.files, b, Own(d.own, b));
    }
    hide MapUp;
    forall b: nat ensures a == 0 ==> Own(d.own, b) == if Leaves(Own(o, b), i, n + 1, false) then Free else Own(o, b) {
      assert Own(d.own, b) == if Leaves(Own(o, b), i, n, false) then Free else Own(o, b);
    }
    forall b: nat
      ensures a != 0 ==> Own(d.own[a := Free], b) == if Leaves(Own(o, b), i, n + 1, false) then Free else Own(o, b)
    {
      assert Own(d.own, b) == if Leaves(Own(o, b), i, n, false) then Free else Own(o, b);
    }
  }

  lemma {:induction false} ReleaseInd(d: Disk, o: Owners, i: nat)
    requires MapUp(d) && Own(d.own, 0).Meta? && Released(o, d.own, i, MAXFILE, false)
    requires Slot(d.files, i, NDIRECT) != 0 ==> Own(d.own, Slot(d.files, i, NDIRECT)) == Ind(i)
    ensures Slot(d.files, i, NDIRECT) == 0 ==> Released(o, d.own, i, MAXFILE, true)
    ensures Slot(d.files, i, NDIRECT) != 0 ==> Released(o, d.own[Slot(d.files, i, NDIRECT) := Free], i, MAXFILE, true)
  {
    var a := Slot(d.files, i, NDIRECT);
    OwnAt(d.own, a, Free);
    hide Own, Addr, Slot;
    forall b: nat ensures Own(d.own, b) == Ind(i) ==> b == a && a != 0 {
      assert Maps(d.files, b, Own(d.own, b));
    }
    hide MapUp;
    forall b: nat ensures a == 0 ==> Own(d.own, b) == if Leaves(Own(o, b), i, MAXFILE, true) then Free else Own(o, b) {
      assert Own(d.own, b) == if Leaves(Own(o, b), i, MAXFILE, false) then Free else Own(o, b);
    }
    forall b: nat
      ensures a != 0 ==> Own(d.own[a := Free], b) == if Leaves(Own(o, b), i, MAXFILE, true) then Free else Own(o, b)
    {
      assert Own(d.own, b) == if Leaves(Own(o, b), i, MAXFILE, false) then Free else Own(o, b);
    }
  }

  /** Released positions own nothing. */
  lemma {:induction false} ReleasedNone(o: Owners, o': Owners, i: nat, n: nat, ind: bool, bn: nat)
    requires Released(o, o', i, n, ind) && bn < n
    ensures !OwnedAt(o', i, bn)
  {
    hide Own;
    forall b: nat ensures Own(o', b) != Data(i, bn) {
      assert Own(o', b) == if Leaves(Own(o, b), i, n, ind) then Free else Own(o, b);
    }
  }
}
