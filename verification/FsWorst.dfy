/**
 The bound on a transaction of filewrite is reached: on a disk whose free blocks
 lie one to a bitmap block, a chunk that starts inside the last direct block
 logs MAXOPBLOCKS blocks, and one more if that block is a hole.
 */
module FsWorst {
  import opened Arith
  import opened Fs
  import opened FsCode
  import FsImage
  import Log

  /** Bitmap blocks */
  const GROUPS: nat := 6
  /** The layout of mkfs: 30 log blocks from block 2 on, 13 inode blocks, then the free map. */
  const LOGSTART: nat := 2
  const NLOG: nat := 30
  const IMAP: nat := 32
  const BMAP: nat := 45
  const SB: Super := Super(GROUPS * BPB, IMAP, BMAP)
  /** The first data block of file 1 */
  const FIRST: nat := 60
  const OFF: nat := 11 * BSIZE + 1

  /** The free blocks */
  predicate Spare(b: nat) { b % BPB == 8000 }

  /** How many blocks of file 1 are mapped: FIRST, FIRST + 1, ... */
  function Filled(hole: bool): nat { if hole then 11 else 12 }

  function OwnerOf(b: nat, hole: bool): Owner {
    if Spare(b) then Free else if FIRST <= b < FIRST + Filled(hole) then Data(1, b - FIRST) else Meta
  }

  function BitmapBlock(): (s: seq<bv8>)
    ensures |s| == BSIZE && forall k :: 0 <= k < BSIZE ==> s[k] == if k == 1000 then 0xFE else 0xFF
  {
    seq(BSIZE, k => if k == 1000 then 0xFE else 0xFF)
  }

  function BlockOf(b: nat): (s: seq<bv8>)
    ensures |s| == BSIZE
  {
    if BMAP <= b < BMAP + GROUPS then BitmapBlock() else Zeros()
  }

  function Image(): Blocks { map b: nat | b < SB.size :: BlockOf(b) }

  function Owned(hole: bool): Owners { map b: nat | b < SB.size :: OwnerOf(b, hole) }

  function Addrs(hole: bool): (s: seq<nat>)
    ensures |s| == NDIRECT + 1 && forall k :: 0 <= k <= NDIRECT ==> s[k] == if k < Filled(hole) then FIRST + k else 0
  {
    seq(NDIRECT + 1, k requires 0 <= k => if k < Filled(hole) then FIRST + k else 0)
  }

  function OneFile(hole: bool): Files { Files(map[], map[1 := Inode(OFF, Addrs(hole))]) }

  function Start(hole: bool): Disk { Disk(Image(), OneFile(hole), Owned(hole)) }

  lemma {:induction false} OwnedAt(hole: bool, b: nat)
    ensures Own(Owned(hole), b) == if b < SB.size then OwnerOf(b, hole) else NoBlock
  {
  }

  lemma {:induction false} AddrIs(hole: bool, i: nat, bn: nat)
    ensures Addr(OneFile(hole), i, bn) == if i == 1 && bn < Filled(hole) then FIRST + bn else 0
    ensures Slot(OneFile(hole), i, NDIRECT) == 0
  {
  }

  /** A cell of the bitmap: the byte with number 1000 has its lowest bit clear. */
  lemma {:induction false} BitIs(hole: bool, b: nat)
    requires b < SB.size
    ensures BitAt(Image(), SB, b) == !Spare(b)
  {
    Places(b);
    var g := b / BPB;
    assert g < GROUPS && BBLOCK(SB, b) == g + BMAP && Image()[g + BMAP] == BitmapBlock();
    assert Byte(Image(), BBLOCK(SB, b), Cell(b)) == if Cell(b) == 1000 then 0xFE else 0xFF;
    assert Spare(b) <==> Cell(b) == 1000 && b % 8 == 0;
    Masks(b);
  }

  lemma {:induction false} Masks(b: nat)
    ensures Test(0xFF, b) && (Test(0xFE, b) <==> b % 8 != 0)
  {
  }

  lemma {:induction false} StartShape(hole: bool)
    ensures Shape(SB, Start(hole))
  {
    var d := Start(hole);
    forall b: nat ensures !Own(d.own, b).Ind? { OwnedAt(hole, b); }
    hide Own, OwnerOf, BlockOf;
  }

  /** The blocks before the data are metadata. */
  lemma {:induction false} LowMeta(hole: bool, b: nat)
    requires b < FIRST
    ensures Own(Owned(hole), b).Meta?
  {
    OwnedAt(hole, b);
    hide Own, Owned;
  }

  lemma {:induction false} LowBlocks(b: nat)
    ensures b < SB.size ==> BBLOCK(SB, b) < FIRST
    ensures IBLOCK(SB, 1) == IMAP
  {
  }

  lemma {:induction false} StartLayout(hole: bool)
    ensures Layout(SB, Start(hole))
  {
    hide Own, Owned, Image, BBLOCK, IBLOCK;
    LowMeta(hole, 0);
    forall b: nat | b < SB.size ensures Own(Owned(hole), BBLOCK(SB, b)).Meta? {
      LowBlocks(b);
      LowMeta(hole, BBLOCK(SB, b));
    }
    LowBlocks(0);
    LowMeta(hole, IBLOCK(SB, 1));
  }

  lemma {:induction false} StartBitmap(hole: bool)
    ensures BitmapExact(SB, Image(), Owned(hole))
  {
    forall b: nat | b < SB.size ensures BitAt(Image(), SB, b) == !Own(Owned(hole), b).Free? {
      BitIs(hole, b);
      OwnedAt(hole, b);
    }
  }

  lemma {:induction false} StartAt(hole: bool)
    ensures forall i: nat, bn: nat ::
      Addr(OneFile(hole), i, bn) == if i == 1 && bn < Filled(hole) then FIRST + bn else 0
    ensures forall i: nat :: Slot(OneFile(hole), i, NDIRECT) == 0
    ensures forall b: nat :: Own(Owned(hole), b) == if b < SB.size then OwnerOf(b, hole) else NoBlock
  {
    hide Addr, Slot, Own, OneFile, Owned;
    forall i: nat, bn: nat
      ensures Addr(OneFile(hole), i, bn) == if i == 1 && bn < Filled(hole) then FIRST + bn else 0
    {
      AddrIs(hole, i, bn);
    }
    forall i: nat ensures Slot(OneFile(hole), i, NDIRECT) == 0 { AddrIs(hole, i, 0); }
    forall b: nat ensures Own(Owned(hole), b) == if b < SB.size then OwnerOf(b, hole) else NoBlock { OwnedAt(hole, b); }
  }

  lemma {:induction false} StartMaps(hole: bool)
    ensures MapDown(Start(hole), 0, 0) && MapUp(Start(hole))
  {
    hide Own, Addr, Slot, Owned, Image, OneFile;
    StartAt(hole);
    var d := Start(hole);
    assert MapDown(d, 0, 0);
    forall b: nat ensures Maps(d.files, b, Own(d.own, b)) {
    }
  }

  lemma {:induction false} StartGood(hole: bool)
    ensures Good(SB, Start(hole)) && Settled(SB, Owned(hole)) && SizesOk(OneFile(hole))
  {
    forall b: nat | b < SB.size
      ensures !Own(Owned(hole), b).Held? && !Own(Owned(hole), b).NoBlock?
    {
      OwnedAt(hole, b);
    }
    StartShape(hole);
    StartLayout(hole);
    StartBitmap(hole);
    StartMaps(hole);
    hide Shape, Layout, BitmapExact, MapDown, MapUp;
  }

  /** The file has no holes exactly if it was set up without one. */
  lemma {:induction false} StartHoles(hole: bool)
    ensures NoHoles(OneFile(hole), 1) <==> !hole
  {
    forall bn: nat
      ensures Addr(OneFile(hole), 1, bn) == if bn < Filled(hole) then FIRST + bn else 0
    {
      AddrIs(hole, 1, bn);
    }
    hide Addr;
    assert Size(OneFile(hole), 1) == OFF;
    assert Addr(OneFile(hole), 1, 11) == if hole then 0 else FIRST + 11;
    hide OneFile, Size;
    forall bn: nat | !hole && bn * BSIZE < OFF ensures Addr(OneFile(hole), 1, bn) != 0 {
      assert bn < 12;
    }
  }

  // ----- after the write -----

  /**
   A block that belonged to nobody and belongs to file 1 now is one of the spare blocks,
   and its bitmap block is logged.
   */
  lemma {:induction false} FreshLogged(hole: bool, d: Disk, l: set<nat>, b: nat)
    requires Good(SB, d) && Logs(Start(hole), {}, d, l, {}) && b < SB.size
    requires OwnerOf(b, hole).Free? && !Own(d.own, b).Free?
    ensures Spare(b) && BBLOCK(SB, b) in l
  {
    BitIs(hole, b);
    BitFree(SB, d, b);
    var p := BBLOCK(SB, b);
    hide GoodBut, Own, Test, Cell, BBLOCK;
    assert Byte(d.blocks, p, Cell(b)) != Byte(Image(), p, Cell(b));
    assert Block(d.blocks, p) != Block(Image(), p);
    assert Rewritten(Start(hole), d, p);
  }

  lemma {:induction false} StartZero(b: nat, k: nat)
    requires !(BMAP <= b < BMAP + GROUPS)
    ensures Byte(Image(), b, k) == 0
  {
  }

  /** A block of file 1 now: it was so before, or it was free. */
  lemma {:induction false} WasOwned(hole: bool, d: Disk, b: nat, bn: nat)
    requires OwnersKept(Owned(hole), d.own, 1) && Own(d.own, b) == Data(1, bn)
    ensures b < SB.size && b >= FIRST
    ensures if bn < Filled(hole) then b == FIRST + bn || Spare(b) else OwnerOf(b, hole).Free?
  {
    OwnedAt(hole, b);
    assert Own(d.own, b) == Own(Owned(hole), b) || (Own(Owned(hole), b).Free? && GoesTo(Own(d.own, b), 1));
    hide Own, OwnersKept, Owned;
  }

  /** The block at position bn of the file, which reads 1 somewhere now. */
  lemma {:induction false} DataLogged(hole: bool, d: Disk, l: set<nat>, bn: nat, p: nat)
    requires Good(SB, d) && Logs(Start(hole), {}, d, l, {})
    requires OwnersKept(Owned(hole), d.own, 1) && bn == p / BSIZE && FByte(d, 1, p) == 1
    ensures Addr(d.files, 1, bn) != 0 && Addr(d.files, 1, bn) in l && Own(d.own, Addr(d.files, 1, bn)) == Data(1, bn)
    ensures FIRST <= Addr(d.files, 1, bn) < SB.size
    ensures bn >= Filled(hole) ==> OwnerOf(Addr(d.files, 1, bn), hole).Free?
  {
    var b := Addr(d.files, 1, bn);
    hide GoodBut, Addr, Slot, Own, OwnersKept, Image, OneFile, OwnerOf;
    DataHit(SB, d, 0, 0, 1, bn);
    WasOwned(hole, d, b, bn);
    StartZero(b, p % BSIZE);
    assert Byte(d.blocks, b, p % BSIZE) == 1;
    assert Block(d.blocks, b) != Block(Image(), b);
    assert Rewritten(Start(hole), d, b);
  }

  /** The indirect block, once the file reaches position 12. */
  lemma {:induction false} IndLogged(hole: bool, d: Disk, l: set<nat>)
    requires Good(SB, d) && Logs(Start(hole), {}, d, l, {})
    requires OwnersKept(Owned(hole), d.own, 1) && Addr(d.files, 1, NDIRECT) != 0
    ensures Slot(d.files, 1, NDIRECT) in l && Own(d.own, Slot(d.files, 1, NDIRECT)) == Ind(1)
    ensures Slot(d.files, 1, NDIRECT) < SB.size && OwnerOf(Slot(d.files, 1, NDIRECT), hole).Free?
  {
    var c := Slot(d.files, 1, NDIRECT);
    DirectAddr(d.files, 1, NDIRECT);
    hide GoodBut, Addr, Slot;
    IndHit(SB, d, 0, 0, 1);
    OwnedAt(hole, c);
    assert Own(d.own, c) == Own(Owned(hole), c) || (Own(Owned(hole), c).Free? && GoesTo(Own(d.own, c), 1));
    hide Own, OwnersKept, Owned, Image;
    assert Rewired(Start(hole), d, c);
  }

  /** Spare blocks in different places have different bitmap blocks. */
  lemma {:induction false} SparesApart(a: nat, b: nat)
    requires Spare(a) && Spare(b) && a != b
    ensures BBLOCK(SB, a) != BBLOCK(SB, b)
  {
  }

  lemma {:induction false} Members(s: seq<nat>, l: set<nat>)
    requires (forall i :: 0 <= i < |s| ==> s[i] in l) && forall i, j :: 0 <= i < j < |s| ==> s[i] != s[j]
    ensures |s| <= |l|
    decreases |s|
  {
    if s != [] {
      Members(s[1..], l - {s[0]});
    }
  }

  /** Block b was free at the start, has owner x now, and was logged together with its bitmap block. */
  ghost predicate Fresh(d: Disk, l: set<nat>, b: nat, x: Owner) {
    b < SB.size && Own(d.own, b) == x && Spare(b) && b in l && BBLOCK(SB, b) in l
  }

  lemma {:induction false} FreshData(hole: bool, d: Disk, l: set<nat>, bn: nat, p: nat)
    requires Good(SB, d) && Logs(Start(hole), {}, d, l, {}) && OwnersKept(Owned(hole), d.own, 1)
    requires bn == p / BSIZE && bn >= Filled(hole) && FByte(d, 1, p) == 1
    ensures Addr(d.files, 1, bn) != 0 && Fresh(d, l, Addr(d.files, 1, bn), Data(1, bn))
  {
    hide GoodBut, FByte, Addr, Own, OwnersKept, Logs, Start, Owned;
    DataLogged(hole, d, l, bn, p);
    FreshLogged(hole, d, l, Addr(d.files, 1, bn));
  }

  lemma {:induction false} FreshInd(hole: bool, d: Disk, l: set<nat>)
    requires Good(SB, d) && Logs(Start(hole), {}, d, l, {})
    requires OwnersKept(Owned(hole), d.own, 1) && Addr(d.files, 1, NDIRECT) != 0
    ensures Fresh(d, l, Slot(d.files, 1, NDIRECT), Ind(1))
  {
    hide GoodBut, Addr, Slot, Own, OwnersKept, Logs, Start, Owned;
    IndLogged(hole, d, l);
    FreshLogged(hole, d, l, Slot(d.files, 1, NDIRECT));
  }

  lemma {:induction false} FreshApart(d: Disk, l: set<nat>, a: nat, x: Owner, b: nat, y: Owner)
    requires Fresh(d, l, a, x) && Fresh(d, l, b, y) && x != y
    ensures a != b && BBLOCK(SB, a) != BBLOCK(SB, b)
  {
    hide Own;
    SparesApart(a, b);
    hide BBLOCK, Spare;
  }

  /**
   What was logged, counted: four data blocks, the indirect block, the inode block, and a
   bitmap block for each fresh block.
   */
  lemma {:induction false} Counted(hole: bool, d: Disk, l: set<nat>)
    requires Good(SB, d) && Logs(Start(hole), {}, d, l, {}) && OwnersKept(Owned(hole), d.own, 1) && IBLOCK(SB, 1) in l
    requires FByte(d, 1, OFF) == 1 && FByte(d, 1, 12 * BSIZE) == 1
    requires FByte(d, 1, 13 * BSIZE) == 1 && FByte(d, 1, 14 * BSIZE) == 1
    ensures |l| >= if hole then MAXOPBLOCKS + 1 else MAXOPBLOCKS
  {
    hide GoodBut, FByte, Addr, Slot, Own, OwnersKept, Logs, Start, Owned, Fresh, OwnerOf;
    assert OFF / BSIZE == 11 && 12 * BSIZE / BSIZE == 12 && 13 * BSIZE / BSIZE == 13 && 14 * BSIZE / BSIZE == 14;
    DataLogged(hole, d, l, 11, OFF);
    FreshData(hole, d, l, 12, 12 * BSIZE);
    FreshData(hole, d, l, 13, 13 * BSIZE);
    FreshData(hole, d, l, 14, 14 * BSIZE);
    FreshInd(hole, d, l);
    if hole { FreshData(hole, d, l, 11, OFF); }
    Tally(hole, d, l, Addr(d.files, 1, 11), Addr(d.files, 1, 12), Addr(d.files, 1, 13),
      Addr(d.files, 1, 14), Slot(d.files, 1, NDIRECT));
  }

  lemma {:induction false} Tally(hole: bool, d: Disk, l: set<nat>, b11: nat, b12: nat, b13: nat, b14: nat, c: nat)
    requires b11 in l && b11 >= FIRST && Own(d.own, b11) == Data(1, 11) && (hole ==> Fresh(d, l, b11, Data(1, 11)))
    requires Fresh(d, l, b12, Data(1, 12)) && Fresh(d, l, b13, Data(1, 13))
    requires Fresh(d, l, b14, Data(1, 14)) && Fresh(d, l, c, Ind(1)) && IBLOCK(SB, 1) in l
    ensures |l| >= if hole then MAXOPBLOCKS + 1 else MAXOPBLOCKS
  {
    var high, low := High(l), Low(l);
    FiveBlocks(d, l, b11, b12, b13, b14, c);
    FourMaps(d, l, b12, b13, b14, c);
    if hole { FiveMaps(d, l, b11, b12, b13, b14, c); }
    hide Fresh, Own;
    assert high !! low && {IMAP} !! high && {IMAP} !! low && high + low + {IMAP} <= l;
    assert |high + low + {IMAP}| == |high| + |low| + 1;
    SubsetSize(high + low + {IMAP}, l);
  }

  ghost function High(l: set<nat>): set<nat> { set b | b in l && b >= FIRST }

  ghost function Low(l: set<nat>): set<nat> { set b | b in l && BMAP <= b < BMAP + GROUPS }

  lemma {:induction false} FreshHigh(d: Disk, l: set<nat>, b: nat, x: Owner)
    requires Fresh(d, l, b, x)
    ensures b >= FIRST && b in l && BMAP <= BBLOCK(SB, b) < BMAP + GROUPS && BBLOCK(SB, b) in l && Own(d.own, b) == x
  {
    hide Own;
  }

  lemma {:induction false} FiveBlocks(d: Disk, l: set<nat>, b11: nat, b12: nat, b13: nat, b14: nat, c: nat)
    requires b11 in l && b11 >= FIRST && Own(d.own, b11) == Data(1, 11)
    requires Fresh(d, l, b12, Data(1, 12)) && Fresh(d, l, b13, Data(1, 13))
    requires Fresh(d, l, b14, Data(1, 14)) && Fresh(d, l, c, Ind(1))
    ensures |High(l)| >= 5
  {
    hide Fresh, Own, BBLOCK;
    FreshHigh(d, l, b12, Data(1, 12));
    FreshHigh(d, l, b13, Data(1, 13));
    FreshHigh(d, l, b14, Data(1, 14));
    FreshHigh(d, l, c, Ind(1));
    Members([b11, b12, b13, b14, c], High(l));
  }

  lemma {:induction false} FourMaps(d: Disk, l: set<nat>, b12: nat, b13: nat, b14: nat, c: nat)
    requires Fresh(d, l, b12, Data(1, 12)) && Fresh(d, l, b13, Data(1, 13))
    requires Fresh(d, l, b14, Data(1, 14)) && Fresh(d, l, c, Ind(1))
    ensures |Low(l)| >= 4
  {
    hide Fresh, Own, BBLOCK;
    FreshHigh(d, l, b12, Data(1, 12));
    FreshHigh(d, l, b13, Data(1, 13));
    FreshHigh(d, l, b14, Data(1, 14));
    FreshHigh(d, l, c, Ind(1));
    FreshApart(d, l, b12, Data(1, 12), b13, Data(1, 13));
    FreshApart(d, l, b12, Data(1, 12), b14, Data(1, 14));
    FreshApart(d, l, b12, Data(1, 12), c, Ind(1));
    FreshApart(d, l, b13, Data(1, 13), b14, Data(1, 14));
    FreshApart(d, l, b13, Data(1, 13), c, Ind(1));
    FreshApart(d, l, b14, Data(1, 14), c, Ind(1));
    Members([BBLOCK(SB, b12), BBLOCK(SB, b13), BBLOCK(SB, b14), BBLOCK(SB, c)], Low(l));
  }

  lemma {:induction false} FiveMaps(d: Disk, l: set<nat>, b11: nat, b12: nat, b13: nat, b14: nat, c: nat)
    requires Fresh(d, l, b11, Data(1, 11))
    requires Fresh(d, l, b12, Data(1, 12)) && Fresh(d, l, b13, Data(1, 13))
    requires Fresh(d, l, b14, Data(1, 14)) && Fresh(d, l, c, Ind(1))
    ensures |Low(l)| >= 5
  {
    hide Fresh, Own, BBLOCK;
    FreshHigh(d, l, b11, Data(1, 11));
    FreshApart(d, l, b11, Data(1, 11), b12, Data(1, 12));
    FreshApart(d, l, b11, Data(1, 11), b13, Data(1, 13));
    FreshApart(d, l, b11, Data(1, 11), b14, Data(1, 14));
    FreshApart(d, l, b11, Data(1, 11), c, Ind(1));
    var l' := l - {BBLOCK(SB, b11)};
    FreshHigh(d, l, b12, Data(1, 12));
    FreshHigh(d, l, b13, Data(1, 13));
    FreshHigh(d, l, b14, Data(1, 14));
    FreshHigh(d, l, c, Ind(1));
    FreshLess(d, l, b12, Data(1, 12), BBLOCK(SB, b11));
    FreshLess(d, l, b13, Data(1, 13), BBLOCK(SB, b11));
    FreshLess(d, l, b14, Data(1, 14), BBLOCK(SB, b11));
    FreshLess(d, l, c, Ind(1), BBLOCK(SB, b11));
    FourMaps(d, l', b12, b13, b14, c);
    assert Low(l) == Low(l') + {BBLOCK(SB, b11)};
  }

  lemma {:induction false} FreshLess(d: Disk, l: set<nat>, b: nat, x: Owner, m: nat)
    requires Fresh(d, l, b, x) && m != b && m != BBLOCK(SB, b)
    ensures Fresh(d, l - {m}, b, x)
  {
  }

  /** Six free blocks are more than the five places that this write can fill, so the disk is not full after it. */
  lemma {:induction false} NotFull(hole: bool, d: Disk)
    requires Good(SB, d) && OwnersKept(Owned(hole), d.own, 1) && MapWithin(OneFile(hole), d.files, 1, OFF, MAXCHUNK)
    ensures !Full(SB, d.own)
  {
    hide GoodBut, OwnersKept, MapWithin, Full, Addr, Slot, Owned, OneFile;
    if Full(SB, d.own) {
      var c0 := Place(hole, d, 0);
      var c1 := Place(hole, d, 1);
      var c2 := Place(hole, d, 2);
      var c3 := Place(hole, d, 3);
      var c4 := Place(hole, d, 4);
      var c5 := Place(hole, d, 5);
      assert false;
    }
  }

  ghost function PlaceOf(d: Disk, p: nat): nat { if p < 15 then Addr(d.files, 1, p) else Slot(d.files, 1, NDIRECT) }

  /** The place in the file that took the spare block of bitmap block g. */
  lemma {:induction false} Place(hole: bool, d: Disk, g: nat) returns (p: nat)
    requires Good(SB, d) && OwnersKept(Owned(hole), d.own, 1)
    requires MapWithin(OneFile(hole), d.files, 1, OFF, MAXCHUNK) && Full(SB, d.own) && g < GROUPS
    ensures 11 <= p <= 15 && PlaceOf(d, p) == g * BPB + 8000
  {
    hide GoodBut, Addr, Slot, OneFile;
    var b := g * BPB + 8000;
    var ind;
    ind, p := SpareTaken(hole, d, b, g);
    if ind {
      p := 15;
    } else {
      AddrIs(hole, 1, p);
      assert OFF / BSIZE == 11 && (OFF + MAXCHUNK - 1) / BSIZE == 14;
    }
  }

  lemma {:induction false} SpareTaken(hole: bool, d: Disk, b: nat, g: nat) returns (ind: bool, p: nat)
    requires Good(SB, d) && OwnersKept(Owned(hole), d.own, 1) && Full(SB, d.own) && g < GROUPS && b == g * BPB + 8000
    ensures if ind then Slot(d.files, 1, NDIRECT) == b else Addr(d.files, 1, p) == b
  {
    hide GoodBut, Addr, Slot;
    Quotient(b, g, 8000, BPB);
    OwnedAt(hole, b);
    MapFacts(SB, d, 0, 0);
    assert Own(d.own, b) == Own(Owned(hole), b) || (Own(Owned(hole), b).Free? && GoesTo(Own(d.own, b), 1));
    assert !Own(d.own, b).Free?;
    hide Own, OwnersKept, Owned, Full;
    assert Maps(d.files, b, Own(d.own, b));
    ind := Own(d.own, b).Ind?;
    p := if ind then 0 else Own(d.own, b).bn;
  }

  /** Disks of this size whose log is where mkfs puts it have the layout that the crash theorems ask for. */
  lemma {:induction false} StartFits(hole: bool, c: Log.Config)
    requires c.start == LOGSTART && c.size == NLOG && |c.init| == SB.size
    ensures FsImage.Fits(c, SB, Start(hole))
  {
    hide Own, Owned, Image, IBLOCK;
    LowBlocks(0);
    forall b: nat | FsImage.InodeBlock(SB, b) || c.start <= b < c.start + c.size ensures Own(Owned(hole), b).Meta? {
      LowMeta(hole, b);
    }
  }

  /**
   The chunk, written by one transaction that logs exactly MAXOPBLOCKS blocks, and one more
   if it starts in a hole. No transaction to the same file system logs fewer.
   */
  method WorstChunk(hole: bool) returns (fs: FileSystem)
    ensures fs.Valid() && |fs.logged| == if hole then MAXOPBLOCKS + 1 else MAXOPBLOCKS
    ensures Patched(Start(hole), fs.D(), 1, OFF, Ones()) && Size(fs.files, 1) == OFF + MAXCHUNK
    ensures Transacts(SB, Start(hole), fs.D(), fs.logged, {})
    ensures forall l: set<nat> :: Transacts(SB, Start(hole), fs.D(), l, {}) ==> |l| >= |fs.logged|
  {
    StartGood(hole);
    StartHoles(hole);
    hide GoodBut, Settled, SizesOk, Own, Addr, FByte, NoHoles, OwnersKept, MapWithin, Logs, Full, Transacts, Does;
    fs := new FileSystem(SB, Image(), OneFile(hole), Owned(hole));
    var src := Ones();
    var r;
    ghost var reach, ss;
    fs.BeginOp();
    r, reach, ss := fs.Writei(1, src, OFF, MAXCHUNK);
    NotFull(hole, fs.D());
    assert reach == r == MAXCHUNK;
    assert src[..reach] == src;
    ghost var d := fs.D();
    WroteOnes(hole, d);
    assert Stray(fs.files, 1, OFF, r, reach) == {};
    Counted(hole, d, fs.logged);
    ChunkCost(OneFile(hole), 1, OFF, MAXCHUNK);
    forall l: set<nat> | Transacts(SB, Start(hole), d, l, {}) ensures |l| >= |fs.logged| {
      Owed(hole, d, l);
      Counted(hole, d, l);
    }
  }

  /** MAXCHUNK bytes of ones */
  function Ones(): (s: seq<bv8>)
    ensures |s| == MAXCHUNK && forall k :: 0 <= k < MAXCHUNK ==> s[k] == 1
  {
    seq(MAXCHUNK, k => 1)
  }

  lemma {:induction false} WroteOnes(hole: bool, d: Disk)
    requires Patched(Start(hole), d, 1, OFF, Ones())
    ensures FByte(d, 1, OFF) == 1 && FByte(d, 1, 12 * BSIZE) == 1
    ensures FByte(d, 1, 13 * BSIZE) == 1 && FByte(d, 1, 14 * BSIZE) == 1
  {
    hide FByte, Start;
  }

  /** The size of the file changed, so a transaction must log its inode. */
  lemma {:induction false} Owed(hole: bool, d: Disk, l: set<nat>)
    requires Transacts(SB, Start(hole), d, l, {}) && Size(d.files, 1) == OFF + MAXCHUNK
    ensures Logs(Start(hole), {}, d, l, {}) && IBLOCK(SB, 1) in l
  {
    hide GoodBut, Settled, Own, Logs, IBLOCK;
    assert 1 in Start(hole).files.inodes;
  }
}
