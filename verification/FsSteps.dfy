/**
 The steps of which the operations of kernel/fs.c on one file consist: allocating a
 block and mapping it, laying bytes over a block, setting the size, storing the
 inode; and for itrunc freeing a block. Of the blocks that files share, a step
 changes one bit of the free map or its own inode in the inode block. Steps on
 different files commute, save that a block is freed before it is taken again.
 */
module FsSteps {
  import opened Arith
  import opened Fs

  datatype Step =
    | NewDirect(bn: nat, b: nat)                // bmap: a new block b at direct position bn
    | NewInd(b: nat)                            // bmap: a new indirect block
    | NewVia(j: nat, b: nat)                    // bmap: a new block behind the indirect block
    | Lay(bn: nat, off: nat, s: seq<bv8>)       // writei: copy bytes into the block at bn
    | Resize(n: nat)                            // ip->size = n
    | Save                                      // iupdate
    | FreeDirect(k: nat, b: nat)                // itrunc: bfree(addrs[k]); addrs[k] = 0
    | FreeVia(j: nat, b: nat)                   // itrunc: bfree(a[j]), after which the entry counts as empty
    | FreeInd(b: nat)                           // itrunc: bfree(addrs[NDIRECT]); addrs[NDIRECT] = 0

  predicate Allocates(s: Step) { s.NewDirect? || s.NewInd? || s.NewVia? }

  predicate Frees(s: Step) { s.FreeDirect? || s.FreeVia? || s.FreeInd? }

  /** The step changes the free map. */
  predicate Moves(s: Step) { Allocates(s) || Frees(s) }

  predicate ChangesInode(s: Step) { s.NewDirect? || s.NewInd? || s.Resize? || s.FreeDirect? || s.FreeInd? }

  /** Step t takes the block that step s freed. */
  predicate Passes(s: Step, t: Step) { Frees(s) && Allocates(t) && s.b == t.b }

  /** The step is possible for file i. */
  predicate Can(sb: Super, d: Disk, i: nat, s: Step) { CanFile(d.files, i, s) && CanTake(sb, d.own, s) }

  /** The block to be taken is free. */
  predicate CanTake(sb: Super, o: Owners, s: Step) { Allocates(s) ==> s.b < sb.size && Own(o, s.b).Free? }

  /** The position in the block map is as the step needs it. */
  predicate CanFile(f: Files, i: nat, s: Step) {
    && i in f.inodes && (Frees(s) ==> s.b != 0)
    && match s
       case NewDirect(bn, _) => bn < NDIRECT && Slot(f, i, bn) == 0
       case NewInd(_) => Slot(f, i, NDIRECT) == 0
       case NewVia(j, _) => j < NINDIRECT && Slot(f, i, NDIRECT) != 0 && Addr(f, i, NDIRECT + j) == 0
       case Lay(bn, off, bytes) => Addr(f, i, bn) != 0 && off < BSIZE && off + |bytes| <= BSIZE
       case FreeDirect(k, b) => k < NDIRECT && Slot(f, i, k) == b
       case FreeVia(j, b) => j < NINDIRECT && Addr(f, i, NDIRECT + j) == b
       case FreeInd(b) =>
         Slot(f, i, NDIRECT) == b && forall bn: nat :: NDIRECT <= bn < MAXFILE ==> Addr(f, i, bn) == 0
       case _ => true
  }

  /** The bit of block b set and the block zeroed, or the bit cleared. */
  function Marked(sb: Super, blocks: Blocks, b: nat, on: bool): Blocks {
    if on then MarkBit(blocks, sb, b, true)[b := Zeros()] else MarkBit(blocks, sb, b, false)
  }

  /** The blocks after the step, which lays bytes over block a if at all. */
  function BlocksBy(sb: Super, blocks: Blocks, a: nat, s: Step): Blocks {
    if Moves(s) then Marked(sb, blocks, s.b, Allocates(s))
    else if s.Lay? then Splice(blocks, a, s.off, s.s)
    else blocks
  }

  function BlocksAfter(sb: Super, d: Disk, i: nat, s: Step): Blocks {
    BlocksBy(sb, d.blocks, if s.Lay? then Addr(d.files, i, s.bn) else 0, s)
  }

  function InodeAfter(x: Inode, s: Step): Inode {
    match s
    case NewDirect(bn, b) => if bn < |x.addrs| then x.(addrs := x.addrs[bn := b]) else x
    case NewInd(b) => if NDIRECT < |x.addrs| then x.(addrs := x.addrs[NDIRECT := b]) else x
    case Resize(n) => x.(size := n)
    case FreeDirect(k, _) => if k < |x.addrs| then x.(addrs := x.addrs[k := 0]) else x
    case FreeInd(_) => if NDIRECT < |x.addrs| then x.(addrs := x.addrs[NDIRECT := 0]) else x
    case _ => x
  }

  /** The inode of file i after the step. */
  function InodesAfter(f: Files, i: nat, s: Step): map<nat, Inode> {
    if i in f.inodes then f.inodes[i := InodeAfter(f.inodes[i], s)] else f.inodes
  }

  function IndsAfter(f: Files, i: nat, s: Step): map<nat, seq<nat>> {
    var c := Slot(f, i, NDIRECT);
    if s.NewInd? then f.inds[s.b := NoWords()]
    else if s.FreeInd? then f.inds - {s.b}
    else if (s.NewVia? || s.FreeVia?) && c in f.inds && s.j < |f.inds[c]| then
      f.inds[c := Poke(f.inds[c], s.j, if s.NewVia? then s.b else 0)]
    else f.inds
  }

  function Tag(i: nat, s: Step): Owner {
    match s
    case NewDirect(bn, _) => Data(i, bn)
    case NewVia(j, _) => Data(i, NDIRECT + j)
    case NewInd(_) => Ind(i)
    case _ => Free
  }

  function OwnAfter(o: Owners, i: nat, s: Step): Owners { if Moves(s) then o[s.b := Tag(i, s)] else o }

  function Do(sb: Super, d: Disk, i: nat, s: Step): Disk {
    Disk(BlocksAfter(sb, d, i, s), Files(IndsAfter(d.files, i, s), InodesAfter(d.files, i, s)), OwnAfter(d.own, i, s))
  }

  /** The blocks that the step passes to log_write, in order. */
  function StepLog(sb: Super, f: Files, i: nat, s: Step): seq<nat> {
    match s
    case NewDirect(_, b) => [BBLOCK(sb, b), b]
    case NewInd(b) => [BBLOCK(sb, b), b]
    case NewVia(_, b) => [BBLOCK(sb, b), b, Slot(f, i, NDIRECT)]
    case Lay(bn, _, _) => [Addr(f, i, bn)]
    case Resize(_) => []
    case Save => [IBLOCK(sb, i)]
    case _ => [BBLOCK(sb, s.b)]
  }

  // ----- steps are those of the block map -----

  lemma {:induction false} DoDirect(sb: Super, d: Disk, i: nat, bn: nat, b: nat)
    requires Shape(sb, d) && i in d.files.inodes && bn < NDIRECT
    ensures Do(sb, d, i, NewDirect(bn, b)) == PutDirect(Take(sb, d, b), i, bn, b)
  {
    hide MarkBit;
  }

  lemma {:induction false} DoInd(sb: Super, d: Disk, i: nat, b: nat)
    requires Shape(sb, d) && i in d.files.inodes
    ensures Do(sb, d, i, NewInd(b)) == PutInd(Take(sb, d, b), i, b)
  {
    hide MarkBit;
  }

  lemma {:induction false} SameInode(f: Files, i: nat)
    requires i in f.inodes
    ensures f.inodes[i := f.inodes[i]] == f.inodes
  {
  }

  lemma {:induction false} DoVia(sb: Super, d: Disk, i: nat, j: nat, b: nat)
    requires i in d.files.inodes
    ensures Do(sb, d, i, NewVia(j, b)) == PutVia(Take(sb, d, b), i, j, b)
  {
    hide MarkBit;
    SameInode(d.files, i);
  }

  lemma {:induction false} DoLay(sb: Super, d: Disk, i: nat, bn: nat, off: nat, s: seq<bv8>)
    requires i in d.files.inodes
    ensures Do(sb, d, i, Lay(bn, off, s)) == d.(blocks := Splice(d.blocks, Addr(d.files, i, bn), off, s))
  {
    SameInode(d.files, i);
    hide Splice, Addr;
  }

  lemma {:induction false} DoResize(sb: Super, d: Disk, i: nat, n: nat)
    requires i in d.files.inodes
    ensures Do(sb, d, i, Resize(n)) == d.(files := SetSize(d.files, i, n))
  {
  }

  lemma {:induction false} DoSave(sb: Super, d: Disk, i: nat)
    requires i in d.files.inodes
    ensures Do(sb, d, i, Save) == d
  {
    SameInode(d.files, i);
  }

  lemma {:induction false} DoFreeDirect(sb: Super, d: Disk, i: nat, k: nat)
    requires i in d.files.inodes && |d.files.inodes[i].addrs| == NDIRECT + 1 && k < NDIRECT
    ensures Do(sb, d, i, FreeDirect(k, Slot(d.files, i, k))) == DropDirect(sb, d, i, k)
  {
    hide MarkBit;
  }

  lemma {:induction false} DoFreeVia(sb: Super, d: Disk, i: nat, j: nat, b: nat)
    requires i in d.files.inodes
    ensures Do(sb, d, i, FreeVia(j, b)) ==
      Disk(MarkBit(d.blocks, sb, b, false), SetWord(d.files, Slot(d.files, i, NDIRECT), j, 0), d.own[b := Free])
  {
    hide MarkBit, Slot;
    SameInode(d.files, i);
  }

  lemma {:induction false} DoFreeInd(sb: Super, d: Disk, i: nat)
    requires i in d.files.inodes && |d.files.inodes[i].addrs| == NDIRECT + 1
    ensures Do(sb, d, i, FreeInd(Slot(d.files, i, NDIRECT))) == DropInd(sb, d, i)
  {
    hide MarkBit;
  }

  /** The entry that a file has behind its indirect block is gone, and nothing else. */
  lemma {:induction false} ClearVia(d: Disk, i: nat, j: nat)
    requires MapDown(d, 0, 0) && Addr(d.files, i, NDIRECT + j) != 0
    ensures var c := Slot(d.files, i, NDIRECT);
      && c in d.files.inds && j < |d.files.inds[c]|
      && forall e: nat, l: nat ::
           Addr(SetWord(d.files, c, j, 0), e, l) == if e == i && l == NDIRECT + j then 0 else Addr(d.files, e, l)
  {
    var c := Slot(d.files, i, NDIRECT);
    assert c in d.files.inds && j < |d.files.inds[c]|;
    SetWordAt(d.files, c, j, 0);
    hide SetWord, Slot, Word, Own;
    forall e: nat | e != i ensures Slot(d.files, e, NDIRECT) != c {
      assert Slot(d.files, e, NDIRECT) != 0 ==> Own(d.own, Slot(d.files, e, NDIRECT)) == Ind(e);
    }
    hide MapDown;
  }

  lemma {:induction false} FreeViaMap(d: Disk, d': Disk, i: nat, j: nat)
    requires MapDown(d, 0, 0) && MapUp(d) && Addr(d.files, i, NDIRECT + j) != 0
    requires d'.files == SetWord(d.files, Slot(d.files, i, NDIRECT), j, 0)
    requires d'.own == d.own[Addr(d.files, i, NDIRECT + j) := Free]
    ensures MapDown(d', 0, 0) && MapUp(d')
  {
    ClearVia(d, i, j);
    SetWordAt(d.files, Slot(d.files, i, NDIRECT), j, 0);
    OwnAt(d.own, Addr(d.files, i, NDIRECT + j), Free);
    hide Addr, Own, Slot, SetWord;
    forall c: nat ensures Maps(d'.files, c, Own(d'.own, c)) {
      assert Maps(d.files, c, Own(d.own, c));
    }
  }

  lemma {:induction false} FreeViaShape(sb: Super, d: Disk, d1: Disk, c: nat, j: nat)
    requires Shape(sb, d) && Layout(sb, d) && d1 == d.(files := SetWord(d.files, c, j, 0))
    ensures Shape(sb, d1) && Layout(sb, d1)
  {
    hide Own, BBLOCK, IBLOCK;
  }

  lemma {:induction false} FreeViaGood(sb: Super, d: Disk, i: nat, j: nat, b: nat)
    requires Good(sb, d) && Can(sb, d, i, FreeVia(j, b))
    ensures Good(sb, Do(sb, d, i, FreeVia(j, b)))
  {
    hide Addr, Slot, Own, Shape, Layout, BitmapExact, MapUp, MapDown, MarkBit, Do, SetWord;
    var d1, d', c := DropVia(sb, d, i, j), Do(sb, d, i, FreeVia(j, b)), Slot(d.files, i, NDIRECT);
    DoFreeVia(sb, d, i, j, b);
    StaleMore(sb, d, i, j);
    DropViaGood(sb, d, i, j);
    FreeViaShape(sb, d1, d', c, j);
    FreeViaMap(d, d', i, j);
  }

  lemma {:induction false} StaleMore(sb: Super, d: Disk, i: nat, n: nat)
    requires Good(sb, d)
    ensures GoodBut(sb, d, i, n)
  {
    hide Addr, Slot, Own, Shape, Layout, BitmapExact, MapUp;
  }

  lemma {:induction false} FreeIndGood(sb: Super, d: Disk, i: nat, b: nat)
    requires Good(sb, d) && Can(sb, d, i, FreeInd(b))
    ensures Good(sb, Do(sb, d, i, FreeInd(b)))
  {
    hide Addr, Slot, Own, Layout, BitmapExact, MapDown, Do, DropInd;
    DoFreeInd(sb, d, i);
    StaleMore(sb, d, i, NINDIRECT);
    forall bn: nat | NDIRECT <= bn < MAXFILE ensures !OwnedAt(d.own, i, bn) {
      if c: nat :| Own(d.own, c) == Data(i, bn) {
        assert Maps(d.files, c, Own(d.own, c));
        assert Own(d.own, 0).Data?;
        NotBoot(sb, d);
      }
    }
    DropIndGood(sb, d, i);
  }

  lemma {:induction false} NotBoot(sb: Super, d: Disk)
    requires Good(sb, d)
    ensures Own(d.own, 0).Meta?
  {
    hide Shape, BitmapExact, MapUp, MapDown;
  }

  /** Blocks that are free or belong to file i. */
  predicate Mine(x: Owner, i: nat) { x.Free? || GoesTo(x, i) }

  /** Blocks moved between file i and the free blocks at most. */
  ghost predicate Handed(o: Owners, o': Owners, i: nat) {
    forall b: nat :: Own(o', b) == Own(o, b) || (Mine(Own(o, b), i) && Mine(Own(o', b), i))
  }

  lemma {:induction false} HandedStep(sb: Super, d: Disk, i: nat, s: Step)
    requires Good(sb, d) && Can(sb, d, i, s)
    ensures Handed(d.own, Do(sb, d, i, s).own, i)
  {
    hide GoodBut, Addr, Slot, Own, Do, Can;
    Places(sb, d, i, s);
    forall b: nat ensures Own(Do(sb, d, i, s).own, b) == Own(d.own, b) || Mine(Own(Do(sb, d, i, s).own, b), i) {
      OwnDone(sb, d, i, s, b);
    }
    if Moves(s) { OwnDone(sb, d, i, s, s.b); }
    forall b: nat | !(Moves(s) && b == s.b) ensures Own(Do(sb, d, i, s).own, b) == Own(d.own, b) {
      OwnDone(sb, d, i, s, b);
    }
  }

  /** A step keeps the file system well-formed and moves blocks between its file and the free ones at most. */
  lemma {:induction false} DoGood(sb: Super, d: Disk, i: nat, s: Step)
    requires Good(sb, d) && Can(sb, d, i, s)
    ensures Good(sb, Do(sb, d, i, s)) && Handed(d.own, Do(sb, d, i, s).own, i)
  {
    HandedStep(sb, d, i, s);
    hide Handed;
    hide Do, Addr, Slot, Own, MarkBit, Take, Splice;
    assert Shape(sb, d) by { hide Shape, MapDown, MapUp, Layout, BitmapExact; }
    match s
    case NewDirect(bn, b) =>
      DoDirect(sb, d, i, bn, b);
      BmapDirectDone(sb, d, i, bn, b);
      hide GoodBut;
    case NewInd(b) =>
      DoInd(sb, d, i, b);
      BmapIndDone(sb, d, i, b);
      hide GoodBut;
    case NewVia(j, b) =>
      DoVia(sb, d, i, j, b);
      BmapViaDone(sb, d, i, j, b);
      hide GoodBut;
    case Lay(bn, off, bytes) =>
      DoLay(sb, d, i, bn, off, bytes);
      Quotient(bn * BSIZE + off, bn, off, BSIZE);
      PatchGood(sb, d, i, bn * BSIZE + off, bytes);
      hide GoodBut;
    case Resize(n) =>
      DoResize(sb, d, i, n);
      SetSizeGood(sb, d, i, n);
      hide GoodBut;
    case Save =>
      DoSave(sb, d, i);
    case FreeDirect(k, b) =>
      DoFreeDirect(sb, d, i, k);
      DropDirectGood(sb, d, i, k);
      hide GoodBut;
    case FreeVia(j, b) =>
      FreeViaGood(sb, d, i, j, b);
      hide GoodBut;
    case FreeInd(b) =>
      FreeIndGood(sb, d, i, b);
      hide GoodBut;
  }

  // ----- steps on different files -----

  /** Where the step stores: in blocks of its file, in a free block, in a bitmap block. */
  lemma {:induction false} Places(sb: Super, d: Disk, i: nat, s: Step)
    requires Good(sb, d) && Can(sb, d, i, s)
    ensures s.Lay? ==> var a := Addr(d.files, i, s.bn);
      Own(d.own, a) == Data(i, s.bn) && a < sb.size && a in d.blocks && |d.blocks[a]| == BSIZE
    ensures s.NewVia? || s.FreeVia? ==> var c := Slot(d.files, i, NDIRECT);
      Own(d.own, c) == Ind(i) && c in d.files.inds && |d.files.inds[c]| == NINDIRECT
    ensures Allocates(s) ==> Own(d.own, s.b).Free? && s.b in d.blocks && s.b !in d.files.inds
    ensures Frees(s) ==> GoesTo(Own(d.own, s.b), i) && (s.FreeInd? <==> Own(d.own, s.b).Ind?)
    ensures Moves(s) ==> var p := BBLOCK(sb, s.b);
      s.b < sb.size && Own(d.own, p).Meta? && p in d.blocks && |d.blocks[p]| == BSIZE
  {
    hide BBLOCK, BitmapExact, MapUp;
    if s.NewVia? || s.FreeVia? { assert Slot(d.files, i, NDIRECT) != 0; }
    hide Addr, Slot;
    if s.Lay? { assert Own(d.own, Addr(d.files, i, s.bn)) == Data(i, s.bn); }
    if s.FreeDirect? {
      DirectAddr(d.files, i, s.k);
      assert Own(d.own, Addr(d.files, i, s.k)) == Data(i, s.k);
    }
    if s.FreeVia? { assert Own(d.own, Addr(d.files, i, NDIRECT + s.j)) == Data(i, NDIRECT + s.j); }
    if Moves(s) {
      assert s.b < sb.size;
      assert Own(d.own, BBLOCK(sb, s.b)).Meta?;
      assert BBLOCK(sb, s.b) in d.own;
    }
  }

  /** What a step on file i leaves to file j. */
  lemma {:induction false} OtherFile(sb: Super, d: Disk, i: nat, s: Step, j: nat)
    requires Good(sb, d) && Can(sb, d, i, s) && j != i
    ensures var f, f' := d.files, Do(sb, d, i, s).files;
      && (j in f'.inodes <==> j in f.inodes) && (j in f.inodes ==> f'.inodes[j] == f.inodes[j])
      && (forall k: nat :: Slot(f', j, k) == Slot(f, j, k)) && (forall bn: nat :: Addr(f', j, bn) == Addr(f, j, bn))
  {
    hide BitmapExact, Layout, MapUp, BlocksAfter, OwnAfter, InodeAfter;
    var f, f' := d.files, Do(sb, d, i, s).files;
    assert f'.inodes == InodesAfter(f, i, s) && f'.inds == IndsAfter(f, i, s);
    hide Do;
    Places(sb, d, i, s);
    forall k: nat ensures Slot(f', j, k) == Slot(f, j, k) {
    }
    var c := Slot(f, j, NDIRECT);
    if c != 0 {
      assert Own(d.own, c) == Ind(j);
      hide Own, Shape, MapDown, Slot, Addr;
      assert c in f'.inds <==> c in f.inds;
      assert c in f.inds ==> f'.inds[c] == f.inds[c];
    }
    hide Own, Shape, MapDown, Slot;
    forall bn: nat ensures Addr(f', j, bn) == Addr(f, j, bn) {
    }
  }

  lemma {:induction false} OwnDone(sb: Super, d: Disk, i: nat, s: Step, b: nat)
    ensures Own(Do(sb, d, i, s).own, b) == if Moves(s) && b == s.b then Tag(i, s) else Own(d.own, b)
  {
    OwnAt(d.own, if Moves(s) then s.b else 0, Tag(i, s));
    hide BlocksAfter, IndsAfter, InodesAfter, Own;
  }

  /**
   A step on file j is possible after a step on file i exactly if it was before, but for the block that was taken,
   unless it takes the block that was freed.
   */
  lemma {:induction false} CanOther(sb: Super, d: Disk, i: nat, s: Step, j: nat, t: Step)
    requires Good(sb, d) && Can(sb, d, i, s) && j != i && !Passes(s, t)
    ensures Can(sb, Do(sb, d, i, s), j, t) <==> Can(sb, d, j, t) && !(Allocates(s) && Allocates(t) && s.b == t.b)
  {
    OtherFile(sb, d, i, s, j);
    CanFileSame(d.files, Do(sb, d, i, s).files, j, t);
    if Allocates(t) { OwnDone(sb, d, i, s, t.b); }
    Places(sb, d, i, s);
    hide GoodBut, Do, Own, CanFile;
  }

  lemma {:induction false} CanFileSame(f: Files, f': Files, j: nat, t: Step)
    requires j in f'.inodes <==> j in f.inodes
    requires (forall k: nat :: Slot(f', j, k) == Slot(f, j, k)) && (forall bn: nat :: Addr(f', j, bn) == Addr(f, j, bn))
    ensures CanFile(f', j, t) <==> CanFile(f, j, t)
  {
    hide Addr, Slot;
  }

  lemma {:induction false} CommuteOwn(o: Owners, i: nat, s: Step, j: nat, t: Step)
    requires Moves(s) && Moves(t) ==> s.b != t.b
    ensures OwnAfter(OwnAfter(o, i, s), j, t) == OwnAfter(OwnAfter(o, j, t), i, s)
  {
    hide Tag;
  }

  lemma {:induction false} CommuteInodes(f: Files, f1: Files, f2: Files, i: nat, s: Step, j: nat, t: Step)
    requires i != j && i in f.inodes && j in f.inodes
    requires f1.inodes == InodesAfter(f, i, s) && f2.inodes == InodesAfter(f, j, t)
    ensures InodesAfter(f1, j, t) == InodesAfter(f2, i, s)
  {
    hide InodeAfter;
  }

  /** The step stores to an indirect block. */
  predicate Indirect(s: Step) { s.NewInd? || s.NewVia? || s.FreeVia? || s.FreeInd? }

  /** The key of the indirect block that a step stores to, if it does. */
  function IndKey(f: Files, i: nat, s: Step): nat { if s.NewInd? || s.FreeInd? then s.b else Slot(f, i, NDIRECT) }

  lemma {:induction false} CommuteInds(f: Files, f1: Files, f2: Files, i: nat, s: Step, j: nat, t: Step)
    requires f1.inds == IndsAfter(f, i, s) && f2.inds == IndsAfter(f, j, t)
    requires Slot(f1, j, NDIRECT) == Slot(f, j, NDIRECT) && Slot(f2, i, NDIRECT) == Slot(f, i, NDIRECT)
    requires Indirect(s) && Indirect(t) ==> IndKey(f, i, s) != IndKey(f, j, t)
    ensures IndsAfter(f1, j, t) == IndsAfter(f2, i, s)
  {
    hide Slot, NoWords, Poke;
  }

  lemma {:induction false} FlipsCommute(x: bv8, a: nat, on: bool, b: nat, on': bool)
    requires a % 8 != b % 8
    ensures Flip(Flip(x, a, on), b, on') == Flip(Flip(x, b, on'), a, on)
  {
  }

  /** A byte with the bit of block b set or cleared. */
  function SetBit(w: seq<bv8>, x: nat, b: nat, on: bool): (w': seq<bv8>)
    requires x < |w|
    ensures |w'| == |w|
  {
    w[x := Flip(w[x], b, on)]
  }

  lemma {:induction false} BitsCommute(w: seq<bv8>, x: nat, a: nat, on: bool, y: nat, b: nat, on': bool)
    requires x < |w| && y < |w| && (x == y ==> a % 8 != b % 8)
    ensures SetBit(SetBit(w, x, a, on), y, b, on') == SetBit(SetBit(w, y, b, on'), x, a, on)
  {
    if x == y { FlipsCommute(w[x], a, on, b, on'); }
    hide Flip;
  }

  /** A store to block p and, if on, zeros in block a. */
  function Store(m: Blocks, p: nat, u: seq<bv8>, a: nat, on: bool): Blocks {
    if on then m[p := u][a := Zeros()] else m[p := u]
  }

  /** Marking a block, spelled out. */
  lemma {:induction false} MarkedStore(sb: Super, blocks: Blocks, b: nat, on: bool)
    requires BBLOCK(sb, b) in blocks && |blocks[BBLOCK(sb, b)]| == BSIZE
    ensures Cell(b) < BSIZE
    ensures Marked(sb, blocks, b, on) ==
      Store(blocks, BBLOCK(sb, b), SetBit(blocks[BBLOCK(sb, b)], Cell(b), b, on), b, on)
  {
    Fs.Places(b);
    hide BBLOCK, Cell, Flip, Zeros;
  }

  lemma {:induction false} CommuteMarks(sb: Super, blocks: Blocks, a: nat, on: bool, b: nat, on': bool)
    requires BBLOCK(sb, a) in blocks && |blocks[BBLOCK(sb, a)]| == BSIZE
    requires BBLOCK(sb, b) in blocks && |blocks[BBLOCK(sb, b)]| == BSIZE
    requires a != b && BBLOCK(sb, a) !in {a, b} && BBLOCK(sb, b) !in {a, b}
    ensures Marked(sb, Marked(sb, blocks, a, on), b, on') == Marked(sb, Marked(sb, blocks, b, on'), a, on)
  {
    if BBLOCK(sb, a) == BBLOCK(sb, b) && Cell(a) == Cell(b) && a % 8 == b % 8 { BitPlace(sb, a, b); }
    hide BBLOCK, Cell, SetBit, Marked, Store;
    MarkedStore(sb, blocks, a, on);
    MarkedStore(sb, blocks, b, on');
    var p, q, x, y := BBLOCK(sb, a), BBLOCK(sb, b), Cell(a), Cell(b);
    var u, v := SetBit(blocks[p], x, a, on), SetBit(blocks[q], y, b, on');
    var l, r := Marked(sb, blocks, a, on), Marked(sb, blocks, b, on');
    StoreAt(blocks, p, u, a, on, q);
    StoreAt(blocks, q, v, b, on', p);
    MarkedStore(sb, l, b, on');
    MarkedStore(sb, r, a, on);
    if p == q {
      BitsCommute(blocks[p], x, a, on, y, b, on');
      StoresSame(blocks, p, u, v, SetBit(u, y, b, on'), a, on, b, on');
    } else {
      StoresApart(blocks, p, u, q, v, a, on, b, on');
    }
  }

  lemma {:induction false} StoreAt(m: Blocks, p: nat, u: seq<bv8>, a: nat, on: bool, q: nat)
    requires q != a && q in m
    ensures q in Store(m, p, u, a, on) && Store(m, p, u, a, on)[q] == if q == p then u else m[q]
  {
  }

  lemma {:induction false} StoresApart(m: Blocks, p: nat, u: seq<bv8>, q: nat, v: seq<bv8>, a: nat, on: bool, b: nat,
        on': bool)
    requires p != q && p !in {a, b} && q !in {a, b}
    ensures Store(Store(m, p, u, a, on), q, v, b, on') == Store(Store(m, q, v, b, on'), p, u, a, on)
  {
    hide Zeros;
  }

  lemma {:induction false} StoresSame(m: Blocks, p: nat, u: seq<bv8>, v: seq<bv8>, w: seq<bv8>, a: nat, on: bool,
        b: nat,
        on': bool)
    requires p !in {a, b}
    ensures Store(Store(m, p, u, a, on), p, w, b, on') == Store(Store(m, p, v, b, on'), p, w, a, on)
  {
    hide Zeros;
  }

  lemma {:induction false} CommuteLayMark(sb: Super, blocks: Blocks, a: nat, off: nat, bytes: seq<bv8>, b: nat,
        on: bool)
    requires BBLOCK(sb, b) in blocks && |blocks[BBLOCK(sb, b)]| == BSIZE && a !in {b, BBLOCK(sb, b)}
    ensures Splice(Marked(sb, blocks, b, on), a, off, bytes) == Marked(sb, Splice(blocks, a, off, bytes), b, on)
  {
    hide BBLOCK, Cell, SetBit, Marked, Zeros;
    MarkedStore(sb, blocks, b, on);
    MarkedStore(sb, Splice(blocks, a, off, bytes), b, on);
  }

  lemma {:induction false} CommuteLays(blocks: Blocks, a: nat, off: nat, x: seq<bv8>, b: nat, off': nat, y: seq<bv8>)
    requires a != b
    ensures Splice(Splice(blocks, a, off, x), b, off', y) == Splice(Splice(blocks, b, off', y), a, off, x)
  {
  }

  /** What the step needs of the blocks: its bitmap block is there. */
  predicate HasMap(sb: Super, blocks: Blocks, s: Step) {
    Moves(s) ==> BBLOCK(sb, s.b) in blocks && |blocks[BBLOCK(sb, s.b)]| == BSIZE && BBLOCK(sb, s.b) != s.b
  }

  /** Block a is not one of those that the step allocates, frees or marks. */
  predicate Clear(sb: Super, a: nat, s: Step) { Moves(s) ==> a != s.b && a != BBLOCK(sb, s.b) }

  lemma {:induction false} CommuteBy(sb: Super, blocks: Blocks, a: nat, s: Step, b: nat, t: Step)
    requires HasMap(sb, blocks, s) && HasMap(sb, blocks, t) && (s.Lay? && t.Lay? ==> a != b)
    requires (s.Lay? ==> Clear(sb, a, t)) && (t.Lay? ==> Clear(sb, b, s))
    requires Moves(s) && Moves(t) ==> s.b != t.b && BBLOCK(sb, s.b) != t.b && BBLOCK(sb, t.b) != s.b
    ensures BlocksBy(sb, BlocksBy(sb, blocks, a, s), b, t) == BlocksBy(sb, BlocksBy(sb, blocks, b, t), a, s)
  {
    hide BBLOCK, Marked, Splice;
    if Moves(s) && Moves(t) {
      CommuteMarks(sb, blocks, s.b, Allocates(s), t.b, Allocates(t));
    } else if Moves(s) && t.Lay? {
      CommuteLayMark(sb, blocks, b, t.off, t.s, s.b, Allocates(s));
    } else if s.Lay? && Moves(t) {
      CommuteLayMark(sb, blocks, a, s.off, s.s, t.b, Allocates(t));
    } else if s.Lay? && t.Lay? {
      CommuteLays(blocks, a, s.off, s.s, b, t.off, t.s);
    }
  }

  lemma {:induction false} MapThere(sb: Super, d: Disk, i: nat, s: Step)
    requires Good(sb, d) && Can(sb, d, i, s)
    ensures HasMap(sb, d.blocks, s)
  {
    Places(sb, d, i, s);
    hide GoodBut, Addr, Slot, Own, BBLOCK, Can;
  }

  /** The block that a step lays bytes over is not touched by a step on another file. */
  lemma {:induction false} LayApart(sb: Super, d: Disk, i: nat, s: Step, j: nat, t: Step)
    requires Good(sb, d) && i != j && Can(sb, d, i, s) && Can(sb, d, j, t) && s.Lay?
    ensures Clear(sb, Addr(d.files, i, s.bn), t) && (t.Lay? ==> Addr(d.files, i, s.bn) != Addr(d.files, j, t.bn))
  {
    hide GoodBut, Addr, Own, BBLOCK, Can, Moves;
    LayPlace(sb, d, i, s);
    if t.Lay? { LayPlace(sb, d, j, t); }
    if Moves(t) { MovePlace(sb, d, j, t); }
  }

  lemma {:induction false} LayPlace(sb: Super, d: Disk, i: nat, s: Step)
    requires Good(sb, d) && Can(sb, d, i, s) && s.Lay?
    ensures Own(d.own, Addr(d.files, i, s.bn)) == Data(i, s.bn)
  {
    hide GoodBut, Addr, Slot, Own, Can;
    Places(sb, d, i, s);
  }

  lemma {:induction false} MovePlace(sb: Super, d: Disk, i: nat, s: Step)
    requires Good(sb, d) && Can(sb, d, i, s) && Moves(s)
    ensures Mine(Own(d.own, s.b), i) && Own(d.own, BBLOCK(sb, s.b)).Meta?
  {
    hide GoodBut, Addr, Slot, Own, BBLOCK, Can;
    Places(sb, d, i, s);
  }

  lemma {:induction false} MapsApart(sb: Super, d: Disk, i: nat, s: Step, j: nat, t: Step)
    requires Good(sb, d) && Can(sb, d, i, s) && Can(sb, d, j, t) && Moves(s) && Moves(t)
    ensures BBLOCK(sb, s.b) != t.b && BBLOCK(sb, t.b) != s.b
  {
    hide GoodBut, Addr, Slot, Own, BBLOCK, Can, Moves;
    MovePlace(sb, d, i, s);
    MovePlace(sb, d, j, t);
  }

  lemma {:induction false} CommuteBlocks(sb: Super, d: Disk, i: nat, s: Step, j: nat, t: Step)
    requires Good(sb, d) && i != j && Can(sb, d, i, s) && Can(sb, d, j, t)
    requires Allocates(s) && Allocates(t) ==> s.b != t.b
    ensures BlocksAfter(sb, Do(sb, d, i, s), j, t) == BlocksAfter(sb, Do(sb, d, j, t), i, s)
  {
    OtherFile(sb, d, i, s, j);
    OtherFile(sb, d, j, t, i);
    MoveApart(sb, d, i, s, j, t);
    MapThere(sb, d, i, s);
    MapThere(sb, d, j, t);
    if Moves(s) && Moves(t) { MapsApart(sb, d, i, s, j, t); }
    if s.Lay? { LayApart(sb, d, i, s, j, t); }
    if t.Lay? { LayApart(sb, d, j, t, i, s); }
    assert Do(sb, d, i, s).blocks == BlocksAfter(sb, d, i, s) && Do(sb, d, j, t).blocks == BlocksAfter(sb, d, j, t);
    hide GoodBut, Addr, Slot, Own, BBLOCK, BlocksBy, Can, HasMap, Clear, Indirect, Moves, Allocates, Do;
    CommuteBy(sb, d.blocks, if s.Lay? then Addr(d.files, i, s.bn) else 0, s,
              if t.Lay? then Addr(d.files, j, t.bn) else 0, t);
  }

  /** Steps on different files move different blocks, but for the block that both would take. */
  lemma {:induction false} MoveApart(sb: Super, d: Disk, i: nat, s: Step, j: nat, t: Step)
    requires Good(sb, d) && i != j && Can(sb, d, i, s) && Can(sb, d, j, t)
    requires Allocates(s) && Allocates(t) ==> s.b != t.b
    ensures Moves(s) && Moves(t) ==> s.b != t.b
    ensures Indirect(s) && Indirect(t) ==> IndKey(d.files, i, s) != IndKey(d.files, j, t)
  {
    Places(sb, d, i, s);
    Places(sb, d, j, t);
    hide GoodBut, Addr, Slot, Own, BBLOCK, Can;
  }

  /** Steps on different files commute. */
  lemma {:induction false} Commute(sb: Super, d: Disk, i: nat, s: Step, j: nat, t: Step)
    requires Good(sb, d) && i != j && Can(sb, d, i, s) && Can(sb, d, j, t)
    requires Allocates(s) && Allocates(t) ==> s.b != t.b
    ensures Do(sb, Do(sb, d, i, s), j, t) == Do(sb, Do(sb, d, j, t), i, s)
  {
    var d1, d2 := Do(sb, d, i, s), Do(sb, d, j, t);
    MoveApart(sb, d, i, s, j, t);
    CommuteBlocks(sb, d, i, s, j, t);
    CommuteOwn(d.own, i, s, j, t);
    CommuteInodes(d.files, d1.files, d2.files, i, s, j, t);
    OtherFile(sb, d, i, s, j);
    OtherFile(sb, d, j, t, i);
    hide GoodBut, Addr, Slot, Own, BBLOCK, BlocksAfter, IndsAfter, InodesAfter, OwnAfter;
    CommuteInds(d.files, d1.files, d2.files, i, s, j, t);
  }

  /** A step on file i that was done after one on file j could have been done before it, to the same effect. */
  lemma {:induction false} Swap(sb: Super, d: Disk, j: nat, s: Step, i: nat, t: Step)
    requires Good(sb, d) && i != j && Can(sb, d, j, s) && Can(sb, Do(sb, d, j, s), i, t) && !Passes(s, t)
    ensures Can(sb, d, i, t) && Can(sb, Do(sb, d, i, t), j, s)
    ensures Do(sb, Do(sb, d, i, t), j, s) == Do(sb, Do(sb, d, j, s), i, t)
    ensures StepLog(sb, Do(sb, d, j, s).files, i, t) == StepLog(sb, d.files, i, t)
    ensures StepLog(sb, Do(sb, d, i, t).files, j, s) == StepLog(sb, d.files, j, s)
  {
    hide GoodBut, Can, Do, Allocates;
    CanOther(sb, d, j, s, i, t);
    NotPassed(sb, d, i, t, j, s);
    CanOther(sb, d, i, t, j, s);
    Commute(sb, d, j, s, i, t);
    OtherFile(sb, d, j, s, i);
    OtherFile(sb, d, i, t, j);
    hide Addr, Slot, BBLOCK, IBLOCK;
  }

  lemma {:induction false} NotPassed(sb: Super, d: Disk, i: nat, t: Step, j: nat, s: Step)
    requires Good(sb, d) && Can(sb, d, i, t) && Can(sb, d, j, s)
    ensures !Passes(t, s)
  {
    Places(sb, d, i, t);
    Places(sb, d, j, s);
    hide GoodBut, Addr, Slot, Own, BBLOCK, Can;
  }

  // ----- programs: the steps of one operation, on one file -----

  function SetOf(s: seq<nat>): set<nat> { set x | x in s }

  function Prog(sb: Super, d: Disk, i: nat, ss: seq<Step>): Disk
    decreases |ss|
  {
    if ss == [] then d else Prog(sb, Do(sb, d, i, ss[0]), i, ss[1..])
  }

  predicate CanProg(sb: Super, d: Disk, i: nat, ss: seq<Step>)
    decreases |ss|
  {
    ss == [] || (Can(sb, d, i, ss[0]) && CanProg(sb, Do(sb, d, i, ss[0]), i, ss[1..]))
  }

  function ProgLog(sb: Super, d: Disk, i: nat, ss: seq<Step>): seq<nat>
    decreases |ss|
  {
    if ss == [] then [] else StepLog(sb, d.files, i, ss[0]) + ProgLog(sb, Do(sb, d, i, ss[0]), i, ss[1..])
  }

  lemma {:induction false} ProgThen(sb: Super, d: Disk, i: nat, ss: seq<Step>, ts: seq<Step>)
    ensures Prog(sb, d, i, ss + ts) == Prog(sb, Prog(sb, d, i, ss), i, ts)
    ensures CanProg(sb, d, i, ss + ts) <==> CanProg(sb, d, i, ss) && CanProg(sb, Prog(sb, d, i, ss), i, ts)
    ensures ProgLog(sb, d, i, ss + ts) == ProgLog(sb, d, i, ss) + ProgLog(sb, Prog(sb, d, i, ss), i, ts)
    decreases |ss|
  {
    hide Do, Can, StepLog;
    if ss == [] {
      assert ss + ts == ts;
    } else {
      ProgThen(sb, Do(sb, d, i, ss[0]), i, ss[1..], ts);
      assert (ss + ts)[1..] == ss[1..] + ts;
    }
  }

  lemma {:induction false} ProgGood(sb: Super, d: Disk, i: nat, ss: seq<Step>)
    requires Good(sb, d) && CanProg(sb, d, i, ss)
    ensures Good(sb, Prog(sb, d, i, ss)) && Handed(d.own, Prog(sb, d, i, ss).own, i)
    decreases |ss|
  {
    hide GoodBut, Can, Do, Own;
    if ss != [] {
      DoGood(sb, d, i, ss[0]);
      ProgGood(sb, Do(sb, d, i, ss[0]), i, ss[1..]);
      HandedThen(d.own, Do(sb, d, i, ss[0]).own, Prog(sb, d, i, ss).own, i);
    }
  }

  lemma {:induction false} HandedThen(o: Owners, o1: Owners, o2: Owners, i: nat)
    requires Handed(o, o1, i) && Handed(o1, o2, i)
    ensures Handed(o, o2, i)
  {
    hide Own;
    forall b: nat ensures Own(o2, b) == Own(o, b) || (Mine(Own(o, b), i) && Mine(Own(o2, b), i)) {
      assert Own(o1, b) == Own(o, b) || (Mine(Own(o, b), i) && Mine(Own(o1, b), i));
    }
  }

  /**
   A step on another file that was done before a program could have been done after it, to the same effect, unless
   the program takes a block that the step freed.
   */
  lemma {:induction false} Delay(sb: Super, d: Disk, j: nat, s: Step, i: nat, ss: seq<Step>)
    requires Good(sb, d) && i != j && Can(sb, d, j, s) && CanProg(sb, Do(sb, d, j, s), i, ss)
    requires forall t <- ss :: !Passes(s, t)
    ensures CanProg(sb, d, i, ss) && Can(sb, Prog(sb, d, i, ss), j, s)
    ensures Do(sb, Prog(sb, d, i, ss), j, s) == Prog(sb, Do(sb, d, j, s), i, ss)
    ensures ProgLog(sb, Do(sb, d, j, s), i, ss) == ProgLog(sb, d, i, ss)
    ensures StepLog(sb, Prog(sb, d, i, ss).files, j, s) == StepLog(sb, d.files, j, s)
    decreases |ss|
  {
    hide GoodBut, Can, Do, StepLog, Passes;
    if ss != [] {
      Swap(sb, d, j, s, i, ss[0]);
      DoGood(sb, d, i, ss[0]);
      Delay(sb, Do(sb, d, i, ss[0]), j, s, i, ss[1..]);
    }
  }

  /** What a step obliges its operation to do later: to store the inode, and to free the indirect block. */
  predicate Due(s: Step, rest: seq<Step>) {
    (ChangesInode(s) ==> Save in rest) && (s.FreeVia? ==> exists z <- rest :: z.FreeInd?)
  }

  /** All that the steps oblige the operation to do is done. */
  predicate Complete(ss: seq<Step>) { ss == [] || (Due(ss[0], ss[1..]) && Complete(ss[1..])) }

  lemma {:induction false} CompleteThen(ss: seq<Step>, ts: seq<Step>)
    requires Complete(ts) && Save in ts && ((exists z <- ts :: z.FreeInd?) || forall s <- ss :: !s.FreeVia?)
    ensures Complete(ss + ts)
    decreases |ss|
  {
    if ss == [] {
      assert ss + ts == ts;
    } else {
      CompleteThen(ss[1..], ts);
      assert (ss + ts)[0] == ss[0] && (ss + ts)[1..] == ss[1..] + ts;
    }
  }

  lemma {:induction false} CompleteSaves(ss: seq<Step>, s: Step)
    requires Complete(ss) && s in ss && ChangesInode(s)
    ensures Save in ss
    decreases |ss|
  {
    assert ss == [ss[0]] + ss[1..];
    if s != ss[0] { CompleteSaves(ss[1..], s); }
  }

  lemma {:induction false} SlotStays(sb: Super, d: Disk, i: nat, s: Step)
    requires Can(sb, d, i, s) && Slot(d.files, i, NDIRECT) != 0 && !s.FreeInd?
    ensures Slot(Do(sb, d, i, s).files, i, NDIRECT) == Slot(d.files, i, NDIRECT)
  {
    hide BlocksAfter, IndsAfter, OwnAfter, Addr, Own;
  }

  /** A free block is taken only by a step that logs it. */
  lemma {:induction false} FreeStep(sb: Super, d: Disk, i: nat, s: Step, b: nat)
    requires Good(sb, d) && Can(sb, d, i, s) && Own(d.own, b).Free?
    ensures Own(Do(sb, d, i, s).own, b).Free? || b in StepLog(sb, d.files, i, s)
  {
    OwnDone(sb, d, i, s, b);
    hide GoodBut, Addr, Slot, Own, BBLOCK, IBLOCK, Do;
    Places(sb, d, i, s);
  }

  lemma {:induction false} FreeIndStep(sb: Super, d: Disk, i: nat, s: Step)
    requires Can(sb, d, i, s) && s.FreeInd?
    ensures s.b == Slot(d.files, i, NDIRECT) && Own(Do(sb, d, i, s).own, s.b).Free?
  {
    OwnDone(sb, d, i, s, s.b);
    hide Addr, Slot, Own, Do;
  }

  // ----- traces: the steps of operations that overlap -----

  datatype Act = Act(op: nat, step: Step)

  /** Step z must stay after step a: they are on the same file, or it takes the block that step a freed. */
  predicate Depends(who: map<nat, nat>, a: Act, z: Act) {
    FileOf(who, a.op) == FileOf(who, z.op) || Passes(a.step, z.step)
  }

  /** Some step of operation q must stay after some step of operation p. */
  predicate Before(who: map<nat, nat>, tr: seq<Act>, p: nat, q: nat) {
    tr != [] && (
      || (tr[0].op == p && exists z <- tr[1..] :: z.op == q && Depends(who, tr[0], z))
      || Before(who, tr[1..], p, q))
  }

  /** No step of operation o must stay after one of another operation: `who` gives the file of each. */
  ghost predicate HeldFirst(who: map<nat, nat>, tr: seq<Act>, o: nat) {
    forall p: nat :: p in who && p != o ==> !Before(who, tr, p, o)
  }

  function FileOf(who: map<nat, nat>, o: nat): nat { if o in who then who[o] else 0 }

  function Trace(sb: Super, d: Disk, who: map<nat, nat>, tr: seq<Act>): Disk
    decreases |tr|
  {
    if tr == [] then d else Trace(sb, Do(sb, d, FileOf(who, tr[0].op), tr[0].step), who, tr[1..])
  }

  predicate CanTrace(sb: Super, d: Disk, who: map<nat, nat>, tr: seq<Act>)
    decreases |tr|
  {
    tr == [] || (
      var i := FileOf(who, tr[0].op);
      tr[0].op in who && Can(sb, d, i, tr[0].step) && CanTrace(sb, Do(sb, d, i, tr[0].step), who, tr[1..]))
  }

  /** The blocks that operation o passes to log_write, in order. */
  function OpLog(sb: Super, d: Disk, who: map<nat, nat>, tr: seq<Act>, o: nat): seq<nat>
    decreases |tr|
  {
    if tr == [] then [] else
      var i := FileOf(who, tr[0].op);
      (if tr[0].op == o then StepLog(sb, d.files, i, tr[0].step) else []) +
      OpLog(sb, Do(sb, d, i, tr[0].step), who, tr[1..], o)
  }

  /** The steps of operation o. */
  function StepsOf(tr: seq<Act>, o: nat): (ss: seq<Step>)
    ensures forall s :: s in ss <==> Act(o, s) in tr
  {
    if tr == [] then [] else
      assert tr == [tr[0]] + tr[1..];
      (if tr[0].op == o then [tr[0].step] else []) + StepsOf(tr[1..], o)
  }

  /** The steps of the other operations. */
  function Others(tr: seq<Act>, o: nat): (r: seq<Act>)
    ensures forall a :: a in r <==> a in tr && a.op != o
  {
    if tr == [] then [] else
      assert tr == [tr[0]] + tr[1..];
      (if tr[0].op != o then [tr[0]] else []) + Others(tr[1..], o)
  }

  /** A step of another operation before those of o is on another file and frees no block that they take. */
  lemma {:induction false} HeldApart(who: map<nat, nat>, tr: seq<Act>, o: nat)
    requires HeldFirst(who, tr, o) && tr != [] && tr[0].op != o && tr[0].op in who
    ensures forall s <- StepsOf(tr[1..], o) :: !Depends(who, tr[0], Act(o, s))
    ensures HeldFirst(who, tr[1..], o)
  {
    hide Depends;
    forall s | s in StepsOf(tr[1..], o) ensures !Depends(who, tr[0], Act(o, s)) {
      assert Act(o, s) in tr[1..];
      assert !Before(who, tr, tr[0].op, o);
    }
  }

  /**
   All steps of one operation can be done first, then those of the others, to the
   same effect; every operation passes the same blocks to log_write.
   */
  lemma {:induction false} Pull(sb: Super, d: Disk, who: map<nat, nat>, tr: seq<Act>, o: nat)
    requires Good(sb, d) && HeldFirst(who, tr, o) && CanTrace(sb, d, who, tr) && o in who
    ensures var d1 := Prog(sb, d, who[o], StepsOf(tr, o));
      && CanProg(sb, d, who[o], StepsOf(tr, o)) && CanTrace(sb, d1, who, Others(tr, o))
      && Trace(sb, d1, who, Others(tr, o)) == Trace(sb, d, who, tr)
      && ProgLog(sb, d, who[o], StepsOf(tr, o)) == OpLog(sb, d, who, tr, o)
      && forall p: nat :: p != o ==> OpLog(sb, d1, who, Others(tr, o), p) == OpLog(sb, d, who, tr, p)
    decreases |tr|
  {
    hide GoodBut, Can, Do, StepLog, Passes;
    if tr != [] {
      var a, tail := tr[0], tr[1..];
      var j := FileOf(who, a.op);
      assert HeldFirst(who, tail, o) by { hide Depends; }
      DoGood(sb, d, j, a.step);
      Pull(sb, Do(sb, d, j, a.step), who, tail, o);
      if a.op == o {
        assert StepsOf(tr, o)[1..] == StepsOf(tail, o) && Others(tr, o) == Others(tail, o);
      } else {
        HeldApart(who, tr, o);
        if StepsOf(tail, o) != [] {
          assert !Depends(who, a, Act(o, StepsOf(tail, o)[0]));
          assert forall t <- StepsOf(tail, o) :: !Passes(a.step, t);
          Delay(sb, d, j, a.step, who[o], StepsOf(tail, o));
        }
        assert StepsOf(tr, o) == StepsOf(tail, o) && Others(tr, o)[1..] == Others(tail, o);
      }
    }
  }
}
