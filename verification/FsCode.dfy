/**
 The code of kernel/fs.c and filewrite of kernel/file.c as methods that change
 the file system in place. A transaction's log_write calls are collected in
 `logged`.
 */
module FsCode {
  import opened Arith
  import opened Fs
  import opened FsSteps

  const MAXOPBLOCKS: nat := 10
  /** filewrite: ((MAXOPBLOCKS-1-1-2) / 2) * BSIZE */
  const MAXCHUNK: nat := (MAXOPBLOCKS - 1 - 1 - 2) / 2 * BSIZE
  /** uint is 32 bits wide */
  const UINT: nat := 0x1_0000_0000

  /** off + n < off, in uint arithmetic */
  predicate Wraps(off: nat, n: nat) { (off + n) % UINT < off }

  /** How many blocks of the file the bytes [off, off + n) meet. */
  function Touched(off: nat, n: nat): nat { if n == 0 then 0 else (off + n - 1) / BSIZE - off / BSIZE + 1 }

  ghost function IndSet(f: Files, i: nat): set<nat> { if Slot(f, i, NDIRECT) != 0 then {Slot(f, i, NDIRECT)} else {} }

  /** 1 if the indirect block was allocated on the way from f to f'. */
  ghost function IndCost(f: Files, f': Files, i: nat): nat {
    if Slot(f, i, NDIRECT) == 0 && Slot(f', i, NDIRECT) != 0 then 1 else 0
  }

  lemma {:induction false} BitOf(sb: Super, b: nat, bi: nat)
    requires b % BPB == 0 && bi < BPB
    ensures BBLOCK(sb, b + bi) == BBLOCK(sb, b) && Cell(b + bi) == bi / 8 && (b + bi) % 8 == bi % 8
  {
    Quotient(b + bi, b / BPB, bi, BPB);
    assert b == (b / BPB * 1024) * 8;
    Quotient(b + bi, b / BPB * 1024 + bi / 8, bi % 8, 8);
  }

  /** The bit that balloc looks at is the bit of block b + bi. */
  lemma {:induction false} SameBit(blocks: Blocks, sb: Super, b: nat, bi: nat)
    requires b % BPB == 0 && bi < BPB
    ensures BitAt(blocks, sb, b + bi) == Test(Byte(blocks, BBLOCK(sb, b), bi / 8), bi)
    ensures MarkBit(blocks, sb, b + bi, true) ==
      SetByte(blocks, BBLOCK(sb, b), bi / 8, Flip(Byte(blocks, BBLOCK(sb, b), bi / 8), bi, true))
  {
    BitOf(sb, b, bi);
    hide BBLOCK, Cell, SetByte, Byte;
    assert Mask(b + bi) == Mask(bi);
  }

  lemma {:induction false} MaskMod(b: nat)
    ensures Mask(b % BPB) == Mask(b)
  {
    Fs.Places(b);
    var q := b / BPB;
    Quotient(b % BPB, Cell(b), b % 8, 8);
  }

  lemma {:induction false} MarkMod(blocks: Blocks, sb: Super, b: nat, on: bool)
    ensures MarkBit(blocks, sb, b, on) ==
      SetByte(blocks, BBLOCK(sb, b), b % BPB / 8, Flip(Byte(blocks, BBLOCK(sb, b), b % BPB / 8), b % BPB, on))
  {
    MaskMod(b);
    hide Byte, SetByte, Mask, BBLOCK;
  }

  lemma {:induction false} BootBlock(sb: Super, d: Disk)
    requires Good(sb, d)
    ensures Own(d.own, 0).Meta?
  {
    hide Shape, BitmapExact, MapUp, MapDown;
  }

  lemma {:induction false} BitFree(sb: Super, d: Disk, b: nat)
    requires GoodBut(sb, d, 0, 0) && b < sb.size
    ensures BitAt(d.blocks, sb, b) == !Own(d.own, b).Free?
  {
    hide Shape, Layout, MapUp, MapDown, BitAt, Own;
  }

  lemma {:induction false} BmapSame(sb: Super, d: Disk, i: nat, bn: nat)
    requires Good(sb, d) && (Addr(d.files, i, bn) == 0 ==> Full(sb, d.own))
    ensures BmapDone(sb, d, d, i, bn, Addr(d.files, i, bn))
  {
    hide GoodBut, Addr, Own, FByte, Slot;
  }

  lemma {:induction false} Same(d: Disk, i: nat)
    ensures SameBytes(d, d) && SameMap(d.files, d.files)
    ensures SameInodes(d.files, d.files, i) && OwnersKept(d.own, d.own, i)
  {
    hide Addr, Own, FByte;
  }

  lemma {:induction false} UnionSize(a: set<nat>, b: set<nat>)
    ensures |a + b| <= |a| + |b|
  {
    assert |a + b| + |a * b| == |a| + |b|;
  }

  /** Inodes other than i are untouched. */
  ghost predicate SameButSize(f: Files, f': Files, i: nat) {
    f'.inodes.Keys == f.inodes.Keys && forall j :: j in f.inodes && j != i ==> f'.inodes[j] == f.inodes[j]
  }

  /** A write that starts inside a block finds that block allocated, if the file has no holes. */
  ghost function Slack(f: Files, i: nat, off: nat): (s: nat)
    ensures s <= 1
  {
    if NoHoles(f, i) && off % BSIZE != 0 then 1 else 0
  }

  /** After k chunks of a write of n bytes at off, tot bytes are done. */
  predicate Chunks(off: nat, tot: nat, n: nat, k: nat) {
    && k <= Touched(off, n) && (k == 0 ==> tot == 0)
    && (tot < n ==> k == (off + tot) / BSIZE - off / BSIZE)
  }

  lemma {:induction false} ChunksStep(off: nat, tot: nat, n: nat, k: nat)
    requires Chunks(off, tot, n, k) && tot < n
    ensures k + 1 <= Touched(off, n)
    ensures Chunks(off, if n - tot < BSIZE - (off + tot) % BSIZE then n
      else tot + (BSIZE - (off + tot) % BSIZE), n, k + 1)
  {
    Quotient(off + tot + (BSIZE - (off + tot) % BSIZE), (off + tot) / BSIZE + 1, 0, BSIZE);
  }

  /** File i maps what it did at positions that the bytes [off, off + n) do not meet. */
  ghost predicate MapWithin(f: Files, f': Files, i: nat, off: nat, n: nat) {
    forall k: nat :: n == 0 || k < off / BSIZE || (off + n - 1) / BSIZE < k ==> Addr(f', i, k) == Addr(f, i, k)
  }

  /** All positions of file i but bn are as they were. */
  ghost predicate MapAt(f: Files, f': Files, i: nat, bn: nat) {
    forall k: nat :: k != bn ==> Addr(f', i, k) == Addr(f, i, k)
  }

  lemma {:induction false} MapWithinStep(f: Files, f1: Files, f2: Files, i: nat, off: nat, tot: nat, n: nat)
    requires MapWithin(f, f1, i, off, n) && MapAt(f1, f2, i, (off + tot) / BSIZE) && tot < n
    ensures MapWithin(f, f2, i, off, n)
  {
    hide Addr;
    assert off / BSIZE <= (off + tot) / BSIZE <= (off + n - 1) / BSIZE;
  }

  lemma {:induction false} MapSame(f: Files, i: nat, off: nat, n: nat)
    ensures MapWithin(f, f, i, off, n)
  {
  }

  lemma {:induction false} BmapAt(sb: Super, d: Disk, d': Disk, i: nat, bn: nat, r: nat)
    requires BmapDone(sb, d, d', i, bn, r)
    ensures MapAt(d.files, d'.files, i, bn)
  {
    hide GoodBut, Addr, Own, FByte, Full, Slot;
  }

  lemma {:induction false} SlackFirst(sb: Super, d0: Disk, d: Disk, i: nat, off: nat, src: seq<bv8>)
    requires Wrote(sb, d0, d, i, off, src, 0) && off <= Size(d0.files, i)
    ensures Addr(d.files, i, off / BSIZE) == 0 ==> Slack(d0.files, i, off) == 0
  {
    hide GoodBut, Addr, Own, FByte, Size;
  }

  /**
   From f0 and l0 on, file i had at most cost blocks logged, not counting its indirect
   block and the bitmap block for that.
   */
  ghost predicate Paid(f0: Files, l0: set<nat>, f: Files, l: set<nat>, i: nat, spent: set<nat>, cost: nat) {
    && l <= l0 + spent + IndSet(f, i) && |spent| <= cost + IndCost(f0, f, i)
    && (Slot(f0, i, NDIRECT) != 0 ==> Slot(f, i, NDIRECT) == Slot(f0, i, NDIRECT))
  }

  lemma {:induction false} PaidStep(f0: Files, l0: set<nat>, f1: Files, l1: set<nat>, f2: Files, l2: set<nat>,
        i: nat, spent: set<nat>, extra: set<nat>, cost: nat, more: nat)
    requires Paid(f0, l0, f1, l1, i, spent, cost) && Paid(f1, l1, f2, l2, i, extra, more)
    ensures Paid(f0, l0, f2, l2, i, spent + extra, cost + more)
  {
    hide Slot;
    UnionSize(spent, extra);
  }

  lemma {:induction false} PaidNothing(f: Files, l: set<nat>, i: nat)
    ensures Paid(f, l, f, l, i, {}, 0)
  {
  }

  lemma {:induction false} Tally(f0: Files, l0: set<nat>, f: Files, l: set<nat>, i: nat, spent: set<nat>, cost: nat)
    requires Paid(f0, l0, f, l, i, spent, cost)
    ensures |l| <= |l0| + cost + 1 + (if f == f0 then 0 else 1)
  {
    hide Slot;
    UnionSize(l0, spent);
    UnionSize(l0 + spent, IndSet(f, i));
    SubsetSize(l, l0 + spent + IndSet(f, i));
  }

  /** The end of writei: the size is brought up to date. */
  lemma {:induction false} WriteDone(sb: Super, d0: Disk, d: Disk, i: nat, off: nat, src: seq<bv8>, w: nat,
        tot: nat, size: nat)
    requires Settled(sb, d0.own) && SizesOk(d0.files)
    requires Wrote(sb, d0, d, i, off, src, w) && tot <= w && i in d0.files.inodes
    requires off <= Size(d0.files, i) && off + tot <= MAXFILE * BSIZE
    requires size == if off + tot > Size(d0.files, i) then off + tot else Size(d0.files, i)
    ensures Good(sb, d.(files := SetSize(d.files, i, size))) && Settled(sb, d.own) && SizesOk(SetSize(d.files, i, size))
    ensures Patched(d0, d.(files := SetSize(d.files, i, size)), i, off, src[..w])
    ensures Size(SetSize(d.files, i, size), i) == size
    ensures SameButSize(d0.files, SetSize(d.files, i, size), i) && OwnersKept(d0.own, d.own, i)
    ensures forall n: nat ::
      MapWithin(d0.files, d.files, i, off, n) ==> MapWithin(d0.files, SetSize(d.files, i, size), i, off, n)
    ensures Size(d.files, i) == Size(d0.files, i) && (size == Size(d.files, i) ==> SetSize(d.files, i, size) == d.files)
    ensures NoHoles(d0.files, i) ==> NoHoles(SetSize(d.files, i, size), i)
  {
    hide GoodBut, Addr, Own, FByte;
    SetSizeGood(sb, d, i, size);
    assert Covered(SetSize(d.files, i, size), i, off, w) && MapKept(d0.files, SetSize(d.files, i, size), i);
    if NoHoles(d0.files, i) {
      StillNoHoles(d0.files, SetSize(d.files, i, size), i, off, w);
    }
    hide NoHoles, MapKept, Covered;
  }

  /** Bytes [p, p + m) of a block of the file are bytes of the file. */
  lemma {:induction false} ReadSlice(sb: Super, d: Disk, i: nat, p: nat, m: nat)
    requires Good(sb, d) && Addr(d.files, i, p / BSIZE) != 0 && p % BSIZE + m <= BSIZE && p + m <= Size(d.files, i)
    ensures Addr(d.files, i, p / BSIZE) in d.blocks && |d.blocks[Addr(d.files, i, p / BSIZE)]| == BSIZE
    ensures d.blocks[Addr(d.files, i, p / BSIZE)][p % BSIZE..p % BSIZE + m] == Content(d, i)[p..p + m]
  {
    hide GoodBut, Addr, Size;
    DataHit(sb, d, 0, 0, i, p / BSIZE);
    var s, t := d.blocks[Addr(d.files, i, p / BSIZE)][p % BSIZE..p % BSIZE + m], Content(d, i)[p..p + m];
    forall k: nat | k < m ensures s[k] == t[k] {
      SameBlock(p, p + k, m);
      assert Content(d, i)[p + k] == FByte(d, i, p + k);
    }
  }

  lemma {:induction false} SliceJoin(s: seq<bv8>, off: nat, a: nat, b: nat)
    requires off + a + b <= |s|
    ensures s[off..off + a] + s[off + a..off + a + b] == s[off..off + (a + b)]
  {
  }

  lemma {:induction false} SliceCut(s: seq<bv8>, off: nat, a: nat, k: nat)
    requires off + a <= |s| && k <= a
    ensures s[off..off + a][..k] == s[off..off + k]
  {
  }

  /** Reading goes on over what the file held when it began. */
  lemma {:induction false} SameContent(d: Disk, d': Disk, i: nat)
    requires SameBytes(d, d') && Size(d'.files, i) == Size(d.files, i)
    ensures Content(d', i) == Content(d, i)
  {
    hide FByte, Size;
  }

  /** The outcome of a read at off of n bytes: r and what was copied out. */
  ghost predicate Delivered(content: seq<bv8>, off: nat, n: nat, limit: nat, r: int, dst: seq<bv8>, short: bool)
    requires off <= |content|
  {
    var want := if off + n > |content| then |content| - off else n;
    && off + |dst| <= |content| && dst == content[off..off + |dst|]
    && (r == -1 ==> |dst| == limit < want)
    && (r != -1 ==> r == |dst| <= limit && (r == want || (short && r < want)))
  }

  /** A read allocated and logged something exactly if it met a hole and the disk was not full. */
  ghost predicate Filled(sb: Super, d: Disk, l: set<nat>, d': Disk, l': set<nat>, hole: bool) {
    && (!hole || Full(sb, d.own) ==> d' == d && l' == l)
    && (hole && !Full(sb, d.own) ==> Allocated(d.own, d'.own))
  }

  lemma {:induction false} FilledLogs(sb: Super, d: Disk, d': Disk, l: set<nat>, hole: bool)
    requires Filled(sb, d, {}, d', l, hole) && Logs(d, {}, d', l, {})
    ensures l != {} <==> hole && !Full(sb, d.own)
    ensures l == {} ==> d' == d
  {
    hide Own, Full;
    if hole && !Full(sb, d.own) {
      var b: nat :| Own(d.own, b).Free? && !Own(d'.own, b).Free?;
      assert Rewired(d, d', b);
    }
  }

  lemma {:induction false} NotFilled(sb: Super, d: Disk, l: set<nat>, d': Disk, l': set<nat>)
    requires Filled(sb, d, l, d', l', false)
    ensures d' == d && l' == l
  {
  }

  lemma {:induction false} FilledStill(sb: Super, d0: Disk, l0: set<nat>, d1: Disk, l1: set<nat>, d2: Disk,
        l2: set<nat>,
        i: nat)
    requires Filled(sb, d0, l0, d1, l1, true) && OwnersKept(d1.own, d2.own, i)
    requires Full(sb, d1.own) ==> d2 == d1 && l2 == l1
    ensures Filled(sb, d0, l0, d2, l2, true)
  {
    hide Allocated, OwnersKept, Full;
    if !Full(sb, d0.own) { AllocatedStill(d0.own, d1.own, d2.own, i); }
  }

  lemma {:induction false} FilledNow(sb: Super, d0: Disk, l0: set<nat>, d1: Disk, l1: set<nat>, d2: Disk, l2: set<nat>,
        hole: bool)
    requires Filled(sb, d0, l0, d1, l1, false) && (!hole || Full(sb, d1.own) ==> d2 == d1 && l2 == l1)
    requires hole && !Full(sb, d1.own) ==> Allocated(d1.own, d2.own)
    ensures Filled(sb, d0, l0, d2, l2, hole) && d1 == d0
  {
    hide Allocated, Full;
  }

  lemma {:induction false} ReadStart(sb: Super, d: Disk, i: nat, off: nat)
    requires Good(sb, d)
    ensures Reading(sb, d, d, i) && !HoleIn(d.files, i, off, 0) && |Content(d, i)| == Size(d.files, i)
    ensures forall l: set<nat> :: Filled(sb, d, l, d, l, false)
  {
    hide GoodBut, Addr, FByte, Own;
  }

  lemma {:induction false} ContentSize(d: Disk, i: nat)
    ensures |Content(d, i)| == Size(d.files, i)
  {
    hide FByte;
  }

  /** The chunk at off + tot lies in one block. */
  lemma {:induction false} HoleNext(f: Files, i: nat, off: nat, tot: nat, want: nat, m: nat)
    requires tot < want && !HoleIn(f, i, off, tot) && m <= BSIZE - (off + tot) % BSIZE
    ensures Addr(f, i, (off + tot) / BSIZE) == 0 ==> HoleIn(f, i, off, want)
    ensures Addr(f, i, (off + tot) / BSIZE) != 0 ==> !HoleIn(f, i, off, tot + m)
  {
    hide Addr;
    var k := (off + tot) / BSIZE;
    forall bn: nat | off / BSIZE <= bn && bn * BSIZE < off + tot + m && Addr(f, i, k) != 0 ensures Addr(f, i, bn) != 0 {
      assert bn <= k;
      if bn < k { assert bn * BSIZE < off + tot; }
    }
  }

  lemma {:induction false} HoleLess(f: Files, i: nat, off: nat, a: nat, b: nat)
    requires !HoleIn(f, i, off, a) && b <= a
    ensures !HoleIn(f, i, off, b)
  {
    hide Addr;
  }

  lemma {:induction false} BmapKeeps(sb: Super, d: Disk, d': Disk, i: nat, bn: nat, r: nat)
    requires BmapDone(sb, d, d', i, bn, r)
    ensures OwnersKept(d.own, d'.own, i) && (Addr(d.files, i, bn) != 0 ==> d' == d) && Addr(d'.files, i, bn) == r
  {
    hide Addr, GoodBut, SameBytes, SameInodes, OwnersKept, MapSet, Full;
  }

  /** A read of file i is on its way from d0: at most holes were filled. */
  ghost predicate Reading(sb: Super, d0: Disk, d: Disk, i: nat) {
    && Good(sb, d) && SameBytes(d0, d) && SameInodes(d0.files, d.files, i) && OwnersKept(d0.own, d.own, i)
    && (NoHoles(d0.files, i) ==> d == d0)
  }

  /** Some block of the want bytes from off on is not mapped. */
  ghost predicate HoleIn(f: Files, i: nat, off: nat, want: nat) {
    want > 0 && exists bn: nat :: off / BSIZE <= bn && bn * BSIZE < off + want && Addr(f, i, bn) == 0
  }

  /** How many bytes there are to read. */
  function Wanted(size: nat, off: nat, n: nat): nat
    requires off <= size
  {
    if off + n > size then size - off else n
  }

  /** How many bytes there are to look up: reading faults at byte `limit`, after the lookup of its block. */
  function Met(want: nat, limit: nat): nat { if limit < want then limit + 1 else want }

  /** Some block was free and is not any more, so balloc was called and passed blocks to log_write. */
  ghost predicate Allocated(o: Owners, o': Owners) {
    exists b: nat :: Own(o, b).Free? && !Own(o', b).Free?
  }

  lemma {:induction false} AllocatedStill(o: Owners, o1: Owners, o2: Owners, i: nat)
    requires Allocated(o, o1) && OwnersKept(o1, o2, i)
    ensures Allocated(o, o2)
  {
    hide Own;
    var b: nat :| Own(o, b).Free? && !Own(o1, b).Free?;
    assert Own(o2, b) == Own(o1, b);
  }

  /** bmap on a hole of a disk that is not full takes a block. */
  lemma {:induction false} HoleFilled(sb: Super, d: Disk, d': Disk, i: nat, bn: nat, r: nat)
    requires Good(sb, d) && BmapDone(sb, d, d', i, bn, r) && Addr(d.files, i, bn) == 0 && !Full(sb, d.own)
    ensures Allocated(d.own, d'.own)
  {
    hide Addr, Own, Shape, Layout, BitmapExact, SameBytes, SameInodes;
    if r != 0 {
      assert Own(d'.own, r) == Data(i, bn);
      assert Maps(d.files, r, Own(d.own, r));
      assert Own(d'.own, r) == Own(d.own, r) || Own(d.own, r).Free?;
    }
  }

  lemma {:induction false} NoHoleAt(f: Files, i: nat, p: nat)
    requires p < Size(f, i)
    ensures NoHoles(f, i) ==> Addr(f, i, p / BSIZE) != 0
  {
    hide Addr, Size;
  }

  lemma {:induction false} SizeBound(f: Files, i: nat, p: nat)
    requires SizesOk(f) && i in f.inodes && p < Size(f, i)
    ensures p / BSIZE < MAXFILE
  {
  }

  /** bmap in the middle of a read. */
  lemma {:induction false} ReadOn(sb: Super, d0: Disk, d: Disk, d': Disk, i: nat, bn: nat, r: nat)
    requires SameBytes(d0, d) && SameInodes(d0.files, d.files, i)
    requires OwnersKept(d0.own, d.own, i) && BmapDone(sb, d, d', i, bn, r)
    ensures Good(sb, d') && SameBytes(d0, d') && SameInodes(d0.files, d'.files, i) && OwnersKept(d0.own, d'.own, i)
    ensures Addr(d'.files, i, bn) == r && (r == 0 ==> Full(sb, d'.own)) && (Addr(d.files, i, bn) != 0 ==> d' == d)
  {
    hide GoodBut, FByte, Addr, Own, MapSet, Full, Slot;
    OwnersAfter(d0.own, d.own, d'.own, i);
    hide OwnersKept;
  }

  lemma {:induction false} SettledKept(sb: Super, o: Owners, o': Owners, i: nat)
    requires Settled(sb, o) && OwnersKept(o, o', i)
    ensures Settled(sb, o')
  {
    hide Own;
    forall b: nat | b < sb.size ensures !Own(o', b).Held? && !Own(o', b).NoBlock? {
      assert Own(o', b) == Own(o, b) || (Own(o, b).Free? && GoesTo(Own(o', b), i));
    }
  }

  lemma {:induction false} SizesKept(f: Files, f': Files, i: nat)
    requires SizesOk(f) && SameInodes(f, f', i)
    ensures SizesOk(f')
  {
  }

  /**
   itrunc has freed the blocks of file i at positions below n; n - stale of them are still
   named in the indirect block.
   */
  ghost predicate Truncating(sb: Super, d0: Disk, d: Disk, i: nat, n: nat, stale: nat) {
    && GoodBut(sb, d, i, stale) && Released(d0.own, d.own, i, n, false) && i in d.files.inodes
    && SameElsewhere(d0, d, i) && SameMapElsewhere(d0.files, d.files, i) && SameInodes(d0.files, d.files, i)
  }

  /** Nothing of file i is left but its inode. */
  ghost predicate Truncated(sb: Super, d0: Disk, d: Disk, i: nat) {
    && Good(sb, d) && Released(d0.own, d.own, i, MAXFILE, true) && i in d.files.inodes
    && SameElsewhere(d0, d, i) && SameInodes(d0.files, d.files, i)
  }

  lemma {:induction false} TruncStart(sb: Super, d: Disk, i: nat)
    requires Good(sb, d) && i in d.files.inodes
    ensures Truncating(sb, d, d, i, 0, 0)
  {
    hide GoodBut, Own, FByte, Addr;
    AnyFile(sb, d, 0, i);
  }

  lemma {:induction false} FreeCheck(sb: Super, d: Disk, x: nat, n: nat, b: nat)
    requires GoodBut(sb, d, x, n) && b < sb.size
    ensures BitAt(d.blocks, sb, b) == !Own(d.own, b).Free? && Own(d.own, 0).Meta? && MapUp(d)
  {
    hide Shape, MapUp, MapDown, BitAt, Own;
  }

  /** Other files are unaffected by two steps in a row. */
  lemma {:induction false} ElsewhereAfter(d0: Disk, d: Disk, d': Disk, i: nat)
    requires SameElsewhere(d0, d, i) && SameElsewhere(d, d', i)
    ensures SameElsewhere(d0, d', i)
  {
    hide FByte;
  }

  lemma {:induction false} TruncDirectStep(sb: Super, d0: Disk, d: Disk, i: nat, k: nat)
    requires Truncating(sb, d0, d, i, k, 0) && k < NDIRECT
    ensures Slot(d.files, i, k) == 0 ==> Truncating(sb, d0, d, i, k + 1, 0)
    ensures Slot(d.files, i, k) != 0 ==> BitAt(d.blocks, sb, Slot(d.files, i, k))
    ensures Slot(d.files, i, k) != 0 ==> Truncating(sb, d0, DropDirect(sb, d, i, k), i, k + 1, 0)
    ensures Slot(d.files, i, k) != 0 ==>
      forall l: nat :: Slot(DropDirect(sb, d, i, k).files, i, l) == if l == k then 0 else Slot(d.files, i, l)
  {
    hide GoodBut, Own, Addr, Slot, Released, SameElsewhere, MapUp, BitAt, MarkBit;
    var b, d' := Slot(d.files, i, k), DropDirect(sb, d, i, k);
    AnyFile(sb, d, i, 0);
    BootBlock(sb, d);
    FreeCheck0(sb, d);
    DirectAddr(d.files, i, k);
    if b == 0 {
      ReleaseStep(d, d0.own, i, k);
    } else {
      DropDirectGood(sb, d, i, k);
      FreeCheck(sb, d, 0, 0, b);
      ReleaseStep(d, d0.own, i, k);
      AnyFile(sb, d', 0, i);
      ElsewhereAfter(d0, d, d', i);
      SlotInodes(d.files, i, k, 0);
      InodeShape(sb, d, i);
      SetSlotAt(d.files, i, k, 0);
    }
  }

  lemma {:induction false} InodeShape(sb: Super, d: Disk, i: nat)
    requires Good(sb, d) && i in d.files.inodes
    ensures |d.files.inodes[i].addrs| == NDIRECT + 1
  {
  }

  lemma {:induction false} FreeCheck0(sb: Super, d: Disk)
    requires Good(sb, d)
    ensures MapUp(d)
  {
  }

  lemma {:induction false} TruncViaStep(sb: Super, d0: Disk, d: Disk, i: nat, j: nat)
    requires Truncating(sb, d0, d, i, NDIRECT + j, j) && j < NINDIRECT
    ensures Addr(d.files, i, NDIRECT + j) == 0 ==> Truncating(sb, d0, d, i, NDIRECT + (j + 1), j + 1)
    ensures Addr(d.files, i, NDIRECT + j) != 0 ==> BitAt(d.blocks, sb, Addr(d.files, i, NDIRECT + j))
    ensures Addr(d.files, i, NDIRECT + j) != 0 ==> Truncating(sb, d0, DropVia(sb, d, i, j), i, NDIRECT + (j + 1), j + 1)
  {
    hide GoodBut, Own, Addr, Slot, Released, SameElsewhere, MapUp, BitAt, MarkBit;
    var b, d' := Addr(d.files, i, NDIRECT + j), DropVia(sb, d, i, j);
    MapFacts(sb, d, i, j);
    if b == 0 {
      SkipVia(sb, d, i, j);
      ReleaseStep(d, d0.own, i, NDIRECT + j);
    } else {
      DropViaGood(sb, d, i, j);
      FreeCheck(sb, d, i, j, b);
      ReleaseStep(d, d0.own, i, NDIRECT + j);
      ElsewhereAfter(d0, d, d', i);
    }
  }

  lemma {:induction false} MapFacts(sb: Super, d: Disk, x: nat, n: nat)
    requires GoodBut(sb, d, x, n)
    ensures Own(d.own, 0).Meta? && MapUp(d)
  {
    hide MapUp, MapDown, Shape;
  }

  lemma {:induction false} TruncIndStep(sb: Super, d0: Disk, d: Disk, i: nat)
    requires Truncating(sb, d0, d, i, MAXFILE, NINDIRECT) && Slot(d.files, i, NDIRECT) != 0
    ensures BitAt(d.blocks, sb, Slot(d.files, i, NDIRECT)) && Truncated(sb, d0, DropInd(sb, d, i), i)
    ensures forall k: nat :: Slot(DropInd(sb, d, i).files, i, k) == if k == NDIRECT then 0 else Slot(d.files, i, k)
  {
    hide GoodBut, Own, Addr, Slot, Released, SameElsewhere, MapUp, BitAt, MarkBit, OwnedAt;
    var d' := DropInd(sb, d, i);
    MapFacts(sb, d, i, NINDIRECT);
    forall bn: nat | NDIRECT <= bn < MAXFILE ensures !OwnedAt(d.own, i, bn) {
      ReleasedNone(d0.own, d.own, i, MAXFILE, false, bn);
    }
    DropIndGood(sb, d, i);
    FreeCheck(sb, d, i, NINDIRECT, Slot(d.files, i, NDIRECT));
    ReleaseInd(d, d0.own, i);
    ElsewhereAfter(d0, d, d', i);
    SlotInodes(d.files, i, NDIRECT, 0);
    DropIndSlots(sb, d, i);
  }

  lemma {:induction false} DropIndSlots(sb: Super, d: Disk, i: nat)
    requires GoodBut(sb, d, i, NINDIRECT) && i in d.files.inodes
    ensures forall k: nat :: Slot(DropInd(sb, d, i).files, i, k) == if k == NDIRECT then 0 else Slot(d.files, i, k)
  {
    hide MapUp, MapDown, BitmapExact, Layout, MarkBit;
    SetSlotAt(d.files, i, NDIRECT, 0);
    assert DropInd(sb, d, i).files.inodes == SetSlot(d.files, i, NDIRECT, 0).inodes;
    assert forall k: nat :: Slot(DropInd(sb, d, i).files, i, k) == Slot(SetSlot(d.files, i, NDIRECT, 0), i, k);
  }

  /** Without an indirect block there is nothing at the higher positions. */
  lemma {:induction false} TruncNoInd(sb: Super, d0: Disk, d: Disk, i: nat)
    requires Truncating(sb, d0, d, i, NDIRECT, 0) && Slot(d.files, i, NDIRECT) == 0
    ensures Truncated(sb, d0, d, i)
  {
    hide GoodBut, Own, Slot, SameElsewhere;
    AnyFile(sb, d, i, 0);
    MapFacts(sb, d, 0, 0);
    forall b: nat ensures Own(d.own, b) == if Leaves(Own(d0.own, b), i, MAXFILE, true) then Free else Own(d0.own, b) {
      assert Own(d.own, b) == if Leaves(Own(d0.own, b), i, NDIRECT, false) then Free else Own(d0.own, b);
      assert Maps(d.files, b, Own(d.own, b));
    }
  }

  function NoAddrs(): (z: seq<nat>)
    ensures |z| == NDIRECT + 1 && forall k :: 0 <= k <= NDIRECT ==> z[k] == 0
  {
    seq(NDIRECT + 1, i => 0)
  }

  lemma {:induction false} AllZero(sb: Super, d: Disk, i: nat)
    requires Good(sb, d) && i in d.files.inodes && forall k: nat :: k <= NDIRECT ==> Slot(d.files, i, k) == 0
    ensures d.files.inodes[i].addrs == NoAddrs()
  {
    hide GoodBut;
    InodeShape(sb, d, i);
    forall k: nat | k <= NDIRECT ensures d.files.inodes[i].addrs[k] == 0 {
      assert Slot(d.files, i, k) == 0;
    }
  }

  lemma {:induction false} TruncDone(sb: Super, d0: Disk, d: Disk, i: nat)
    requires Settled(sb, d0.own) && SizesOk(d0.files) && Truncated(sb, d0, d, i)
    requires forall k: nat :: k <= NDIRECT ==> Slot(d.files, i, k) == 0
    ensures Good(sb, d.(files := SetSize(d.files, i, 0))) && Settled(sb, d.own) && SizesOk(SetSize(d.files, i, 0))
    ensures SameElsewhere(d0, d.(files := SetSize(d.files, i, 0)), i)
    ensures SameButSize(d0.files, SetSize(d.files, i, 0), i)
    ensures SetSize(d.files, i, 0).inodes[i] == Inode(0, NoAddrs())
  {
    hide GoodBut, Own, FByte, Slot, SameMap;
    AllZero(sb, d, i);
    SetSizeGood(sb, d, i, 0);
    assert SameElsewhere(d0, d.(files := SetSize(d.files, i, 0)), i);
    hide SameElsewhere, SameBytes;
    forall b: nat | b < sb.size ensures !Own(d.own, b).Held? && !Own(d.own, b).NoBlock? {
      assert Own(d.own, b) == if Leaves(Own(d0.own, b), i, MAXFILE, true) then Free else Own(d0.own, b);
    }
  }

  lemma {:induction false} SameInodesAll(f: Files, i: nat)
    ensures SameButSize(f, f, i)
  {
  }

  lemma {:induction false} SameInodesAfter(f: Files, f1: Files, f2: Files, i: nat)
    requires SameButSize(f, f1, i) && (f2 == f1 || SameButSize(f1, f2, i))
    ensures SameButSize(f, f2, i) && f2.inodes.Keys == f1.inodes.Keys
  {
  }

  /** What a chunk of filewrite may log at most. */
  lemma {:induction false} ChunkCost(f: Files, i: nat, off: nat, n: nat)
    requires n <= MAXCHUNK
    ensures 2 * Touched(off, n) + 3 - Slack(f, i, off) <= MAXOPBLOCKS + 1
    ensures NoHoles(f, i) ==> 2 * Touched(off, n) + 3 - Slack(f, i, off) <= MAXOPBLOCKS
  {
    hide NoHoles;
    var q, r := off / BSIZE, off % BSIZE;
    if n > 0 {
      var e := r + n - 1;
      Quotient(off + n - 1, q + e / BSIZE, e % BSIZE, BSIZE);
    }
  }

  lemma {:induction false} PatchedNothing(d: Disk, i: nat, off: nat)
    ensures Patched(d, d, i, off, [])
  {
    hide FByte;
  }

  // ----- what is changed is logged -----

  function Block(blocks: Blocks, b: nat): seq<bv8> { if b in blocks then blocks[b] else [] }

  /** Block b came into use, or turned from an indirect block into something else, or its entries changed. */
  predicate Rewired(d: Disk, d': Disk, b: nat) {
    || (!Own(d'.own, b).Free? && (Own(d.own, b).Free? || (b in d.files.inds && b !in d'.files.inds)))
    || (b in d'.files.inds && (b !in d.files.inds || d'.files.inds[b] != d.files.inds[b]))
  }

  predicate Rewritten(d: Disk, d': Disk, b: nat) { Block(d'.blocks, b) != Block(d.blocks, b) }

  /**
   From d to d', with l0 and l the blocks logged before and after: every block
   that changed is logged, save for the bytes of the blocks in x.
   */
  ghost predicate Logs(d: Disk, l0: set<nat>, d': Disk, l: set<nat>, x: set<nat>) {
    && l0 <= l && (forall b: nat :: Rewired(d, d', b) ==> b in l)
    && (forall b: nat :: Rewritten(d, d', b) ==> b in l || b in x)
  }

  lemma {:induction false} LogsMore(d: Disk, l0: set<nat>, d': Disk, l: set<nat>)
    requires Logs(d, l0, d', l, {})
    ensures l0 <= l
  {
  }

  lemma {:induction false} LogsNothing(d: Disk, l: set<nat>)
    ensures Logs(d, l, d, l, {})
  {
  }

  lemma {:induction false} LogsAfter(d: Disk, l0: set<nat>, d1: Disk, l1: set<nat>, d2: Disk, l2: set<nat>, x: set<nat>)
    requires Logs(d, l0, d1, l1, {}) && Logs(d1, l1, d2, l2, x)
    ensures Logs(d, l0, d2, l2, x)
  {
    hide Own, Block;
    forall b: nat ensures Rewired(d, d2, b) ==> b in l2 {
      assert Rewired(d, d2, b) ==> Rewired(d, d1, b) || Rewired(d1, d2, b);
    }
    forall b: nat ensures Rewritten(d, d2, b) ==> b in l2 || b in x {
      assert Rewritten(d, d2, b) ==> Rewritten(d, d1, b) || Rewritten(d1, d2, b);
    }
  }

  lemma {:induction false} LogsTake(sb: Super, d: Disk, b: nat, l: set<nat>)
    ensures Logs(d, l, Take(sb, d, b), l + {BBLOCK(sb, b), b}, {})
  {
    hide BBLOCK, Cell, Flip;
  }

  lemma {:induction false} LogsBfree(sb: Super, d: Disk, d': Disk, b: nat, l: set<nat>)
    requires d'.blocks == MarkBit(d.blocks, sb, b, false) && d'.own == d.own[b := Free]
    requires forall c: nat :: c in d'.files.inds ==> c in d.files.inds && d'.files.inds[c] == d.files.inds[c]
    requires forall c: nat :: c in d.files.inds && c != b ==> c in d'.files.inds
    ensures Logs(d, l, d', l + {BBLOCK(sb, b)}, {})
  {
    hide BBLOCK, Cell, Flip;
  }

  lemma {:induction false} LogsDirect(d: Disk, i: nat, bn: nat, b: nat, l: set<nat>)
    requires b in l
    ensures Logs(d, l, PutDirect(d, i, bn, b), l, {})
  {
  }

  lemma {:induction false} LogsVia(d: Disk, i: nat, j: nat, b: nat, l: set<nat>)
    requires b in l
    ensures Logs(d, l, PutVia(d, i, j, b), l + {Slot(d.files, i, NDIRECT)}, {})
  {
    hide Slot;
  }

  lemma {:induction false} LogsInd(d: Disk, i: nat, b: nat, l: set<nat>)
    requires b in l
    ensures Logs(d, l, PutInd(d, i, b), l, {})
  {
  }

  lemma {:induction false} LogsSplice(d: Disk, b: nat, k: nat, src: seq<bv8>, l: set<nat>)
    ensures Logs(d, l, d.(blocks := Splice(d.blocks, b, k, src)), l + {b}, {})
    ensures Logs(d, l, d.(blocks := Splice(d.blocks, b, k, src)), l, {b})
    ensures Splice(d.blocks, b, k, src) == d.blocks ==> Logs(d, l, d.(blocks := Splice(d.blocks, b, k, src)), l, {})
  {
  }

  /** A chunk of writei: bmap, then bytes laid over the block, which is logged unless the copy faulted. */
  lemma {:induction false} LogsChunk(d: Disk, l0: set<nat>, d1: Disk, l1: set<nat>, b: nat, k: nat, src: seq<bv8>)
    requires Logs(d, l0, d1, l1, {})
    ensures Logs(d, l0, d1.(blocks := Splice(d1.blocks, b, k, src)), l1 + {b}, {})
    ensures Logs(d, l0, d1.(blocks := Splice(d1.blocks, b, k, src)), l1, if src == [] then {} else {b})
  {
    var d2 := d1.(blocks := Splice(d1.blocks, b, k, src));
    LogsSplice(d1, b, k, src, l1);
    if src == [] {
      assert b in d1.blocks && k <= |d1.blocks[b]| ==> d1.blocks[b][..k] + src + d1.blocks[b][k..] == d1.blocks[b];
      assert Splice(d1.blocks, b, k, src) == d1.blocks;
    }
    hide Logs, Splice;
    LogsAfter(d, l0, d1, l1, d2, l1 + {b}, {});
    LogsAfter(d, l0, d1, l1, d2, l1, if src == [] then {} else {b});
  }

  /** The block that holds bytes [tot, w) of a write that faulted there: its buffer is changed and not logged. */
  ghost function Stray(f: Files, i: nat, off: nat, tot: nat, w: nat): set<nat> {
    if w > tot then {Addr(f, i, (off + tot) / BSIZE)} else {}
  }

  lemma {:induction false} SlotInds(f: Files, i: nat, k: nat, b: nat)
    ensures SetSlot(f, i, k, b).inds == f.inds
  {
  }

  lemma {:induction false} LogsSize(d: Disk, i: nat, n: nat, l: set<nat>, b: nat)
    ensures Logs(d, l, d.(files := SetSize(d.files, i, n)), l + {b}, {})
  {
  }

  lemma {:induction false} WroteGood(sb: Super, d0: Disk, d: Disk, i: nat, off: nat, src: seq<bv8>, done: nat)
    requires Wrote(sb, d0, d, i, off, src, done)
    ensures Good(sb, d) && done <= |src|
  {
    hide GoodBut;
  }

  /** The books of the loop of writei: k chunks, fr of them on fresh blocks, everything logged. */
  ghost predicate Sums(d0: Disk, l0: set<nat>, d: Disk, l: set<nat>, i: nat, off: nat, tot: nat, n: nat,
        spent: set<nat>, k: nat, fr: nat) {
    && Paid(d0.files, l0, d.files, l, i, spent, k + fr) && Chunks(off, tot, n, k)
    && fr <= k - (if k > 0 then Slack(d0.files, i, off) else 0) && (k == 0 ==> d.files == d0.files)
    && Logs(d0, l0, d, l, {}) && MapWithin(d0.files, d.files, i, off, n)
  }

  lemma {:induction false} SumsNothing(d: Disk, l: set<nat>, i: nat, off: nat, n: nat)
    ensures Sums(d, l, d, l, i, off, 0, n, {}, 0, 0)
  {
    hide Paid, Logs, MapWithin, Slack;
    PaidNothing(d.files, l, i);
    LogsNothing(d, l);
    MapSame(d.files, i, off, n);
  }

  /** The first chunk of an unaligned write to a file without holes is on no fresh block. */
  lemma {:induction false} SumsFirst(sb: Super, d0: Disk, l0: set<nat>, d: Disk, l: set<nat>, i: nat, off: nat,
        tot: nat, n: nat, src: seq<bv8>, spent: set<nat>, k: nat, fr: nat)
    requires Wrote(sb, d0, d, i, off, src, tot)
    requires Sums(d0, l0, d, l, i, off, tot, n, spent, k, fr) && off <= Size(d0.files, i)
    ensures k == 0 && Addr(d.files, i, (off + tot) / BSIZE) == 0 ==> Slack(d0.files, i, off) == 0
  {
    hide Paid, Logs, MapWithin, Slack, Addr, Wrote, Size;
    if k == 0 { SlackFirst(sb, d0, d, i, off, src); }
  }

  lemma {:induction false} SumsStep(d0: Disk, l0: set<nat>, d1: Disk, l1: set<nat>, d2: Disk, l2: set<nat>, i: nat,
        off: nat, tot: nat, n: nat, spent: set<nat>, extra: set<nat>, k: nat, fr: nat, fr1: nat, ok: bool, w: nat)
    requires Sums(d0, l0, d1, l1, i, off, tot, n, spent, k, fr) && tot < n
    requires fr1 <= 1 && (k == 0 && fr1 == 1 ==> Slack(d0.files, i, off) == 0)
    requires Paid(d1.files, l1, d2.files, l2, i, extra, 1 + fr1) && MapAt(d1.files, d2.files, i, (off + tot) / BSIZE)
    requires Logs(d1, l1, d2, l2, Stray(d2.files, i, off, tot, if ok then tot else w))
    requires ok ==> w == if n - tot < BSIZE - (off + tot) % BSIZE then n else tot + (BSIZE - (off + tot) % BSIZE)
    ensures ok ==> Sums(d0, l0, d2, l2, i, off, w, n, spent + extra, k + 1, fr + fr1)
    ensures !ok ==> Logs(d0, l0, d2, l2, Stray(d2.files, i, off, tot, w)) && MapWithin(d0.files, d2.files, i, off, n)
    ensures |l2| <= |l0| + 2 * Touched(off, n) + 2 - Slack(d0.files, i, off)
  {
    hide Paid, Logs, MapWithin, MapAt, Slack, Addr, Touched;
    ChunksStep(off, tot, n, k);
    PaidStep(d0.files, l0, d1.files, l1, d2.files, l2, i, spent, extra, k + fr, 1 + fr1);
    MapWithinStep(d0.files, d1.files, d2.files, i, off, tot, n);
    LogsAfter(d0, l0, d1, l1, d2, l2, Stray(d2.files, i, off, tot, if ok then tot else w));
    Tally(d0.files, l0, d2.files, l2, i, spent + extra, k + fr + (1 + fr1));
  }

  lemma {:induction false} SumsDone(d0: Disk, l0: set<nat>, d: Disk, l: set<nat>, i: nat, off: nat, tot: nat,
        n: nat, spent: set<nat>, k: nat, fr: nat)
    requires Sums(d0, l0, d, l, i, off, tot, n, spent, k, fr)
    ensures |l| <= |l0| + 2 * Touched(off, n) + 2 - Slack(d0.files, i, off)
    ensures Logs(d0, l0, d, l, Stray(d.files, i, off, tot, tot)) && MapWithin(d0.files, d.files, i, off, n)
  {
    hide Paid, Logs, MapWithin, Slack, Addr, Touched;
    Tally(d0.files, l0, d.files, l, i, spent, k + fr);
  }

  /** The end of writei: the inode goes to its block. */
  lemma {:induction false} LogsEnd(sb: Super, d: Disk, l0: set<nat>, d1: Disk, l1: set<nat>, d2: Disk, i: nat,
        off: nat, tot: nat, w: nat)
    requires Logs(d, l0, d1, l1, Stray(d1.files, i, off, tot, w))
    requires d2 == d1 || exists n: nat :: d2 == d1.(files := SetSize(d1.files, i, n))
    ensures Logs(d, l0, d2, l1 + {IBLOCK(sb, i)}, Stray(d2.files, i, off, tot, w))
    ensures Addr(d2.files, i, (off + tot) / BSIZE) == Addr(d1.files, i, (off + tot) / BSIZE)
  {
    hide IBLOCK;
    if d2 != d1 {
      var n: nat :| d2 == d1.(files := SetSize(d1.files, i, n));
      SetSizeAt(d1.files, i, n);
      assert d2.files.inds == d1.files.inds;
      hide SetSize, Slot, Word;
      assert Stray(d2.files, i, off, tot, w) == Stray(d1.files, i, off, tot, w);
    }
    hide Stray;
    assert forall b: nat :: Rewired(d, d1, b) == Rewired(d, d2, b) && Rewritten(d, d1, b) == Rewritten(d, d2, b);
  }

  /**
   What a transaction owes the log: it leads from one well-formed file system to
   another, every inode, bitmap and indirect block that changed and every block
   that came into use is among the logged blocks l, and so is every changed data
   block but those of x.
   */
  ghost predicate Transacts(sb: Super, d: Disk, d': Disk, l: set<nat>, x: set<nat>) {
    && Good(sb, d) && Good(sb, d') && Settled(sb, d'.own) && d'.files.inodes.Keys == d.files.inodes.Keys
    && (forall j :: j in d.files.inodes && d'.files.inodes[j] != d.files.inodes[j] ==> IBLOCK(sb, j) in l)
    && (forall b: nat :: Own(d'.own, b).Meta? == Own(d.own, b).Meta?)
    && Logs(d, {}, d', l, x) && (forall b :: b in x ==> !Own(d'.own, b).Meta?)
  }

  lemma {:induction false} TransactsSame(sb: Super, d: Disk, l: set<nat>)
    requires Good(sb, d) && Settled(sb, d.own)
    ensures Transacts(sb, d, d, l, {})
  {
    hide GoodBut, Own, Settled;
  }

  lemma {:induction false} TransactsWrite(sb: Super, d: Disk, d': Disk, l: set<nat>, i: nat, off: nat, tot: nat, w: nat)
    requires Good(sb, d) && Good(sb, d') && Settled(sb, d'.own)
    requires SameButSize(d.files, d'.files, i) && OwnersKept(d.own, d'.own, i)
    requires IBLOCK(sb, i) in l && Logs(d, {}, d', l, Stray(d'.files, i, off, tot, w))
    requires w > tot ==> Addr(d'.files, i, (off + tot) / BSIZE) != 0
    ensures Transacts(sb, d, d', l, Stray(d'.files, i, off, tot, w))
  {
    hide Own, Addr, Shape, Layout, BitmapExact, MapUp, Logs, Settled;
  }

  lemma {:induction false} TransactsTrunc(sb: Super, d: Disk, d': Disk, l: set<nat>, i: nat)
    requires Good(sb, d) && Good(sb, d') && Settled(sb, d'.own)
    requires SameButSize(d.files, d'.files, i) && Released(d.own, d'.own, i, MAXFILE, true)
    requires IBLOCK(sb, i) in l && Logs(d, {}, d', l, {})
    ensures Transacts(sb, d, d', l, {})
  {
    hide GoodBut, Own, Logs, Settled;
  }

  /**
   A finished transaction: the file system it left in memory, the blocks it logged and the
   data blocks it did not log.
   */
  datatype Txn = Txn(disk: Disk, logged: set<nat>, strays: set<nat>)

  /** Transactions one after the other amount to one transaction. */
  lemma {:induction false} TransactsThen(sb: Super, d: Disk, d1: Disk, d2: Disk, l1: set<nat>, x1: set<nat>,
        l2: set<nat>, x2: set<nat>)
    requires Transacts(sb, d, d1, l1, x1) && Transacts(sb, d1, d2, l2, x2)
    ensures Transacts(sb, d, d2, l1 + l2, x1 + x2)
  {
    hide GoodBut, Own, Settled, IBLOCK, Block;
    forall b: nat ensures Rewired(d, d2, b) ==> b in l1 + l2 {
      assert Rewired(d, d2, b) ==> Rewired(d, d1, b) || Rewired(d1, d2, b);
    }
    forall b: nat ensures Rewritten(d, d2, b) ==> b in l1 + l2 || b in x1 + x2 {
      assert Rewritten(d, d2, b) ==> Rewritten(d, d1, b) || Rewritten(d1, d2, b);
    }
    forall j | j in d.files.inodes && d2.files.inodes[j] != d.files.inodes[j] ensures IBLOCK(sb, j) in l1 + l2 {
      assert d1.files.inodes[j] != d.files.inodes[j] || d2.files.inodes[j] != d1.files.inodes[j];
    }
  }

  /** A group of transactions in the given order, as one. */
  ghost function Merge(ts: seq<Txn>): Txn
    requires ts != []
  {
    var t := ts[|ts| - 1];
    if |ts| == 1 then t else
      var m := Merge(ts[..|ts| - 1]);
      Txn(t.disk, m.logged + t.logged, m.strays + t.strays)
  }

  lemma {:induction false} MergeTransacts(sb: Super, d: Disk, ts: seq<Txn>)
    requires Chain(sb, d, ts) && ts != []
    ensures var m := Merge(ts); Transacts(sb, d, m.disk, m.logged, m.strays) && m.disk == ts[|ts| - 1].disk
  {
    hide Transacts;
    var n := |ts| - 1;
    assert Transacts(sb, After(d, ts, n), ts[n].disk, ts[n].logged, ts[n].strays);
    if n > 0 {
      var front := ts[..n];
      forall k: nat | k < n ensures Transacts(sb, After(d, front, k), front[k].disk, front[k].logged, front[k].strays) {
        assert After(d, front, k) == After(d, ts, k);
      }
      MergeTransacts(sb, d, front);
      var m := Merge(front);
      TransactsThen(sb, d, m.disk, ts[n].disk, m.logged, m.strays, ts[n].logged, ts[n].strays);
    }
  }

  /** The file system after the first k transactions of ts. */
  function After(d: Disk, ts: seq<Txn>, k: nat): Disk
    requires k <= |ts|
  {
    if k == 0 then d else ts[k - 1].disk
  }

  /** Each transaction of ts takes up where the one before it ended. */
  ghost predicate Chain(sb: Super, d: Disk, ts: seq<Txn>) {
    forall k: nat :: k < |ts| ==> Transacts(sb, After(d, ts, k), ts[k].disk, ts[k].logged, ts[k].strays)
  }

  /** None of the transactions logs more than n blocks. */
  predicate Small(ts: seq<Txn>, n: nat) { forall t <- ts :: |t.logged| <= n }

  lemma {:induction false} SmallStep(ts: seq<Txn>, n: nat, t: Txn)
    requires Small(ts, n) && |t.logged| <= n
    ensures Small(ts + [t], n)
  {
  }

  lemma {:induction false} ChainNone(sb: Super, d: Disk)
    ensures Chain(sb, d, []) && forall n: nat :: Small([], n)
  {
  }

  lemma {:induction false} InodesSaved(f: Files, f': Files, i: nat)
    requires SameButSize(f, f', i) && i in f.inodes
    ensures f'.inodes == f.inodes[i := f'.inodes[i]]
  {
  }

  lemma {:induction false} ChainStep(sb: Super, d: Disk, ts: seq<Txn>, t: Txn)
    requires Chain(sb, d, ts) && Transacts(sb, After(d, ts, |ts|), t.disk, t.logged, t.strays)
    ensures Chain(sb, d, ts + [t]) && After(d, ts + [t], |ts + [t]|) == t.disk
  {
    hide Transacts;
    forall k: nat | k < |ts + [t]|
      ensures Transacts(sb, After(d, ts + [t], k), (ts + [t])[k].disk, (ts + [t])[k].logged, (ts + [t])[k].strays)
    {
      assert After(d, ts + [t], k) == After(d, ts, k);
    }
  }

  // ----- writes are programs -----

  /** The steps ss on file i lead from d to d', and the blocks that they log from l to l'. */
  ghost predicate Does(sb: Super, d: Disk, l: set<nat>, i: nat, ss: seq<Step>, d': Disk, l': set<nat>) {
    CanProg(sb, d, i, ss) && d' == Prog(sb, d, i, ss) && l' == l + SetOf(ProgLog(sb, d, i, ss))
  }

  lemma {:induction false} DoesNothing(sb: Super, d: Disk, l: set<nat>, i: nat)
    ensures Does(sb, d, l, i, [], d, l)
  {
  }

  lemma {:induction false} DoesStep(sb: Super, d: Disk, l: set<nat>, i: nat, s: Step)
    requires Can(sb, d, i, s)
    ensures Does(sb, d, l, i, [s], Do(sb, d, i, s), l + SetOf(StepLog(sb, d.files, i, s)))
  {
    hide Can, Do, StepLog;
    var ss := [s];
    var d1 := Do(sb, d, i, s);
    assert ss[1..] == [] && CanProg(sb, d1, i, ss[1..]) && Prog(sb, d1, i, ss[1..]) == d1;
    assert ProgLog(sb, d, i, ss) == StepLog(sb, d.files, i, s) + [];
    assert StepLog(sb, d.files, i, s) + [] == StepLog(sb, d.files, i, s);
  }

  lemma {:induction false} DoesThen(sb: Super, d: Disk, l: set<nat>, i: nat, ss: seq<Step>, d1: Disk, l1: set<nat>,
        ts: seq<Step>, d2: Disk, l2: set<nat>)
    requires Does(sb, d, l, i, ss, d1, l1) && Does(sb, d1, l1, i, ts, d2, l2)
    ensures Does(sb, d, l, i, ss + ts, d2, l2)
  {
    ProgThen(sb, d, i, ss, ts);
    hide Prog, CanProg, ProgLog;
  }

  /** The same without freeing a block. */
  ghost predicate Builds(sb: Super, d: Disk, l: set<nat>, i: nat, ss: seq<Step>, d': Disk, l': set<nat>) {
    Does(sb, d, l, i, ss, d', l') && forall s <- ss :: !Frees(s)
  }

  lemma {:induction false} BuildsNothing(sb: Super, d: Disk, l: set<nat>, i: nat)
    ensures Builds(sb, d, l, i, [], d, l)
  {
    DoesNothing(sb, d, l, i);
  }

  lemma {:induction false} BuildsThen(sb: Super, d: Disk, l: set<nat>, i: nat, ss: seq<Step>, d1: Disk, l1: set<nat>,
        ts: seq<Step>, d2: Disk, l2: set<nat>)
    requires Builds(sb, d, l, i, ss, d1, l1) && Builds(sb, d1, l1, i, ts, d2, l2)
    ensures Builds(sb, d, l, i, ss + ts, d2, l2)
  {
    hide Does;
    DoesThen(sb, d, l, i, ss, d1, l1, ts, d2, l2);
  }

  lemma {:induction false} DoesDirect(sb: Super, d: Disk, l: set<nat>, i: nat, bn: nat, b: nat)
    requires Good(sb, d) && i in d.files.inodes && bn < NDIRECT && Slot(d.files, i, bn) == 0
    requires b < sb.size && Own(d.own, b).Free?
    ensures Builds(sb, d, l, i, [NewDirect(bn, b)], PutDirect(Take(sb, d, b), i, bn, b), l + {BBLOCK(sb, b), b})
  {
    hide Does, BBLOCK, Slot, Own, MapDown, MapUp, BitmapExact, Layout, Shape, Do, Take;
    DoDirect(sb, d, i, bn, b);
    DoesStep(sb, d, l, i, NewDirect(bn, b));
    assert SetOf(StepLog(sb, d.files, i, NewDirect(bn, b))) == {BBLOCK(sb, b), b};
  }

  lemma {:induction false} DoesInd(sb: Super, d: Disk, l: set<nat>, i: nat, b: nat)
    requires Good(sb, d) && i in d.files.inodes && Slot(d.files, i, NDIRECT) == 0 && b < sb.size && Own(d.own, b).Free?
    ensures Builds(sb, d, l, i, [NewInd(b)], PutInd(Take(sb, d, b), i, b), l + {BBLOCK(sb, b), b})
  {
    hide Does, BBLOCK, Slot, Own, MapDown, MapUp, BitmapExact, Layout, Shape, Do, Take;
    DoInd(sb, d, i, b);
    DoesStep(sb, d, l, i, NewInd(b));
    assert SetOf(StepLog(sb, d.files, i, NewInd(b))) == {BBLOCK(sb, b), b};
  }

  lemma {:induction false} DoesVia(sb: Super, d: Disk, l: set<nat>, i: nat, j: nat, b: nat)
    requires j < NINDIRECT && Slot(d.files, i, NDIRECT) != 0 && Addr(d.files, i, NDIRECT + j) == 0
    requires b < sb.size && Own(d.own, b).Free?
    ensures Builds(sb, d, l, i, [NewVia(j, b)], PutVia(Take(sb, d, b), i, j, b),
                   l + {BBLOCK(sb, b), b} + {Slot(d.files, i, NDIRECT)})
  {
    assert i in d.files.inodes;
    hide Does, BBLOCK, Slot, Own, Addr, Do, Take;
    DoVia(sb, d, i, j, b);
    DoesStep(sb, d, l, i, NewVia(j, b));
    var c := Slot(d.files, i, NDIRECT);
    assert SetOf(StepLog(sb, d.files, i, NewVia(j, b))) == {BBLOCK(sb, b), b, c};
    assert l + {BBLOCK(sb, b), b, c} == l + {BBLOCK(sb, b), b} + {c};
  }

  lemma {:induction false} DoesLay(sb: Super, d: Disk, l: set<nat>, i: nat, bn: nat, off: nat, s: seq<bv8>)
    requires i in d.files.inodes && Addr(d.files, i, bn) != 0 && off < BSIZE && off + |s| <= BSIZE
    ensures Builds(sb, d, l, i, [Lay(bn, off, s)], d.(blocks := Splice(d.blocks, Addr(d.files, i, bn), off, s)),
                   l + {Addr(d.files, i, bn)})
    ensures s == [] ==> Builds(sb, d, l, i, [], d.(blocks := Splice(d.blocks, Addr(d.files, i, bn), off, s)), l)
  {
    SpliceNothing(d.blocks, Addr(d.files, i, bn), off);
    hide Does, Addr, Do, Splice;
    DoLay(sb, d, i, bn, off, s);
    DoesStep(sb, d, l, i, Lay(bn, off, s));
    BuildsNothing(sb, d, l, i);
    assert SetOf(StepLog(sb, d.files, i, Lay(bn, off, s))) == {Addr(d.files, i, bn)};
  }

  lemma {:induction false} SpliceNothing(blocks: Blocks, b: nat, k: nat)
    ensures Splice(blocks, b, k, []) == blocks
  {
    assert b in blocks && k <= |blocks[b]| ==> blocks[b][..k] + [] + blocks[b][k..] == blocks[b];
  }

  /** The end of writei: the size, if it grew, and the inode. */
  lemma {:induction false} DoesEnd(sb: Super, d: Disk, l: set<nat>, i: nat, grow: bool, n: nat)
    requires i in d.files.inodes
    ensures Builds(sb, d, l, i, if grow then [Resize(n), Save] else [Save],
                   if grow then d.(files := SetSize(d.files, i, n)) else d, l + {IBLOCK(sb, i)})
  {
    var d1 := if grow then d.(files := SetSize(d.files, i, n)) else d;
    DoSave(sb, d1, i);
    DoResize(sb, d, i, n);
    hide Does, Do, IBLOCK;
    DoesStep(sb, d1, l, i, Save);
    assert SetOf(StepLog(sb, d1.files, i, Save)) == {IBLOCK(sb, i)};
    if grow {
      DoesStep(sb, d, l, i, Resize(n));
      assert l + SetOf(StepLog(sb, d.files, i, Resize(n))) == l;
      DoesThen(sb, d, l, i, [Resize(n)], d1, l, [Save], d1, l + {IBLOCK(sb, i)});
      assert [Resize(n)] + [Save] == [Resize(n), Save];
    }
  }

  /** All of writei. */
  lemma {:induction false} BuildsEnd(sb: Super, d: Disk, l: set<nat>, i: nat, ss: seq<Step>, d1: Disk, l1: set<nat>,
        grow: bool, n: nat, d2: Disk, l2: set<nat>)
    requires Builds(sb, d, l, i, ss, d1, l1)
    requires Builds(sb, d1, l1, i, if grow then [Resize(n), Save] else [Save], d2, l2)
    ensures var ts := if grow then [Resize(n), Save] else [Save];
      Builds(sb, d, l, i, ss + ts, d2, l2) && Complete(ss + ts)
  {
    hide Does;
    var ts := if grow then [Resize(n), Save] else [Save];
    DoesThen(sb, d, l, i, ss, d1, l1, ts, d2, l2);
    SaveComplete(grow, n);
    CompleteThen(ss, ts);
  }

  lemma {:induction false} SaveComplete(grow: bool, n: nat)
    ensures Complete(if grow then [Resize(n), Save] else [Save])
  {
    var ts := if grow then [Resize(n), Save] else [Save];
    assert grow ==> ts[1..] == [Save];
    assert [Save][1..] == [];
    assert Complete([]) && Complete([Save]);
  }

  // ----- truncation is a program -----

  lemma {:induction false} DoesFreeDirect(sb: Super, d: Disk, l: set<nat>, i: nat, k: nat)
    requires i in d.files.inodes && |d.files.inodes[i].addrs| == NDIRECT + 1 && k < NDIRECT && Slot(d.files, i, k) != 0
    ensures var b := Slot(d.files, i, k);
      Does(sb, d, l, i, [FreeDirect(k, b)], DropDirect(sb, d, i, k), l + {BBLOCK(sb, b)})
  {
    hide Does, BBLOCK, Slot, Own, Do, DropDirect;
    DoFreeDirect(sb, d, i, k);
    DoesStep(sb, d, l, i, FreeDirect(k, Slot(d.files, i, k)));
    assert SetOf(StepLog(sb, d.files, i, FreeDirect(k, Slot(d.files, i, k)))) == {BBLOCK(sb, Slot(d.files, i, k))};
  }

  function ZeroTo(w: seq<nat>, j: nat): (z: seq<nat>)
    ensures |z| == |w| && forall k :: 0 <= k < |w| ==> z[k] == if k < j then 0 else w[k]
  {
    seq(|w|, k requires 0 <= k < |w| => if k < j then 0 else w[k])
  }

  /** d with the first j entries of indirect block c empty. */
  function Wiped(d: Disk, c: nat, j: nat): Disk {
    if c in d.files.inds then d.(files := d.files.(inds := d.files.inds[c := ZeroTo(d.files.inds[c], j)])) else d
  }

  lemma {:induction false} WipedNone(d: Disk, c: nat)
    ensures Wiped(d, c, 0) == d
  {
    if c in d.files.inds {
      assert ZeroTo(d.files.inds[c], 0) == d.files.inds[c];
      assert d.files.inds[c := d.files.inds[c]] == d.files.inds;
    }
  }

  lemma {:induction false} WipedSkip(d: Disk, c: nat, j: nat)
    requires Word(d.files, c, j) == 0
    ensures Wiped(d, c, j + 1) == Wiped(d, c, j)
  {
    if c in d.files.inds { assert ZeroTo(d.files.inds[c], j + 1) == ZeroTo(d.files.inds[c], j); }
  }

  lemma {:induction false} WipedMap(d: Disk, i: nat, j: nat)
    requires Slot(d.files, i, NDIRECT) != 0
    ensures var c := Slot(d.files, i, NDIRECT);
      && Slot(Wiped(d, c, j).files, i, NDIRECT) == c && Wiped(d, c, j).files.inodes == d.files.inodes
      && forall bn: nat :: NDIRECT <= bn < MAXFILE ==>
           Addr(Wiped(d, c, j).files, i, bn) == if bn < NDIRECT + j then 0 else Addr(d.files, i, bn)
  {
    hide ZeroTo;
  }

  lemma {:induction false} DoesFreeVia(sb: Super, d: Disk, l: set<nat>, i: nat, j: nat)
    requires j < NINDIRECT && Addr(d.files, i, NDIRECT + j) != 0
    ensures var b, c := Addr(d.files, i, NDIRECT + j), Slot(d.files, i, NDIRECT);
      Does(sb, Wiped(d, c, j), l, i, [FreeVia(j, b)], Wiped(DropVia(sb, d, i, j), c, j + 1), l + {BBLOCK(sb, b)})
  {
    var b, c := Addr(d.files, i, NDIRECT + j), Slot(d.files, i, NDIRECT);
    var p := Wiped(d, c, j);
    assert i in d.files.inodes && c != 0 && c in d.files.inds && j < |d.files.inds[c]|;
    WipedMap(d, i, j);
    hide Addr, Slot;
    assert Poke(ZeroTo(d.files.inds[c], j), j, 0) == ZeroTo(d.files.inds[c], j + 1);
    assert p.files.inds[c := ZeroTo(d.files.inds[c], j + 1)] == d.files.inds[c := ZeroTo(d.files.inds[c], j + 1)];
    assert SetWord(p.files, c, j, 0) == Wiped(d, c, j + 1).files;
    hide Does, BBLOCK, Own, Do, ZeroTo, MarkBit, SetWord;
    DoFreeVia(sb, p, i, j, b);
    DoesStep(sb, p, l, i, FreeVia(j, b));
    assert SetOf(StepLog(sb, p.files, i, FreeVia(j, b))) == {BBLOCK(sb, b)};
  }

  lemma {:induction false} DoesFreeInd(sb: Super, d: Disk, l: set<nat>, i: nat)
    requires i in d.files.inodes && |d.files.inodes[i].addrs| == NDIRECT + 1 && Slot(d.files, i, NDIRECT) != 0
    ensures var c := Slot(d.files, i, NDIRECT);
      Does(sb, Wiped(d, c, NINDIRECT), l, i, [FreeInd(c)], DropInd(sb, d, i), l + {BBLOCK(sb, c)})
  {
    var c := Slot(d.files, i, NDIRECT);
    var p := Wiped(d, c, NINDIRECT);
    WipedMap(d, i, NINDIRECT);
    assert p.files.inds - {c} == d.files.inds - {c};
    assert DropInd(sb, p, i) == DropInd(sb, d, i) by { hide Slot, MarkBit, Wiped; }
    hide Does, BBLOCK, Own, Do, Slot, Addr, Wiped, DropInd;
    DoFreeInd(sb, p, i);
    DoesStep(sb, p, l, i, FreeInd(c));
    assert SetOf(StepLog(sb, p.files, i, FreeInd(c))) == {BBLOCK(sb, c)};
  }

  lemma {:induction false} DoesSave(sb: Super, d: Disk, l: set<nat>, i: nat)
    requires i in d.files.inodes
    ensures Does(sb, d, l, i, [Resize(0), Save], d.(files := SetSize(d.files, i, 0)), l + {IBLOCK(sb, i)})
  {
    hide Does, SetSize, IBLOCK;
    DoesEnd(sb, d, l, i, true, 0);
  }

  /** All of itrunc is a complete program. */
  lemma {:induction false} TruncComplete(ss: seq<Step>, ts: seq<Step>)
    requires (forall s <- ss :: !s.FreeVia?) && (ts == [] || ts[|ts| - 1].FreeInd?)
    ensures Complete(ss + ts + [Resize(0), Save])
  {
    SaveComplete(true, 0);
    var end := [Resize(0), Save];
    if ts == [] {
      assert ss + ts == ss;
      CompleteThen(ss, end);
    } else {
      var front, e := ts[..|ts| - 1], ts[|ts| - 1];
      var us := [e] + end;
      assert us[0] == e && us[1..] == end;
      assert end[1] == Save && us[2] == Save;
      CompleteThen(ss + front, us);
      assert ss + ts + end == (ss + front) + us;
    }
  }

  // ----- what truncation logs -----

  /** The bitmap blocks of the blocks that file i has. */
  ghost function FileMaps(sb: Super, o: Owners, i: nat): set<nat> {
    set b: nat | b < sb.size && Leaves(Own(o, b), i, MAXFILE, true) :: BBLOCK(sb, b)
  }

  /** A block that file i still maps while it is being truncated was its own at the start. */
  lemma {:induction false} FreedMap(sb: Super, d0: Disk, d: Disk, i: nat, n: nat, stale: nat, b: nat)
    requires Truncating(sb, d0, d, i, n, stale) && Leaves(Own(d.own, b), i, MAXFILE, true)
    ensures BBLOCK(sb, b) in FileMaps(sb, d0.own, i)
  {
    hide Addr, Slot, MapDown, MapUp, Layout, BitmapExact, BBLOCK, SameElsewhere, SameMapElsewhere, SameInodes;
    assert b in d.own;
    hide Own;
    assert Own(d.own, b) == if Leaves(Own(d0.own, b), i, n, false) then Free else Own(d0.own, b);
  }

  lemma {:induction false} FreedAddr(sb: Super, d0: Disk, d: Disk, i: nat, n: nat, stale: nat, bn: nat)
    requires Truncating(sb, d0, d, i, n, stale) && Addr(d.files, i, bn) != 0 && !Stale(i, bn, i, stale)
    ensures BBLOCK(sb, Addr(d.files, i, bn)) in FileMaps(sb, d0.own, i)
  {
    assert bn < MAXFILE;
    hide Addr, Slot, Own, Shape, MapUp, Layout, BitmapExact, BBLOCK,
      SameElsewhere, SameMapElsewhere, SameInodes, Released,
      FileMaps;
    assert Own(d.own, Addr(d.files, i, bn)) == Data(i, bn);
    FreedMap(sb, d0, d, i, n, stale, Addr(d.files, i, bn));
  }

  lemma {:induction false} FreedInd(sb: Super, d0: Disk, d: Disk, i: nat, n: nat, stale: nat)
    requires Truncating(sb, d0, d, i, n, stale) && Slot(d.files, i, NDIRECT) != 0
    ensures BBLOCK(sb, Slot(d.files, i, NDIRECT)) in FileMaps(sb, d0.own, i)
  {
    hide Addr, Slot, Own, Shape, MapUp, Layout, BitmapExact, BBLOCK,
      SameElsewhere, SameMapElsewhere, SameInodes, Released,
      FileMaps;
    FreedMap(sb, d0, d, i, n, stale, Slot(d.files, i, NDIRECT));
  }

  /** The bit of each freed block changed, so its bitmap block is logged. */
  lemma {:induction false} FreedLogged(sb: Super, d0: Disk, d: Disk, l0: set<nat>, l: set<nat>, i: nat)
    requires Good(sb, d0) && Good(sb, d) && Released(d0.own, d.own, i, MAXFILE, true) && Logs(d0, l0, d, l, {})
    ensures FileMaps(sb, d0.own, i) <= l
  {
    hide GoodBut, Own, Test, Cell, BBLOCK;
    forall b: nat | b < sb.size && Leaves(Own(d0.own, b), i, MAXFILE, true) ensures BBLOCK(sb, b) in l {
      BitFree(sb, d0, b);
      BitFree(sb, d, b);
      assert Own(d.own, b).Free?;
      var p := BBLOCK(sb, b);
      assert Byte(d.blocks, p, Cell(b)) != Byte(d0.blocks, p, Cell(b));
      assert Rewritten(d0, d, p);
    }
  }

  /**
   itrunc logs one block for each bitmap block that has a block of the file, and the inode block. That fits a
   transaction on any disk of at most MAXOPBLOCKS - 1 bitmap blocks.
   */
  lemma {:induction false} TruncCost(sb: Super, o: Owners, i: nat)
    ensures |FileMaps(sb, o, i) + {IBLOCK(sb, i)}| <= (sb.size + BPB - 1) / BPB + 1
    ensures sb.size <= (MAXOPBLOCKS - 1) * BPB ==> |FileMaps(sb, o, i) + {IBLOCK(sb, i)}| <= MAXOPBLOCKS
  {
    hide Own, IBLOCK, BBLOCK;
    var n := (sb.size + BPB - 1) / BPB;
    if sb.size <= (MAXOPBLOCKS - 1) * BPB { FewMaps(sb.size); }
    var all := Interval(sb.bmapstart, n);
    IntervalSize(sb.bmapstart, n);
    forall b: nat | b < sb.size && Leaves(Own(o, b), i, MAXFILE, true) ensures BBLOCK(sb, b) in all { MapBlock(sb, b); }
    assert FileMaps(sb, o, i) <= all;
    SubsetSize(FileMaps(sb, o, i), all);
    hide FileMaps, Interval;
    UnionSize(FileMaps(sb, o, i), {IBLOCK(sb, i)});
  }

  lemma {:induction false} FewMaps(size: nat)
    requires size <= (MAXOPBLOCKS - 1) * BPB
    ensures (size + BPB - 1) / BPB <= MAXOPBLOCKS - 1
  {
  }

  lemma {:induction false} MapBlock(sb: Super, b: nat)
    requires b < sb.size
    ensures sb.bmapstart <= BBLOCK(sb, b) < sb.bmapstart + (sb.size + BPB - 1) / BPB
  {
  }

  class FileSystem {
    const sb: Super
    var blocks: Blocks
    var files: Files
    /** The inodes in the inode blocks */
    var dinodes: map<nat, Inode>
    /** Blocks that the current transaction passed to log_write */
    var logged: set<nat>
    ghost var own: Owners
    /** The transactions that have ended */
    ghost var done: seq<Txn>

    ghost function D(): Disk
      reads this
    {
      Disk(blocks, files, own)
    }

    ghost predicate Valid()
      reads this
    {
      Good(sb, D()) && Settled(sb, own) && SizesOk(files)
    }

    /** The file system on a disk whose inodes are all in memory. */
    constructor (super: Super, image: Blocks, inodes: Files, ghost owners: Owners)
      requires Good(super, Disk(image, inodes, owners)) && Settled(super, owners) && SizesOk(inodes)
      ensures Valid() && sb == super && D() == Disk(image, inodes, owners)
      ensures dinodes == inodes.inodes && logged == {} && done == []
    {
      sb, blocks, files, dinodes, logged := super, image, inodes, inodes.inodes, {};
      own, done := owners, [];
    }

    /** A disk block, marked in use and zeroed: the free block with the lowest number, 0 if there is none. */
    method Balloc() returns (r: nat)
      requires Good(sb, D())
      modifies `blocks, `own, `logged
      ensures r == 0 ==> D() == old(D()) && logged == old(logged) && Full(sb, own)
      ensures Full(sb, old(own)) ==> r == 0
      ensures r != 0 ==> r < sb.size && Own(old(own), r).Free? && forall c: nat :: c < r ==> !Own(old(own), c).Free?
      ensures r != 0 ==> D() == Take(sb, old(D()), r) && logged == old(logged) + {BBLOCK(sb, r), r}
    {
      hide Own, GoodBut, BitAt, MarkBit, SetByte, Byte, Test, Flip, BBLOCK;
      var b := 0;
      while b < sb.size
        invariant b % BPB == 0 && D() == old(D()) && logged == old(logged)
        invariant forall c: nat :: c < b && c < sb.size ==> !Own(own, c).Free?
      {
        var bi := 0;
        while bi < BPB && b + bi < sb.size
          invariant bi <= BPB && D() == old(D()) && logged == old(logged)
          invariant forall c: nat :: c < b + bi && c < sb.size ==> !Own(own, c).Free?
        {
          SameBit(blocks, sb, b, bi);
          BitFree(sb, D(), b + bi);
          if !Test(Byte(blocks, BBLOCK(sb, b), bi / 8), bi) {
            BootBlock(sb, D());
            BitOf(sb, b, bi);
            blocks := SetByte(blocks, BBLOCK(sb, b), bi / 8, Flip(Byte(blocks, BBLOCK(sb, b), bi / 8), bi, true));
            logged := logged + {BBLOCK(sb, b)};
            blocks := blocks[b + bi := Zeros()];
            logged := logged + {b + bi};
            own := own[b + bi := Held];
            return b + bi;
          }
          bi := bi + 1;
        }
        b := b + BPB;
      }
      return 0;
    }

    /** The precondition is the guard of the panic "freeing free block". */
    method Bfree(b: nat)
      requires BitAt(blocks, sb, b)
      modifies `blocks, `own, `logged
      ensures blocks == MarkBit(old(blocks), sb, b, false)
      ensures own == old(own)[b := Free] && logged == old(logged) + {BBLOCK(sb, b)}
    {
      hide Byte, SetByte, Mask, BBLOCK, BitAt, Flip, MarkBit;
      MarkMod(blocks, sb, b, false);
      var bi := b % BPB;
      blocks := SetByte(blocks, BBLOCK(sb, b), bi / 8, Flip(Byte(blocks, BBLOCK(sb, b), bi / 8), bi, false));
      logged := logged + {BBLOCK(sb, b)};
      own := own[b := Free];
    }
  
    /** What every step of bmap may add to the transaction, beyond the indirect block. */
    ghost predicate Cost(f: Files, before: set<nat>, extra: set<nat>, i: nat, n: nat)
      reads this
    {
      logged <= before + extra + IndSet(files, i) && |extra| <= n + IndCost(f, files, i)
    }

    method BmapDirect(i: nat, bn: nat) returns (r: nat, ghost extra: set<nat>, ghost ss: seq<Step>)
      requires Good(sb, D()) && i in files.inodes && bn < NDIRECT
      modifies `blocks, `files, `own, `logged
      ensures BmapDone(sb, old(D()), D(), i, bn, r)
      ensures Addr(old(files), i, bn) != 0 ==> r == Addr(old(files), i, bn) && logged == old(logged) && extra == {}
      ensures Cost(old(files), old(logged), extra, i, if Addr(old(files), i, bn) != 0 || r == 0 then 0 else 2)
      ensures Full(sb, old(own)) ==> D() == old(D()) && logged == old(logged)
      ensures Logs(old(D()), old(logged), D(), logged, {}) && Builds(sb, old(D()), old(logged), i, ss, D(), logged)
      ensures Addr(old(files), i, bn) == 0 && r != 0 ==> r in extra
    {
      hide Builds, Rewired, Rewritten, GoodBut, Slot, Addr, Own, BmapDone, Take, Full, Byte, BBLOCK;
      DirectAddr(files, i, bn);
      LogsNothing(D(), logged);
      BuildsNothing(sb, D(), logged, i);
      r, extra, ss := Slot(files, i, bn), {}, [];
      if r == 0 {
        r := Balloc();
        if r == 0 {
          BmapSame(sb, D(), i, bn);
          return;
        }
        extra := {BBLOCK(sb, r), r};
        BmapDirectDone(sb, old(D()), i, bn, r);
        DoesDirect(sb, old(D()), old(logged), i, bn, r);
        ss := [NewDirect(bn, r)];
        LogsTake(sb, old(D()), r, old(logged));
        LogsDirect(D(), i, bn, r, logged);
        LogsAfter(old(D()), old(logged), D(), logged, PutDirect(D(), i, bn, r), logged, {});
        files := SetSlot(files, i, bn, r);
        own := own[r := Data(i, bn)];
      } else {
        BmapSame(sb, D(), i, bn);
      }
    }

    /** Load the indirect block, allocating if necessary. */
    method GetIndirect(i: nat) returns (c: nat, ghost extra: set<nat>, ghost ss: seq<Step>)
      requires Good(sb, D()) && i in files.inodes
      modifies `blocks, `files, `own, `logged
      ensures c == Slot(files, i, NDIRECT) && Good(sb, D()) && i in files.inodes
      ensures SameBytes(old(D()), D()) && SameMap(old(files), files)
      ensures SameInodes(old(files), files, i) && OwnersKept(old(own), own, i)
      ensures Slot(old(files), i, NDIRECT) != 0 || c == 0 ==> D() == old(D()) && logged == old(logged)
      ensures c == 0 ==> Full(sb, own)
      ensures Cost(old(files), old(logged), extra, i, 0)
      ensures Full(sb, old(own)) ==> D() == old(D()) && logged == old(logged)
      ensures Logs(old(D()), old(logged), D(), logged, {}) && Builds(sb, old(D()), old(logged), i, ss, D(), logged)
    {
      hide Builds, Rewired, Rewritten, GoodBut, Slot, Addr, Own, BmapDone, Take,
        Full, Byte, SameBytes, SameMap, OwnersKept,
        BBLOCK;
      Same(D(), i);
      LogsNothing(D(), logged);
      BuildsNothing(sb, D(), logged, i);
      c, extra, ss := Slot(files, i, NDIRECT), {}, [];
      if c == 0 {
        c := Balloc();
        if c == 0 {
          return;
        }
        extra := {BBLOCK(sb, c)};
        BmapIndDone(sb, old(D()), i, c);
        DoesInd(sb, old(D()), old(logged), i, c);
        ss := [NewInd(c)];
        LogsTake(sb, old(D()), c, old(logged));
        LogsInd(D(), i, c, logged);
        LogsAfter(old(D()), old(logged), D(), logged, PutInd(D(), i, c), logged, {});
        files := SetSlot(files, i, NDIRECT, c);
        files := files.(inds := files.inds[c := NoWords()]);
        own := own[c := Ind(i)];
      }
    }

    method BmapVia(i: nat, j: nat) returns (r: nat, ghost extra: set<nat>, ghost ss: seq<Step>)
      requires Good(sb, D()) && j < NINDIRECT && Slot(files, i, NDIRECT) != 0
      modifies `blocks, `files, `own, `logged
      ensures BmapDone(sb, old(D()), D(), i, NDIRECT + j, r)
      ensures Addr(old(files), i, NDIRECT + j) != 0 ==> r == Addr(old(files), i, NDIRECT + j)
      ensures Addr(old(files), i, NDIRECT + j) != 0 ==> logged == old(logged) && extra == {}
      ensures Cost(old(files), old(logged), extra, i, if Addr(old(files), i, NDIRECT + j) != 0 || r == 0 then 0 else 2)
      ensures Full(sb, old(own)) ==> D() == old(D()) && logged == old(logged)
      ensures Logs(old(D()), old(logged), D(), logged, {}) && Builds(sb, old(D()), old(logged), i, ss, D(), logged)
      ensures Addr(old(files), i, NDIRECT + j) == 0 && r != 0 ==> r in extra
    {
      hide Builds, Rewired, Rewritten, GoodBut, Slot, Addr, Own, Take, Full, Byte, BBLOCK, Word, SameBytes, SameInodes,
        OwnersKept, MapSet;
      DirectAddr(files, i, NDIRECT + j);
      var c := Slot(files, i, NDIRECT);
      LogsNothing(D(), logged);
      BuildsNothing(sb, D(), logged, i);
      r, extra, ss := Word(files, c, j), {}, [];
      if r == 0 {
        r := Balloc();
        if r == 0 {
          BmapSame(sb, D(), i, NDIRECT + j);
          return;
        }
        extra := {BBLOCK(sb, r), r};
        BmapViaDone(sb, old(D()), i, j, r);
        DoesVia(sb, old(D()), old(logged), i, j, r);
        ss := [NewVia(j, r)];
        LogsTake(sb, old(D()), r, old(logged));
        LogsVia(D(), i, j, r, logged);
        LogsAfter(old(D()), old(logged), D(), logged, PutVia(D(), i, j, r), logged + {c}, {});
        files := SetWord(files, c, j, r);
        logged := logged + {c};
        own := own[r := Data(i, NDIRECT + j)];
      } else {
        BmapSame(sb, D(), i, NDIRECT + j);
      }
    }

    /** The block number of the bn-th block of file i, allocated if there is none; 0 if the disk is full. */
    method Bmap(i: nat, bn: nat) returns (r: nat, ghost extra: set<nat>, ghost ss: seq<Step>)
      requires Good(sb, D()) && i in files.inodes && bn < MAXFILE
      modifies `blocks, `files, `own, `logged
      ensures BmapDone(sb, old(D()), D(), i, bn, r)
      ensures Addr(old(files), i, bn) != 0 ==> r == Addr(old(files), i, bn) && logged == old(logged) && extra == {}
      ensures Cost(old(files), old(logged), extra, i, if Addr(old(files), i, bn) != 0 || r == 0 then 0 else 2)
      ensures Full(sb, old(own)) ==> D() == old(D()) && logged == old(logged)
      ensures Logs(old(D()), old(logged), D(), logged, {}) && Builds(sb, old(D()), old(logged), i, ss, D(), logged)
      ensures Addr(old(files), i, bn) == 0 && r != 0 ==> r in extra
    {
      hide Builds, Logs, GoodBut, Slot, Addr, Own, Full, Word, SameBytes, SameInodes, OwnersKept, MapSet;
      DirectAddr(files, i, bn);
      if bn < NDIRECT {
        r, extra, ss := BmapDirect(i, bn);
        return;
      }
      ghost var e1, e2, s2;
      r, e1, ss := GetIndirect(i);
      extra := e1;
      if r == 0 {
        BmapSame(sb, D(), i, bn);
        return;
      }
      ghost var d1, l1 := D(), logged;
      r, e2, s2 := BmapVia(i, bn - NDIRECT);
      BuildsThen(sb, old(D()), old(logged), i, ss, d1, l1, s2, D(), logged);
      ss := ss + s2;
      LogsAfter(old(D()), old(logged), d1, l1, D(), logged, {});
      extra := e1 + e2;
      UnionSize(e1, e2);
      BmapAfter(sb, old(D()), d1, D(), i, bn, r);
    }
  
    method Iupdate(i: nat)
      requires i in files.inodes
      modifies `dinodes, `logged
      ensures dinodes == old(dinodes)[i := files.inodes[i]] && logged == old(logged) + {IBLOCK(sb, i)}
    {
      dinodes := dinodes[i := files.inodes[i]];
      logged := logged + {IBLOCK(sb, i)};
    }

    /** The body of the loop of writei: the chunk of [off + tot, off + n) that lies in one block. */
    method WriteChunk(i: nat, src: seq<bv8>, off: nat, tot: nat, n: nat, ghost d0: Disk)
      returns (m: nat, ok: bool, ghost w: nat, ghost extra: set<nat>, ghost ss: seq<Step>)
      requires Wrote(sb, d0, D(), i, off, src, tot) && tot < n && i in files.inodes && off + n <= MAXFILE * BSIZE
      modifies `blocks, `files, `own, `logged
      ensures Wrote(sb, d0, D(), i, off, src, w) && tot <= w <= |src| && i in files.inodes
      ensures ok ==>
        w == tot + m && m == if n - tot < BSIZE - (off + tot) % BSIZE then n - tot else BSIZE - (off + tot) % BSIZE
      ensures !ok ==> (w == tot && Full(sb, own)) || (w == |src| < n && |src| < tot + BSIZE)
      ensures MapAt(old(files), files, i, (off + tot) / BSIZE)
      ensures Paid(old(files), old(logged), files, logged, i, extra,
                   if Addr(old(files), i, (off + tot) / BSIZE) == 0 then 2 else 1)
      ensures Logs(old(D()), old(logged), D(), logged, Stray(files, i, off, tot, if ok then tot else w))
      ensures ok || w == tot ==> Builds(sb, old(D()), old(logged), i, ss, D(), logged)
      ensures w > tot ==> Addr(files, i, (off + tot) / BSIZE) != 0
    {
      hide Builds, GoodBut, Addr, Own, Slot, Full, Wrote, OwnersKept, Splice, IndSet, MapSet, SameBytes, Logs, MapAt;
      WroteGood(sb, d0, D(), i, off, src, tot);
      m, ok, w := 0, false, tot;
      var addr;
      addr, extra, ss := Bmap(i, (off + tot) / BSIZE);
      WroteBmap(sb, d0, old(D()), D(), i, off, src, tot, (off + tot) / BSIZE, addr);
      BmapAt(sb, old(D()), D(), i, (off + tot) / BSIZE, addr);
      WroteGood(sb, d0, D(), i, off, src, tot);
      if addr == 0 {
        return;
      }
      DataHit(sb, D(), 0, 0, i, (off + tot) / BSIZE);
      m := if n - tot < BSIZE - (off + tot) % BSIZE then n - tot else BSIZE - (off + tot) % BSIZE;
      ok := tot + m <= |src|;
      var end := if ok then tot + m else |src|;
      w := end;
      WroteChunk(sb, d0, D(), i, off, src, tot, w - tot);
      ghost var d1, l1, bn, k := D(), logged, (off + tot) / BSIZE, (off + tot) % BSIZE;
      DoesLay(sb, d1, l1, i, bn, k, src[tot..end]);
      LogsChunk(old(D()), old(logged), D(), logged, addr, (off + tot) % BSIZE, src[tot..end]);
      blocks := Splice(blocks, addr, (off + tot) % BSIZE, src[tot..end]);
      if ok {
        logged := logged + {addr};
        extra := extra + {addr};
        BuildsThen(sb, old(D()), old(logged), i, ss, d1, l1, [Lay(bn, k, src[tot..end])], D(), logged);
        ss := ss + [Lay(bn, k, src[tot..end])];
      } else if w == tot {
        BuildsThen(sb, old(D()), old(logged), i, ss, d1, l1, [], D(), logged);
        assert ss + [] == ss;
      }
    }

    /** The loop of writei. */
    method WriteLoop(i: nat, src: seq<bv8>, off: nat, n: nat) returns (tot: nat, ghost reach: nat, ghost ss: seq<Step>)
      requires Good(sb, D()) && i in files.inodes && off <= Size(files, i) && off + n <= MAXFILE * BSIZE
      modifies `blocks, `files, `own, `logged
      ensures Wrote(sb, old(D()), D(), i, off, src, reach) && tot <= reach <= n && reach <= |src| && i in files.inodes
      ensures tot < n ==> Full(sb, own) || (|src| < n && |src| < tot + BSIZE)
      ensures MapWithin(old(files), files, i, off, n)
      ensures reach == tot || (tot < n && reach == |src|)
      ensures |logged| <= |old(logged)| + 2 * Touched(off, n) + 2 - Slack(old(files), i, off)
      ensures Logs(old(D()), old(logged), D(), logged, Stray(files, i, off, tot, reach))
      ensures reach == tot ==> Builds(sb, old(D()), old(logged), i, ss, D(), logged)
      ensures reach > tot ==> Addr(files, i, (off + tot) / BSIZE) != 0
    {
      hide Builds, GoodBut, Addr, Own, Full, Touched, Wrote, Slack, Size, Logs, Paid, MapWithin, MapAt, Chunks, Sums,
        Stray;
      ghost var d0, l0 := D(), logged;
      ghost var spent, k, fr := {}, 0, 0;
      tot, reach, ss := 0, 0, [];
      BuildsNothing(sb, D(), logged, i);
      WroteNothing(sb, D(), i, off, src);
      SumsNothing(D(), logged, i, off, n);
      while tot < n
        invariant tot <= n && reach == tot <= |src| && Wrote(sb, d0, D(), i, off, src, tot) && i in files.inodes
        invariant Builds(sb, d0, l0, i, ss, D(), logged)
        invariant Sums(d0, l0, D(), logged, i, off, tot, n, spent, k, fr)
      {
        var m, ok;
        ghost var extra, s1;
        SumsFirst(sb, d0, l0, D(), logged, i, off, tot, n, src, spent, k, fr);
        ghost var d1, l1, fr1 := D(), logged, if Addr(files, i, (off + tot) / BSIZE) == 0 then 1 else 0;
        m, ok, reach, extra, s1 := WriteChunk(i, src, off, tot, n, d0);
        if ok || reach == tot { BuildsThen(sb, d0, l0, i, ss, d1, l1, s1, D(), logged); }
        ss := ss + s1;
        SumsStep(d0, l0, d1, l1, D(), logged, i, off, tot, n, spent, extra, k, fr, fr1, ok, reach);
        spent, k, fr := spent + extra, k + 1, fr + fr1;
        if !ok {
          return;
        }
        tot := tot + m;
      }
      SumsDone(d0, l0, D(), logged, i, off, tot, n, spent, k, fr);
    }

    /**
     Copy n bytes from src into file i at off. Copying faults at byte |src| of the source; the bytes of the
     chunk before the fault are in the block's buffer by then. `reach` bytes reached the file, r of them count.
     */
    method Writei(i: nat, src: seq<bv8>, off: nat, n: nat) returns (r: int, ghost reach: nat, ghost ss: seq<Step>)
      requires Valid() && i in files.inodes && off < UINT && n < UINT
      modifies `blocks, `files, `own, `logged, `dinodes
      ensures Valid()
      ensures r == -1 <==> off > old(Size(files, i)) || Wraps(off, n) || off + n > MAXFILE * BSIZE
      ensures r == -1 ==> D() == old(D()) && dinodes == old(dinodes) && logged == old(logged)
      ensures r != -1 ==> 0 <= r <= reach <= n && reach <= |src| && Patched(old(D()), D(), i, off, src[..reach])
      ensures r != -1 ==> Size(files, i) == if off + r > old(Size(files, i)) then off + r else old(Size(files, i))
      ensures r < n && r != -1 ==> Full(sb, own) || (|src| < n && |src| < r + BSIZE)
      ensures r != -1 ==> OwnersKept(old(own), own, i) && MapWithin(old(files), files, i, off, n)
      ensures reach == r || (r < n && reach == |src|) || r == -1
      ensures r != -1 ==> SameButSize(old(files), files, i) && dinodes == old(dinodes)[i := files.inodes[i]]
      ensures NoHoles(old(files), i) ==> NoHoles(files, i)
      ensures |logged| <= |old(logged)| + 2 * Touched(off, n) + 3 - Slack(old(files), i, off)
      ensures r != -1 ==> Logs(old(D()), old(logged), D(), logged, Stray(files, i, off, r, reach))
      ensures r != -1 ==> IBLOCK(sb, i) in logged
      ensures r != -1 && reach == r ==> Builds(sb, old(D()), old(logged), i, ss, D(), logged) && Complete(ss)
      ensures old(logged) == {} && r != -1 ==> Transacts(sb, old(D()), D(), logged, Stray(files, i, off, r, reach))
    {
      hide Builds, Complete, GoodBut, Own, Settled, SizesOk, Full, Patched, Touched,
        NoHoles, Wrote, SameButSize, Slack, Logs, Addr,
        OwnersKept, MapWithin, Transacts, Stray;
      reach, ss := 0, [];
      if off > files.inodes[i].size || Wraps(off, n) {
        return -1, 0, [];
      }
      if off + n > MAXFILE * BSIZE {
        return -1, 0, [];
      }
      var tot;
      tot, reach, ss := WriteLoop(i, src, off, n);
      WriteDone(sb, old(D()), D(), i, off, src, reach, tot,
                if off + tot > old(Size(files, i)) then off + tot else old(Size(files, i)));
      ghost var grow, l1 := off + tot > files.inodes[i].size, logged;
      ghost var s1 := if grow then [Resize(off + tot), Save] else [Save];
      DoesEnd(sb, D(), logged, i, grow, off + tot);
      ghost var d1, stray := D(), Stray(files, i, off, tot, reach);
      if off + tot > files.inodes[i].size {
        files := SetSize(files, i, off + tot);
      }
      LogsEnd(sb, old(D()), old(logged), d1, logged, D(), i, off, tot, reach);
      UnionSize(logged, {IBLOCK(sb, i)});
      Iupdate(i);
      r := tot;
      if reach == tot { BuildsEnd(sb, old(D()), old(logged), i, ss, d1, l1, grow, off + tot, D(), logged); }
      ss := ss + s1;
      if old(logged) == {} { TransactsWrite(sb, old(D()), D(), logged, i, off, tot, reach); }
    }
  
    /** The block that holds byte p of the file: up to want bytes from there, or nothing if bmap finds no block. */
    method ReadChunk(i: nat, p: nat, want: nat, ghost d0: Disk) returns (bytes: seq<bv8>)
      requires Reading(sb, d0, D(), i) && i in files.inodes && SizesOk(d0.files)
      requires want > 0 && p + want <= Size(d0.files, i)
      modifies `blocks, `files, `own, `logged
      ensures Reading(sb, d0, D(), i) && i in files.inodes
      ensures bytes == [] ==> Full(sb, own) && !NoHoles(d0.files, i)
      ensures bytes != [] ==> |bytes| == (if want < BSIZE - p % BSIZE then want else BSIZE - p % BSIZE)
      ensures bytes != [] ==> bytes == Content(d0, i)[p..p + |bytes|]
      ensures OwnersKept(old(own), own, i) && (bytes == [] ==> Addr(old(files), i, p / BSIZE) == 0)
      ensures Addr(old(files), i, p / BSIZE) != 0 ==> D() == old(D()) && logged == old(logged)
      ensures Addr(old(files), i, p / BSIZE) == 0 && !Full(sb, old(own)) ==> Allocated(old(own), own)
      ensures NoHoles(d0.files, i) ==> logged == old(logged)
      ensures Full(sb, old(own)) ==> D() == old(D()) && logged == old(logged)
      ensures Logs(old(D()), old(logged), D(), logged, {})
    {
      hide Builds, GoodBut, Own, Full, Addr, NoHoles, FByte, OwnersKept, Content, Logs, Allocated;
      NoHoleAt(d0.files, i, p);
      SizeBound(d0.files, i, p);
      var addr;
      ghost var extra, ss;
      addr, extra, ss := Bmap(i, p / BSIZE);
      ReadOn(sb, d0, old(D()), D(), i, p / BSIZE, addr);
      BmapKeeps(sb, old(D()), D(), i, p / BSIZE, addr);
      if Addr(old(files), i, p / BSIZE) == 0 && !Full(sb, old(own)) {
        HoleFilled(sb, old(D()), D(), i, p / BSIZE, addr);
      }
      if addr == 0 {
        return [];
      }
      var m := if want < BSIZE - p % BSIZE then want else BSIZE - p % BSIZE;
      ReadSlice(sb, D(), i, p, m);
      SameContent(d0, D(), i);
      bytes := blocks[addr][p % BSIZE..p % BSIZE + m];
    }

    /** The loop of readi. */
    method ReadLoop(i: nat, off: nat, want: nat, limit: nat) returns (r: int, dst: seq<bv8>, ghost hole: bool)
      requires Good(sb, D()) && SizesOk(files) && i in files.inodes && off + want <= Size(files, i)
      modifies `blocks, `files, `own, `logged
      ensures Reading(sb, old(D()), D(), i) && Logs(old(D()), old(logged), D(), logged, {})
      ensures |dst| <= want && dst == old(Content(D(), i))[off..off + |dst|]
      ensures r == -1 ==> |dst| == limit < want
      ensures r != -1 ==> r == |dst| <= limit && (r == want || (hole && Full(sb, own) && !NoHoles(old(files), i)))
      ensures NoHoles(old(files), i) ==> logged == old(logged)
      ensures hole == HoleIn(old(files), i, off, Met(want, limit))
      ensures Filled(sb, old(D()), old(logged), D(), logged, hole)
    {
      hide GoodBut, Own, SizesOk, Full, NoHoles, OwnersKept, Content, SameBytes, SameInodes, Logs, Addr, Allocated,
        HoleIn, Filled, Size;
      r, dst := 0, [];
      LogsNothing(D(), logged);
      ghost var d0, content := D(), Content(D(), i);
      ReadStart(sb, d0, i, off);
      hole := false;
      while |dst| < want
        invariant |dst| <= want && |dst| <= limit && dst == content[off..off + |dst|]
        invariant Reading(sb, d0, D(), i) && i in files.inodes
        invariant Filled(sb, d0, old(logged), D(), logged, hole)
        invariant if hole then HoleIn(d0.files, i, off, Met(want, limit)) else !HoleIn(d0.files, i, off, |dst|)
        invariant (NoHoles(d0.files, i) ==> logged == old(logged)) && Logs(d0, old(logged), D(), logged, {})
      {
        ghost var d1, l1, tot := D(), logged, |dst|;
        if !hole { NotFilled(sb, d0, old(logged), d1, l1); }
        var bytes := ReadChunk(i, off + |dst|, want - |dst|, d0);
        LogsAfter(d0, old(logged), d1, l1, D(), logged, {});
        if hole {
          FilledStill(sb, d0, old(logged), d1, l1, D(), logged, i);
        } else {
          HoleNext(d0.files, i, off, tot, Met(want, limit), |bytes|);
          FilledNow(sb, d0, old(logged), d1, l1, D(), logged, Addr(d0.files, i, (off + tot) / BSIZE) == 0);
          hole := Addr(d0.files, i, (off + tot) / BSIZE) == 0;
        }
        if bytes == [] {
          r := |dst|;
          return;
        }
        SliceJoin(content, off, tot, |bytes|);
        if |dst| + |bytes| > limit {
          SliceCut(content, off, tot + |bytes|, limit);
          if !hole { HoleLess(d0.files, i, off, tot + |bytes|, limit + 1); }
          dst := (dst + bytes)[..limit];
          r := -1;
          return;
        }
        dst := dst + bytes;
      }
      r := |dst|;
    }

    /**
     Copy up to n bytes of file i from off. Copying faults at byte `limit` of the destination.
     A hole is filled by bmap; a file without holes is only read.
     */
    method Readi(i: nat, off: nat, n: nat, limit: nat) returns (r: int, dst: seq<bv8>)
      requires Valid() && i in files.inodes && off < UINT && n < UINT
      modifies `blocks, `files, `own, `logged
      ensures Valid() && SameBytes(old(D()), D()) && SameInodes(old(files), files, i)
      ensures off > old(Size(files, i)) || Wraps(off, n) ==> r == 0 && dst == [] && D() == old(D())
      ensures off > old(Size(files, i)) || Wraps(off, n) ==> logged == old(logged)
      ensures off <= old(Size(files, i)) && !Wraps(off, n) ==>
        Delivered(old(Content(D(), i)), off, n, limit, r, dst, Full(sb, own) && !NoHoles(old(files), i))
      ensures NoHoles(old(files), i) ==> D() == old(D()) && logged == old(logged)
      ensures off <= old(Size(files, i)) && !Wraps(off, n) ==>
        Filled(sb, old(D()), old(logged), D(), logged,
               HoleIn(old(files), i, off, Met(Wanted(old(Size(files, i)), off, n), limit)))
      ensures Logs(old(D()), old(logged), D(), logged, {})
    {
      hide GoodBut, Own, Settled, SizesOk, Full, NoHoles, OwnersKept, Content, SameBytes, SameInodes, Logs, Allocated,
        HoleIn, Filled;
      r, dst := 0, [];
      LogsNothing(D(), logged);
      Same(D(), i);
      if off > files.inodes[i].size || Wraps(off, n) {
        return;
      }
      ghost var d0 := D();
      var want := if off + n > files.inodes[i].size then files.inodes[i].size - off else n;
      ContentSize(d0, i);
      ghost var hole;
      r, dst, hole := ReadLoop(i, off, want, limit);
      SettledKept(sb, d0.own, own, i);
      SizesKept(d0.files, files, i);
    }

    /**
     fileread on an inode. No transaction is open, so that the first log_write panics; what the code would do
     afterwards is left to Readi.
     */
    method Fileread(i: nat, off: nat, n: int, limit: nat) returns (panic: bool, r: int, dst: seq<bv8>, off': nat)
      requires Valid() && i in files.inodes && off < UINT && -0x8000_0000 <= n < 0x8000_0000
      modifies `blocks, `files, `own, `logged
      ensures panic <==>
        && off <= old(Size(files, i)) && !Wraps(off, n % UINT) && !Full(sb, old(own))
        && HoleIn(old(files), i, off, Met(Wanted(old(Size(files, i)), off, n % UINT), limit))
      ensures !panic ==> Valid() && D() == old(D()) && logged == {}
      ensures off > old(Size(files, i)) || Wraps(off, n % UINT) ==> r == 0 && dst == []
      ensures off <= old(Size(files, i)) && !Wraps(off, n % UINT) ==>
        Delivered(old(Content(D(), i)), off, n % UINT, limit, r, dst, Full(sb, own) && !NoHoles(old(files), i))
      ensures off' == if r > 0 then off + r else off
    {
      hide GoodBut, Own, Settled, SizesOk, Full, NoHoles, Content, SameBytes, SameInodes, Logs, Allocated, HoleIn,
        Filled, Delivered;
      logged := {};
      ghost var d0 := D();
      ContentSize(d0, i);
      r, dst := Readi(i, off, n % UINT, limit);
      off' := if r > 0 then off + r else off;
      panic := logged != {};
      if off <= Size(d0.files, i) && !Wraps(off, n % UINT) {
        FilledLogs(sb, d0, D(), logged, HoleIn(d0.files, i, off, Met(Wanted(Size(d0.files, i), off, n % UINT), limit)));
      }
    }

    /** bfree(addrs[k]); addrs[k] = 0, for the direct blocks */
    method TruncDirect(i: nat) returns (ghost ss: seq<Step>)
      requires Valid() && i in files.inodes
      modifies `blocks, `files, `own, `logged
      ensures Truncating(sb, old(D()), D(), i, NDIRECT, 0) && Good(sb, D())
      ensures forall k: nat :: k < NDIRECT ==> Slot(files, i, k) == 0
      ensures Logs(old(D()), old(logged), D(), logged, {})
      ensures logged <= old(logged) + FileMaps(sb, old(own), i)
      ensures Does(sb, old(D()), old(logged), i, ss, D(), logged) && forall s <- ss :: !s.FreeVia?
    {
      hide GoodBut, Own, Settled, SizesOk, Addr, Slot, Released, SameElsewhere, SameMapElsewhere, BitAt, MarkBit,
        SetSlot;
      hide Logs, FileMaps, BBLOCK, Does;
      DoesNothing(sb, D(), logged, i);
      ss := [];
      ghost var d0 := D();
      TruncStart(sb, d0, i);
      LogsNothing(d0, logged);
      var k := 0;
      while k < NDIRECT
        invariant k <= NDIRECT && Truncating(sb, d0, D(), i, k, 0) && forall l: nat :: l < k ==> Slot(files, i, l) == 0
        invariant Does(sb, d0, old(logged), i, ss, D(), logged) && forall s <- ss :: !s.FreeVia?
        invariant Logs(d0, old(logged), D(), logged, {}) && logged <= old(logged) + FileMaps(sb, d0.own, i)
      {
        TruncDirectStep(sb, d0, D(), i, k);
        ghost var d1, l1 := D(), logged;
        if Slot(files, i, k) != 0 {
          ghost var b := Slot(files, i, k);
          DirectAddr(files, i, k);
          FreedAddr(sb, d0, D(), i, k, 0, k);
          AnyFile(sb, D(), i, 0);
          InodeShape(sb, D(), i);
          DoesFreeDirect(sb, D(), logged, i, k);
          SlotInds(files, i, k, 0);
          Bfree(Slot(files, i, k));
          files := SetSlot(files, i, k, 0);
          LogsBfree(sb, d1, D(), b, l1);
          DoesThen(sb, d0, old(logged), i, ss, d1, l1, [FreeDirect(k, b)], D(), logged);
          ss := ss + [FreeDirect(k, b)];
          LogsAfter(d0, old(logged), d1, l1, D(), logged, {});
        }
        k := k + 1;
      }
      AnyFile(sb, D(), i, 0);
    }

    /** bfree of everything the indirect block maps; its entries stay */
    method TruncVias(i: nat, ghost d0: Disk) returns (ghost ss: seq<Step>)
      requires Truncating(sb, d0, D(), i, NDIRECT, 0) && Slot(files, i, NDIRECT) != 0
      modifies `blocks, `own, `logged
      ensures Truncating(sb, d0, D(), i, MAXFILE, NINDIRECT)
      ensures Logs(old(D()), old(logged), D(), logged, {})
      ensures logged <= old(logged) + FileMaps(sb, d0.own, i)
      ensures Does(sb, old(D()), old(logged), i, ss, Wiped(D(), Slot(files, i, NDIRECT), NINDIRECT), logged)
    {
      hide Logs, FileMaps, BBLOCK, Does, Wiped;
      LogsNothing(D(), logged);
      DoesNothing(sb, D(), logged, i);
      hide GoodBut, Own, Addr, Slot, Word, Released, SameElsewhere, SameMapElsewhere, BitAt, MarkBit, SetSlot;
      var c := Slot(files, i, NDIRECT);
      WipedNone(D(), c);
      ss := [];
      var j := 0;
      while j < NINDIRECT
        invariant j <= NINDIRECT && Truncating(sb, d0, D(), i, NDIRECT + j, j)
        invariant Does(sb, old(D()), old(logged), i, ss, Wiped(D(), c, j), logged)
        invariant Logs(old(D()), old(logged), D(), logged, {}) && logged <= old(logged) + FileMaps(sb, d0.own, i)
      {
        DirectAddr(files, i, NDIRECT + j);
        TruncViaStep(sb, d0, D(), i, j);
        ghost var d1, l1 := D(), logged;
        if Word(files, c, j) != 0 {
          ghost var b := Word(files, c, j);
          FreedAddr(sb, d0, D(), i, NDIRECT + j, j, NDIRECT + j);
          DoesFreeVia(sb, D(), logged, i, j);
          Bfree(Word(files, c, j));
          LogsBfree(sb, d1, D(), b, l1);
          LogsAfter(old(D()), old(logged), d1, l1, D(), logged, {});
          DoesThen(sb, old(D()), old(logged), i, ss, Wiped(d1, c, j), l1,
            [FreeVia(j, b)], Wiped(D(), c, j + 1), logged);
          ss := ss + [FreeVia(j, b)];
        } else {
          WipedSkip(D(), c, j);
        }
        j := j + 1;
      }
    }

    /** bfree(addrs[NDIRECT]); addrs[NDIRECT] = 0 */
    method TruncInd(i: nat)
      requires BitAt(blocks, sb, Slot(files, i, NDIRECT))
      modifies `blocks, `files, `own, `logged
      ensures D() == DropInd(sb, old(D()), i) && logged == old(logged) + {BBLOCK(sb, old(Slot(files, i, NDIRECT)))}
      ensures Logs(old(D()), old(logged), D(), logged, {})
    {
      hide Logs, BBLOCK, Slot, BitAt, MarkBit, SetSlot;
      var c := Slot(files, i, NDIRECT);
      SlotInds(files, i, NDIRECT, 0);
      Bfree(c);
      files := SetSlot(files, i, NDIRECT, 0);
      files := files.(inds := files.inds - {c});
      LogsBfree(sb, old(D()), D(), c, old(logged));
    }

    /** bfree of everything the indirect block maps, then of the block itself */
    method TruncIndirect(i: nat, ghost d0: Disk) returns (ghost ss: seq<Step>)
      requires Truncating(sb, d0, D(), i, NDIRECT, 0) && Own(own, 0).Meta? && Slot(files, i, NDIRECT) != 0
      modifies `blocks, `files, `own, `logged
      ensures Truncated(sb, d0, D(), i)
      ensures forall k: nat :: Slot(files, i, k) == if k == NDIRECT then 0 else Slot(old(files), i, k)
      ensures Logs(old(D()), old(logged), D(), logged, {})
      ensures logged <= old(logged) + FileMaps(sb, d0.own, i)
      ensures Does(sb, old(D()), old(logged), i, ss, D(), logged) && ss != [] && ss[|ss| - 1].FreeInd?
    {
      hide Logs, FileMaps, BBLOCK, Does, Wiped, GoodBut, Own, Addr, Slot,
        Word, Released, SameElsewhere, SameMapElsewhere,
        BitAt, MarkBit, SetSlot, DropInd, SameInodes;
      AnyFile(sb, D(), i, 0);
      InodeShape(sb, D(), i);
      ghost var c := Slot(files, i, NDIRECT);
      ss := TruncVias(i, d0);
      ghost var d2, l2 := D(), logged;
      TruncIndStep(sb, d0, d2, i);
      FreedInd(sb, d0, d2, i, MAXFILE, NINDIRECT);
      DoesFreeInd(sb, d2, l2, i);
      TruncInd(i);
      DoesThen(sb, old(D()), old(logged), i, ss, Wiped(d2, c, NINDIRECT), l2, [FreeInd(c)], D(), logged);
      ss := ss + [FreeInd(c)];
      LogsAfter(old(D()), old(logged), d2, l2, D(), logged, {});
    }

    /** Discard the contents of file i: its blocks, and no others, become free. */
    method Itrunc(i: nat) returns (ghost ss: seq<Step>)
      requires Valid() && i in files.inodes
      modifies `blocks, `files, `own, `logged, `dinodes
      ensures Valid() && Released(old(own), own, i, MAXFILE, true)
      ensures SameElsewhere(old(D()), D(), i) && SameButSize(old(files), files, i)
      ensures i in files.inodes && files.inodes[i] == Inode(0, NoAddrs())
      ensures dinodes == old(dinodes)[i := files.inodes[i]]
      ensures Logs(old(D()), old(logged), D(), logged, {})
      ensures logged == old(logged) + FileMaps(sb, old(own), i) + {IBLOCK(sb, i)}
      ensures Does(sb, old(D()), old(logged), i, ss, D(), logged) && Complete(ss)
      ensures old(logged) == {} ==> Transacts(sb, old(D()), D(), logged, {})
    {
      hide Logs, Transacts, FileMaps, Does, Complete;
      hide GoodBut, Own, Settled, SizesOk, Addr, Slot, Word, Released, SameElsewhere, SameMapElsewhere;
      ghost var d0 := D();
      ghost var s1 := TruncDirect(i);
      ghost var s2 := [];
      ghost var d1, l1 := D(), logged;
      if Slot(files, i, NDIRECT) != 0 {
        BootBlock(sb, D());
        s2 := TruncIndirect(i, d0);
        LogsAfter(d0, old(logged), d1, l1, D(), logged, {});
      } else {
        TruncNoInd(sb, d0, D(), i);
        DoesNothing(sb, D(), logged, i);
      }
      ghost var d2, l2 := D(), logged;
      DoesThen(sb, d0, old(logged), i, s1, d1, l1, s2, d2, l2);
      TruncComplete(s1, s2);
      DoesSave(sb, d2, l2, i);
      TruncDone(sb, d0, D(), i);
      LogsSize(D(), i, 0, logged, IBLOCK(sb, i));
      LogsAfter(d0, old(logged), D(), logged, D().(files := SetSize(files, i, 0)), logged + {IBLOCK(sb, i)}, {});
      files := SetSize(files, i, 0);
      Iupdate(i);
      DoesThen(sb, d0, old(logged), i, s1 + s2, d2, l2, [Resize(0), Save], D(), logged);
      ss := s1 + s2 + [Resize(0), Save];
      FreedLogged(sb, d0, D(), old(logged), logged, i);
      LogsMore(d0, old(logged), D(), logged);
      if old(logged) == {} { TransactsTrunc(sb, d0, D(), logged, i); }
    }
  
    method BeginOp()
      modifies `logged
      ensures logged == {}
    {
      logged := {};
    }

    /** end_op; x are the changed blocks that the transaction did not log. */
    method EndOp(ghost x: set<nat>)
      modifies `done
      ensures done == old(done) + [Txn(D(), logged, x)]
    {
      done := done + [Txn(D(), logged, x)];
    }

    /** One transaction of filewrite: begin_op, writei, end_op. */
    method WriteTxn(i: nat, src: seq<bv8>, off: nat, n: nat) returns (r: int, ghost reach: nat, ghost t: Txn)
      requires Valid() && i in files.inodes && off < UINT && n <= MAXCHUNK
      modifies this
      ensures Valid() && i in files.inodes && (NoHoles(old(files), i) ==> NoHoles(files, i))
      ensures t.disk == D() && t.logged == logged && done == old(done) + [t]
      ensures |t.logged| <= MAXOPBLOCKS + 1 && (NoHoles(old(files), i) ==> |t.logged| <= MAXOPBLOCKS)
      ensures Transacts(sb, old(D()), t.disk, t.logged, t.strays)
      ensures r == -1 ==> D() == old(D()) && reach == 0
      ensures off > old(Size(files, i)) ==> r == -1
      ensures r != -1 ==> 0 <= r <= reach <= n && reach <= |src| && (r == n ==> reach == r)
      ensures Patched(old(D()), D(), i, off, src[..reach])
      ensures Size(files, i) == if off + r > old(Size(files, i)) && r != -1 then off + r else old(Size(files, i))
      ensures SameButSize(old(files), files, i)
      ensures old(dinodes == files.inodes) ==> dinodes == files.inodes
      ensures r != -1 ==> off <= old(Size(files, i)) && off + n <= MAXFILE * BSIZE
    {
      hide Builds, GoodBut, Own, Settled, SizesOk, Patched, NoHoles, Touched, Slack, Logs, Full, SameButSize, Stray,
        Transacts, MapWithin, OwnersKept, Complete;
      BeginOp();
      ChunkCost(files, i, off, n);
      TransactsSame(sb, D(), {});
      PatchedNothing(D(), i, off);
      SameInodesAll(files, i);
      ghost var ss;
      r, reach, ss := Writei(i, src, off, n);
      if r == -1 { reach := 0; }
      assert src[..0] == [];
      InodesSaved(old(files), files, i);
      t := Txn(D(), logged, if r == -1 then {} else Stray(files, i, off, r, reach));
      EndOp(t.strays);
    }

    /**
     filewrite on an inode: at most MAXCHUNK bytes to a transaction; ts records each of them at its end_op. None logs
     more than MAXOPBLOCKS blocks if the file has no holes, and never more than one block above that.
     */
    method Filewrite(i: nat, src: seq<bv8>, off0: nat, n: int)
      returns (ret: int, off: nat, ghost reach: nat, ghost ts: seq<Txn>)
      requires Valid() && i in files.inodes && off0 < UINT && n < 0x8000_0000
      modifies this
      ensures Valid() && (NoHoles(old(files), i) ==> NoHoles(files, i))
      ensures Small(ts, MAXOPBLOCKS + 1) && (NoHoles(old(files), i) ==> Small(ts, MAXOPBLOCKS))
      ensures ret == n || ret == -1
      ensures reach <= |src| && Patched(old(D()), D(), i, off0, src[..reach]) && off0 <= off <= off0 + reach
      ensures ret == n >= 0 ==> reach == n && off == off0 + n
      ensures ret == -1 ==> n < 0 || off < off0 + n
      ensures Size(files, i) == if off0 <= old(Size(files, i)) < off then off else old(Size(files, i))
      ensures SameButSize(old(files), files, i)
      ensures done == old(done) + ts
      ensures Chain(sb, old(D()), ts) && D() == After(old(D()), ts, |ts|)
      ensures old(dinodes == files.inodes) ==> dinodes == files.inodes
    {
      hide GoodBut, Own, Settled, SizesOk, Patched, NoHoles, SameButSize, Transacts, Chain, Small;
      ChainNone(sb, D());
      ts := [];
      SameInodesAll(files, i);
      off, reach := off0, 0;
      PatchedNothing(D(), i, off0);
      var idx := 0;
      while idx < n
        invariant 0 <= idx <= |src| && (idx > 0 ==> idx <= n) && off == off0 + idx < UINT && reach == idx
        invariant Valid() && i in files.inodes && (NoHoles(old(files), i) ==> NoHoles(files, i))
        invariant Small(ts, MAXOPBLOCKS + 1) && (NoHoles(old(files), i) ==> Small(ts, MAXOPBLOCKS))
        invariant Patched(old(D()), D(), i, off0, src[..idx]) && SameButSize(old(files), files, i)
        invariant Size(files, i) == if off0 <= old(Size(files, i)) < off then off else old(Size(files, i))
        invariant idx > 0 ==> off0 <= old(Size(files, i))
        invariant done == old(done) + ts
        invariant Chain(sb, old(D()), ts) && D() == After(old(D()), ts, |ts|)
        invariant old(dinodes == files.inodes) ==> dinodes == files.inodes
      {
        var n1 := if n - idx > MAXCHUNK then MAXCHUNK else n - idx;
        var r;
        ghost var d, f1, w, t := D(), files, 0, Txn(D(), {}, {});
        r, w, t := WriteTxn(i, src[idx..], off, n1);
        ChainStep(sb, old(D()), ts, t);
        SmallStep(ts, MAXOPBLOCKS + 1, t);
        if NoHoles(old(files), i) { SmallStep(ts, MAXOPBLOCKS, t); }
        ts := ts + [t];
        SameInodesAfter(old(files), f1, files, i);
        assert src[idx..][..w] == src[idx..idx + w];
        PatchJoin(old(D()), d, D(), i, off0, src, idx, w);
        reach := idx + w;
        if r > 0 {
          off := off + r;
        }
        if r != n1 {
          break;
        }
        idx := idx + r;
      }
      ret := if idx == n then n else -1;
    }
  }
}
