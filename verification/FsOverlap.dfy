/**
 Why overlapping operations are serialized: writes and truncations under the inode
 locks, with each buffer locked from its change to its log_write, amount to the same
 operations one after the other, in any order in which those on the same file held
 its lock and blocks were freed before they were taken.
 */
module FsOverlap {
  import opened Log
  import Fs
  import opened FsImage
  import opened FsSteps
  import FsCode
  import opened FsCrash

  // ----- a program is a transaction -----

  lemma {:induction false} ResizeLogs(d: Fs.Disk, i: nat, n: nat, l: set<nat>)
    ensures FsCode.Logs(d, l, d.(files := Fs.SetSize(d.files, i, n)), l, {})
  {
  }

  /** A step passes every block that it changes to log_write, save for the entry that FreeVia leaves for empty. */
  lemma {:induction false} StepLogs(sb: Fs.Super, d: Fs.Disk, i: nat, s: Step, l: set<nat>)
    requires Fs.Good(sb, d) && Can(sb, d, i, s) && !s.FreeVia?
    ensures FsCode.Logs(d, l, Do(sb, d, i, s), l + SetOf(StepLog(sb, d.files, i, s)), {})
  {
    hide Do, Fs.Addr, Fs.Slot, Fs.Own, Fs.Splice, Fs.BBLOCK, Fs.IBLOCK, FsCode.Logs;
    assert Fs.Shape(sb, d) by { hide Fs.Shape, Fs.MapDown, Fs.MapUp, Fs.Layout, Fs.BitmapExact; }
    hide Fs.GoodBut;
    var log := StepLog(sb, d.files, i, s);
    match s
    case NewDirect(bn, b) =>
      DoDirect(sb, d, i, bn, b);
      assert SetOf(log) == {Fs.BBLOCK(sb, b), b};
      var l1 := l + {Fs.BBLOCK(sb, b), b};
      FsCode.LogsTake(sb, d, b, l);
      FsCode.LogsDirect(Fs.Take(sb, d, b), i, bn, b, l1);
      FsCode.LogsAfter(d, l, Fs.Take(sb, d, b), l1, Do(sb, d, i, s), l1, {});
    case NewInd(b) =>
      DoInd(sb, d, i, b);
      assert SetOf(log) == {Fs.BBLOCK(sb, b), b};
      var l1 := l + {Fs.BBLOCK(sb, b), b};
      FsCode.LogsTake(sb, d, b, l);
      FsCode.LogsInd(Fs.Take(sb, d, b), i, b, l1);
      FsCode.LogsAfter(d, l, Fs.Take(sb, d, b), l1, Do(sb, d, i, s), l1, {});
    case NewVia(j, b) =>
      DoVia(sb, d, i, j, b);
      var c := Fs.Slot(d.files, i, Fs.NDIRECT);
      assert SetOf(log) == {Fs.BBLOCK(sb, b), b, c};
      var l1 := l + {Fs.BBLOCK(sb, b), b};
      assert l + SetOf(log) == l1 + {c};
      FsCode.LogsTake(sb, d, b, l);
      FsCode.LogsVia(Fs.Take(sb, d, b), i, j, b, l1);
      FsCode.LogsAfter(d, l, Fs.Take(sb, d, b), l1, Do(sb, d, i, s), l1 + {c}, {});
    case Lay(bn, off, bytes) =>
      DoLay(sb, d, i, bn, off, bytes);
      assert SetOf(log) == {Fs.Addr(d.files, i, bn)};
      FsCode.LogsSplice(d, Fs.Addr(d.files, i, bn), off, bytes, l);
    case Resize(n) =>
      DoResize(sb, d, i, n);
      assert l + SetOf(log) == l;
      ResizeLogs(d, i, n, l);
    case Save =>
      DoSave(sb, d, i);
      SaveLogs(d, l, l + SetOf(log));
    case FreeDirect(k, b) =>
      DoFreeDirect(sb, d, i, k);
      FsCode.SlotInds(d.files, i, k, 0);
      assert SetOf(log) == {Fs.BBLOCK(sb, b)};
      FsCode.LogsBfree(sb, d, Do(sb, d, i, s), b, l);
    case FreeInd(b) =>
      DoFreeInd(sb, d, i);
      FsCode.SlotInds(d.files, i, Fs.NDIRECT, 0);
      assert SetOf(log) == {Fs.BBLOCK(sb, b)};
      FsCode.LogsBfree(sb, d, Do(sb, d, i, s), b, l);
  }

  /** The step leaves block b what it is. */
  ghost predicate Leaves(d: Fs.Disk, d': Fs.Disk, b: nat) { !FsCode.Rewired(d, d', b) && !FsCode.Rewritten(d, d', b) }

  lemma {:induction false} FreeViaLeaves(sb: Fs.Super, d: Fs.Disk, i: nat, s: Step, b: nat)
    requires Fs.Good(sb, d) && Can(sb, d, i, s) && s.FreeVia?
    requires b != Fs.BBLOCK(sb, s.b)
    ensures !FsCode.Rewritten(d, Do(sb, d, i, s), b)
    ensures b != Fs.Slot(d.files, i, Fs.NDIRECT) ==> Leaves(d, Do(sb, d, i, s), b)
  {
    CanHas(sb, d, i, s);
    DoFreeVia(sb, d, i, s.j, s.b);
    hide Fs.GoodBut, Fs.Addr, Fs.Slot, Fs.BBLOCK, Can, Do, Fs.MarkBit, FsCode.Block, Fs.Own, FsCode.Rewired, Fs.SetWord;
    MarkQuiet(sb, d.blocks, s.b, b);
    var c := Fs.Slot(d.files, i, Fs.NDIRECT);
    if b != c { WordQuiet(d, Do(sb, d, i, s), c, s.j, s.b, b); }
  }

  lemma {:induction false} WordQuiet(d: Fs.Disk, d': Fs.Disk, c: nat, j: nat, x: nat, b: nat)
    requires d'.files == Fs.SetWord(d.files, c, j, 0) && d'.own == d.own[x := Fs.Free] && b != c
    ensures !FsCode.Rewired(d, d', b)
  {
    Fs.OwnAt(d.own, x, Fs.Free);
    hide Fs.Own, Fs.Poke;
  }

  lemma {:induction false} MarkQuiet(sb: Fs.Super, blocks: Fs.Blocks, b: nat, c: nat)
    requires c != Fs.BBLOCK(sb, b)
    ensures FsCode.Block(Fs.MarkBit(blocks, sb, b, false), c) == FsCode.Block(blocks, c)
  {
    hide Fs.BBLOCK, Fs.Cell, Fs.Flip;
  }

  /** What a step does not log it leaves alone, but for the indirect block that FreeVia works on. */
  lemma {:induction false} StepLeaves(sb: Fs.Super, d: Fs.Disk, i: nat, s: Step, b: nat)
    requires Fs.Good(sb, d) && Can(sb, d, i, s) && b !in StepLog(sb, d.files, i, s)
    requires s.FreeVia? ==> b != Fs.Slot(d.files, i, Fs.NDIRECT)
    ensures Leaves(d, Do(sb, d, i, s), b)
  {
    hide Fs.GoodBut, Do, Can, FsCode.Rewired, FsCode.Rewritten, Fs.Slot, Fs.Addr, Fs.BBLOCK;
    if s.FreeVia? {
      FreeViaLeaves(sb, d, i, s, b);
    } else {
      hide StepLog;
      StepLogs(sb, d, i, s, {});
    }
  }

  /** An indirect block whose file will free it is free in the end, or logged again. */
  lemma {:induction false} IndGone(sb: Fs.Super, d: Fs.Disk, i: nat, ss: seq<Step>, c: nat)
    requires Fs.Good(sb, d) && CanProg(sb, d, i, ss) && c != 0 && Fs.Slot(d.files, i, Fs.NDIRECT) == c
    requires exists s <- ss :: s.FreeInd?
    ensures Fs.Own(Prog(sb, d, i, ss).own, c).Free? || c in ProgLog(sb, d, i, ss)
    decreases |ss|
  {
    hide Fs.GoodBut, Can, Do, StepLog, Fs.Slot, Fs.Own;
    var d1, s, tail := Do(sb, d, i, ss[0]), ss[0], ss[1..];
    assert ss == [s] + tail;
    DoGood(sb, d, i, s);
    if s.FreeInd? {
      FreeIndStep(sb, d, i, s);
      FreeAgain(sb, d1, i, tail, c);
    } else {
      SlotStays(sb, d, i, s);
      IndGone(sb, d1, i, tail, c);
    }
  }

  lemma {:induction false} FreeAgain(sb: Fs.Super, d: Fs.Disk, i: nat, ss: seq<Step>, b: nat)
    requires Fs.Good(sb, d) && CanProg(sb, d, i, ss) && Fs.Own(d.own, b).Free?
    ensures Fs.Own(Prog(sb, d, i, ss).own, b).Free? || b in ProgLog(sb, d, i, ss)
    decreases |ss|
  {
    hide Fs.GoodBut, Can, Do, StepLog, Fs.Own;
    if ss != [] {
      DoGood(sb, d, i, ss[0]);
      FreeStep(sb, d, i, ss[0], b);
      if Fs.Own(Do(sb, d, i, ss[0]).own, b).Free? { FreeAgain(sb, Do(sb, d, i, ss[0]), i, ss[1..], b); }
    }
  }

  /** FreeVia, and then the rest of the operation. */
  lemma {:induction false} FreeViaThen(sb: Fs.Super, d: Fs.Disk, i: nat, s: Step, d': Fs.Disk, l: set<nat>,
        l': set<nat>)
    requires Fs.Good(sb, d) && Can(sb, d, i, s) && s.FreeVia? && Fs.Good(sb, d')
    requires FsCode.Logs(Do(sb, d, i, s), l + {Fs.BBLOCK(sb, s.b)}, d', l', {})
    requires var c := Fs.Slot(d.files, i, Fs.NDIRECT); Fs.Own(d'.own, c).Free? || c in l'
    ensures FsCode.Logs(d, l, d', l', {})
  {
    hide Fs.GoodBut, Can, Do, Fs.Slot, Fs.Own, Fs.BBLOCK;
    var d1, c := Do(sb, d, i, s), Fs.Slot(d.files, i, Fs.NDIRECT);
    forall b: nat ensures (FsCode.Rewired(d, d', b) ==> b in l') && (FsCode.Rewritten(d, d', b) ==> b in l') {
      if b != Fs.BBLOCK(sb, s.b) { FreeViaLeaves(sb, d, i, s, b); }
      hide FsCode.Block;
      if b == c {
        if Fs.Own(d'.own, b).Free? { FreeNotInd(sb, d', b); }
      } else {
        assert FsCode.Rewired(d, d', b) ==> FsCode.Rewired(d, d1, b) || FsCode.Rewired(d1, d', b);
      }
      assert FsCode.Rewritten(d, d', b) ==> FsCode.Rewritten(d, d1, b) || FsCode.Rewritten(d1, d', b);
    }
  }

  lemma {:induction false} FreeNotInd(sb: Fs.Super, d: Fs.Disk, b: nat)
    requires Fs.Good(sb, d) && Fs.Own(d.own, b).Free?
    ensures b !in d.files.inds
  {
    hide Fs.MapDown, Fs.MapUp, Fs.BitmapExact, Fs.Layout;
  }

  lemma {:induction false} SaveLogs(d: Fs.Disk, l: set<nat>, l': set<nat>)
    requires l <= l'
    ensures FsCode.Logs(d, l, d, l', {})
  {
  }

  lemma {:induction false} ProgLogs(sb: Fs.Super, d: Fs.Disk, i: nat, ss: seq<Step>, l: set<nat>)
    requires Fs.Good(sb, d) && CanProg(sb, d, i, ss) && Complete(ss)
    ensures FsCode.Logs(d, l, Prog(sb, d, i, ss), l + SetOf(ProgLog(sb, d, i, ss)), {})
    decreases |ss|
  {
    hide Fs.GoodBut, Can, Do, StepLog, FsCode.Logs;
    if ss == [] {
      assert l + SetOf([]) == l;
      FsCode.LogsNothing(d, l);
    } else {
      var d1, d', b1 := Do(sb, d, i, ss[0]), Prog(sb, d, i, ss), StepLog(sb, d.files, i, ss[0]);
      var l1, l' := l + SetOf(b1), l + SetOf(ProgLog(sb, d, i, ss));
      DoGood(sb, d, i, ss[0]);
      ProgLogs(sb, d1, i, ss[1..], l1);
      assert l1 + SetOf(ProgLog(sb, d1, i, ss[1..])) == l';
      if ss[0].FreeVia? {
        ProgFreeVia(sb, d, i, ss, l, l');
      } else {
        StepLogs(sb, d, i, ss[0], l);
        FsCode.LogsAfter(d, l, d1, l1, d', l', {});
      }
    }
  }

  lemma {:induction false} ProgFreeVia(sb: Fs.Super, d: Fs.Disk, i: nat, ss: seq<Step>, l: set<nat>, l': set<nat>)
    requires Fs.Good(sb, d) && CanProg(sb, d, i, ss) && Complete(ss) && ss != [] && ss[0].FreeVia?
    requires l' == l + SetOf(ProgLog(sb, d, i, ss))
    requires FsCode.Logs(Do(sb, d, i, ss[0]), l + SetOf(StepLog(sb, d.files, i, ss[0])), Prog(sb, d, i, ss), l', {})
    ensures FsCode.Logs(d, l, Prog(sb, d, i, ss), l', {})
  {
    hide Fs.GoodBut, Do, FsCode.Logs, Fs.Own, Fs.Slot, Fs.BBLOCK, Fs.Addr;
    var d1, s := Do(sb, d, i, ss[0]), ss[0];
    assert SetOf(StepLog(sb, d.files, i, s)) == {Fs.BBLOCK(sb, s.b)};
    ViaHasInd(sb, d, i, s);
    hide Can, StepLog;
    DoGood(sb, d, i, s);
    SlotStays(sb, d, i, s);
    IndGone(sb, d1, i, ss[1..], Fs.Slot(d.files, i, Fs.NDIRECT));
    ProgGood(sb, d, i, ss);
    FreeViaThen(sb, d, i, s, Prog(sb, d, i, ss), l, l');
  }

  lemma {:induction false} ViaHasInd(sb: Fs.Super, d: Fs.Disk, i: nat, s: Step)
    requires Can(sb, d, i, s) && s.FreeVia?
    ensures Fs.Slot(d.files, i, Fs.NDIRECT) != 0
  {
    hide Fs.Slot, Fs.Own;
  }

  lemma {:induction false} ProgInodes(sb: Fs.Super, d: Fs.Disk, i: nat, ss: seq<Step>)
    requires CanProg(sb, d, i, ss)
    ensures FsCode.SameButSize(d.files, Prog(sb, d, i, ss).files, i)
    ensures (forall s <- ss :: !ChangesInode(s)) ==> Prog(sb, d, i, ss).files.inodes == d.files.inodes
    decreases |ss|
  {
    if ss != [] {
      var d1 := Do(sb, d, i, ss[0]);
      ProgInodes(sb, d1, i, ss[1..]);
      assert ss == [ss[0]] + ss[1..];
      assert d1.files.inodes == InodesAfter(d.files, i, ss[0]);
      SameInode(d.files, i);
      if !ChangesInode(ss[0]) { assert InodeAfter(d.files.inodes[i], ss[0]) == d.files.inodes[i]; }
      assert (forall s <- ss :: !ChangesInode(s)) ==> !ChangesInode(ss[0]) && forall s <- ss[1..] :: !ChangesInode(s);
      hide Do, CanProg;
    }
  }

  lemma {:induction false} SaveInLog(sb: Fs.Super, d: Fs.Disk, i: nat, ss: seq<Step>)
    requires Save in ss
    ensures Fs.IBLOCK(sb, i) in ProgLog(sb, d, i, ss)
    decreases |ss|
  {
    hide Do, Fs.IBLOCK, Fs.BBLOCK, Fs.Addr, Fs.Slot;
    assert ss == [ss[0]] + ss[1..];
    if ss[0] != Save { SaveInLog(sb, Do(sb, d, i, ss[0]), i, ss[1..]); }
  }

  lemma {:induction false} ProgTransacts(sb: Fs.Super, d: Fs.Disk, i: nat, ss: seq<Step>)
    requires Fs.Good(sb, d) && Fs.Settled(sb, d.own) && CanProg(sb, d, i, ss) && Complete(ss)
    ensures FsCode.Transacts(sb, d, Prog(sb, d, i, ss), SetOf(ProgLog(sb, d, i, ss)), {})
  {
    hide Fs.GoodBut, Prog, CanProg, ProgLog, FsCode.Logs, Fs.IBLOCK, Complete, ChangesInode;
    var d', l := Prog(sb, d, i, ss), SetOf(ProgLog(sb, d, i, ss));
    ProgGood(sb, d, i, ss);
    ProgInodes(sb, d, i, ss);
    assert {} + l == l;
    ProgLogs(sb, d, i, ss, {});
    HandedSettled(sb, d.own, d'.own, i);
    if s :| s in ss && ChangesInode(s) { CompleteSaves(ss, s); }
    if Save in ss { SaveInLog(sb, d, i, ss); }
    hide Handed;
    hide Fs.Own, Fs.Settled;
  }

  lemma {:induction false} HandedSettled(sb: Fs.Super, o: Fs.Owners, o': Fs.Owners, i: nat)
    requires Handed(o, o', i)
    ensures Fs.Settled(sb, o) ==> Fs.Settled(sb, o')
    ensures forall b: nat :: Fs.Own(o', b).Meta? == Fs.Own(o, b).Meta?
  {
    hide Fs.Own;
  }

  // ----- overlapping programs, one after the other -----

  /** The transactions of the operations in the given order, from d on. */
  function Serial(sb: Fs.Super, d: Fs.Disk, who: map<nat, nat>, tr: seq<Act>, order: seq<nat>): (ts: seq<FsCode.Txn>)
    ensures |ts| == |order|
    decreases |order|
  {
    if order == [] then [] else
      var o := order[0];
      var i, ss := FileOf(who, o), StepsOf(tr, o);
      var d1 := Prog(sb, d, i, ss);
      [FsCode.Txn(d1, SetOf(ProgLog(sb, d, i, ss)), {})] + Serial(sb, d1, who, Others(tr, o), order[1..])
  }

  /** Every operation does what its steps oblige it to. */
  ghost predicate Finished(tr: seq<Act>) {
    tr == [] || (Due(tr[0].step, StepsOf(tr[1..], tr[0].op)) && Finished(tr[1..]))
  }

  lemma {:induction false} FirstSplit(tr: seq<Act>, o: nat)
    requires tr != []
    ensures StepsOf(tr, o) == (if tr[0].op == o then [tr[0].step] else []) + StepsOf(tr[1..], o)
    ensures Others(tr, o) == (if tr[0].op != o then [tr[0]] else []) + Others(tr[1..], o)
  {
  }

  lemma {:induction false} CompleteSteps(tr: seq<Act>, o: nat)
    requires Finished(tr)
    ensures Complete(StepsOf(tr, o))
    decreases |tr|
  {
    hide Due;
    if tr == [] {
      assert StepsOf(tr, o) == [];
    } else {
      CompleteSteps(tr[1..], o);
      FirstSplit(tr, o);
      hide StepsOf;
      var ss, rest := StepsOf(tr, o), StepsOf(tr[1..], o);
      if tr[0].op == o {
        assert ss[0] == tr[0].step && ss[1..] == rest;
      } else {
        assert ss == rest;
      }
    }
  }

  lemma {:induction false} StepsOthers(tr: seq<Act>, o: nat, p: nat)
    requires p != o
    ensures StepsOf(Others(tr, o), p) == StepsOf(tr, p)
    decreases |tr|
  {
    if tr != [] {
      StepsOthers(tr[1..], o, p);
      FirstSplit(tr, o);
      FirstSplit(tr, p);
      var r, tail := Others(tr, o), Others(tr[1..], o);
      if tr[0].op != o {
        FirstSplit(r, p);
        hide StepsOf, Others;
        assert r[0] == tr[0] && r[1..] == tail;
      } else {
        hide StepsOf, Others;
        assert r == tail;
        assert StepsOf(tr, p) == StepsOf(tr[1..], p);
      }
    }
  }

  lemma {:induction false} FinishedOthers(tr: seq<Act>, o: nat)
    requires Finished(tr)
    ensures Finished(Others(tr, o))
    decreases |tr|
  {
    hide Due;
    if tr == [] {
      assert Others(tr, o) == [];
    } else {
      FinishedOthers(tr[1..], o);
      FirstSplit(tr, o);
      if tr[0].op != o { StepsOthers(tr[1..], o, tr[0].op); }
      hide StepsOf, Others;
      var r, tail := Others(tr, o), Others(tr[1..], o);
      if tr[0].op != o {
        assert r[0] == tr[0] && r[1..] == tail;
      } else {
        assert r == tail;
      }
    }
  }

  lemma {:induction false} ChainCons(sb: Fs.Super, d: Fs.Disk, t: FsCode.Txn, ts: seq<FsCode.Txn>)
    requires FsCode.Transacts(sb, d, t.disk, t.logged, t.strays) && FsCode.Chain(sb, t.disk, ts)
    ensures FsCode.Chain(sb, d, [t] + ts)
  {
    hide FsCode.Transacts;
    var us := [t] + ts;
    forall k: nat | k < |us|
      ensures FsCode.Transacts(sb, FsCode.After(d, us, k), us[k].disk, us[k].logged, us[k].strays)
    {
      if k > 0 { assert FsCode.After(d, us, k) == FsCode.After(t.disk, ts, k - 1); }
    }
  }

  /**
   `order` names operations, all those of the trace among them, and none twice.
   Operations on the same file come in the order in which they held the lock of its
   inode, during which no other step on the file was possible; an operation that
   frees a block comes before one that takes it.
   */
  ghost predicate Enumerates(order: seq<nat>, who: map<nat, nat>, tr: seq<Act>) {
    && (forall o <- order :: o in who) && (forall a <- tr :: a.op in order)
    && (forall k, l :: 0 <= k < l < |order| ==> order[k] != order[l] && !Before(who, tr, order[l], order[k]))
  }

  lemma {:induction false} BeforeOthers(who: map<nat, nat>, tr: seq<Act>, o: nat, p: nat, q: nat)
    requires Before(who, Others(tr, o), p, q)
    ensures Before(who, tr, p, q)
    decreases |tr|
  {
    hide Depends;
    if tr != [] {
      var r, tail := Others(tr, o), tr[1..];
      if tr[0].op != o {
        assert r[1..] == Others(tail, o) && r[0] == tr[0];
        if Before(who, r[1..], p, q) { BeforeOthers(who, tail, o, p, q); }
      } else {
        assert r == Others(tail, o);
        BeforeOthers(who, tail, o, p, q);
      }
    }
  }

  lemma {:induction false} NoActs(who: map<nat, nat>, tr: seq<Act>)
    requires Enumerates([], who, tr)
    ensures tr == []
  {
    assert |tr| > 0 ==> First(tr) in tr;
  }

  function First(tr: seq<Act>): Act { if tr == [] then Act(0, Save) else tr[0] }

  /**
   Operations that overlap are a chain of transactions, in any order that keeps the
   one in which they held the inode locks: each starts from what the one before left and logs what it changes, and
   the last leaves what the overlapping steps leave.
   */
  lemma {:induction false} SerialChain(sb: Fs.Super, d: Fs.Disk, who: map<nat, nat>, tr: seq<Act>, order: seq<nat>)
    requires Fs.Good(sb, d) && Fs.Settled(sb, d.own) && CanTrace(sb, d, who, tr) && Finished(tr)
    requires Enumerates(order, who, tr)
    ensures var ts := Serial(sb, d, who, tr, order);
      FsCode.Chain(sb, d, ts) && FsCode.After(d, ts, |ts|) == Trace(sb, d, who, tr)
    decreases |order|
  {
    hide Fs.GoodBut, CanProg, Prog, ProgLog, FsCode.Transacts, StepsOf, Others,
      FsCode.Chain, HeldFirst, Fs.Settled, SetOf,
      OpLog, Finished, Enumerates, Complete, Handed;
    if order == [] {
      FsCode.ChainNone(sb, d);
      NoActs(who, tr);
    } else {
      hide Trace, CanTrace;
      FirstOp(order, who, tr);
      var o, rest := order[0], order[1..];
      var i, ss, tr1 := who[o], StepsOf(tr, o), Others(tr, o);
      var d1 := Prog(sb, d, i, ss);
      Pull(sb, d, who, tr, o);
      CompleteSteps(tr, o);
      ProgTransacts(sb, d, i, ss);
      ProgGood(sb, d, i, ss);
      HandedSettled(sb, d.own, d1.own, i);
      FinishedOthers(tr, o);
      SerialChain(sb, d1, who, tr1, rest);
      var t, ts := FsCode.Txn(d1, SetOf(ProgLog(sb, d, i, ss)), {}), Serial(sb, d1, who, tr1, rest);
      ChainCons(sb, d, t, ts);
      assert FsCode.After(d, [t] + ts, |[t] + ts|) == FsCode.After(d1, ts, |ts|);
    }
  }

  /** In any order each operation logs the blocks that it logs when they overlap. */
  lemma {:induction false} SerialLogs(sb: Fs.Super, d: Fs.Disk, who: map<nat, nat>, tr: seq<Act>, order: seq<nat>,
        k: nat)
    requires Fs.Good(sb, d) && CanTrace(sb, d, who, tr) && Enumerates(order, who, tr) && k < |order|
    ensures Serial(sb, d, who, tr, order)[k].logged == SetOf(OpLog(sb, d, who, tr, order[k]))
    decreases k
  {
    hide Fs.GoodBut, CanProg, Prog, ProgLog, StepsOf, Others, HeldFirst, SetOf, OpLog, Trace, CanTrace, Enumerates;
    FirstOp(order, who, tr);
    var o := order[0];
    Pull(sb, d, who, tr, o);
    if k > 0 {
      ProgGood(sb, d, who[o], StepsOf(tr, o));
      Differ(order, who, tr, k);
      SerialLogs(sb, Prog(sb, d, who[o], StepsOf(tr, o)), who, Others(tr, o), order[1..], k - 1);
    }
  }

  lemma {:induction false} BeforeIn(who: map<nat, nat>, tr: seq<Act>, p: nat, q: nat)
    requires Before(who, tr, p, q)
    ensures exists a <- tr :: a.op == p
    decreases |tr|
  {
    assert tr == [tr[0]] + tr[1..];
    if tr[0].op != p { BeforeIn(who, tr[1..], p, q); }
  }

  lemma {:induction false} FirstOp(order: seq<nat>, who: map<nat, nat>, tr: seq<Act>)
    requires Enumerates(order, who, tr) && order != []
    ensures order[0] in who && Enumerates(order[1..], who, Others(tr, order[0])) && HeldFirst(who, tr, order[0])
  {
    hide Before;
    var o, rest, tr1 := order[0], order[1..], Others(tr, order[0]);
    assert forall p <- rest :: p in order;
    forall a | a in tr1 ensures a.op in rest {
      assert a.op in order && a.op != o;
    }
    forall k, l | 0 <= k < l < |rest| ensures rest[k] != rest[l] && !Before(who, tr1, rest[l], rest[k]) {
      assert order[k + 1] != order[l + 1] && !Before(who, tr, order[l + 1], order[k + 1]);
      if Before(who, tr1, rest[l], rest[k]) { BeforeOthers(who, tr, o, rest[l], rest[k]); }
    }
    forall p: nat | p in who && p != o ensures !Before(who, tr, p, o) {
      if Before(who, tr, p, o) { BeforeIn(who, tr, p, o); }
      if p in order {
        var l :| 0 <= l < |order| && order[l] == p;
        assert !Before(who, tr, order[l], order[0]);
      }
    }
  }

  lemma {:induction false} Differ(order: seq<nat>, who: map<nat, nat>, tr: seq<Act>, k: nat)
    requires Enumerates(order, who, tr) && 0 < k < |order|
    ensures order[k] != order[0]
  {
  }

  // ----- the locks give an order -----

  /** Some step of operation q comes after some step of operation p. */
  predicate Follows(tr: seq<Act>, p: nat, q: nat) {
    tr != [] && ((tr[0].op == p && exists z <- tr[1..] :: z.op == q) || Follows(tr[1..], p, q))
  }

  /** The lock of an inode is held from the first step of an operation to its last. */
  ghost predicate Exclusive(who: map<nat, nat>, tr: seq<Act>) {
    forall p: nat, q: nat :: p != q && FileOf(who, p) == FileOf(who, q) && Follows(tr, p, q) ==> !Follows(tr, q, p)
  }

  /** An operation is a write, which frees nothing, or a truncation, which takes nothing. */
  predicate OneKind(tr: seq<Act>) {
    forall a <- tr, z <- tr :: a.op == z.op && Frees(a.step) ==> !Allocates(z.step)
  }

  predicate Acts(tr: seq<Act>, p: nat) { exists a <- tr :: a.op == p }

  lemma {:induction false} BeforeWhy(who: map<nat, nat>, tr: seq<Act>, p: nat, q: nat)
    requires Before(who, tr, p, q)
    ensures Acts(tr, q)
    ensures (FileOf(who, p) == FileOf(who, q) && Follows(tr, p, q)) || exists z <- tr :: z.op == q && Allocates(z.step)
    decreases |tr|
  {
    hide Frees, Allocates;
    assert tr == [tr[0]] + tr[1..];
    if Before(who, tr[1..], p, q) {
      BeforeWhy(who, tr[1..], p, q);
    } else {
      var z :| z in tr[1..] && z.op == q && Depends(who, tr[0], z);
      assert z in tr;
    }
  }

  /** Of two operations on one file, one has a step that must stay after a step of the other, or the reverse. */
  lemma {:induction false} OneFirst(who: map<nat, nat>, tr: seq<Act>, p: nat, q: nat)
    requires Acts(tr, p) && Acts(tr, q) && p != q && FileOf(who, p) == FileOf(who, q)
    ensures Before(who, tr, p, q) || Follows(tr, q, p)
    decreases |tr|
  {
    hide Passes;
    var tail := tr[1..];
    assert tr == [tr[0]] + tail;
    if tr[0].op == p {
      var z :| z in tail && z.op == q;
      assert Depends(who, tr[0], z);
    } else if tr[0].op == q {
      var z :| z in tail && z.op == p;
    } else {
      OneFirst(who, tail, p, q);
    }
  }

  lemma {:induction false} Tails(who: map<nat, nat>, tr: seq<Act>)
    requires tr != [] && Exclusive(who, tr) && OneKind(tr)
    ensures Exclusive(who, tr[1..]) && OneKind(tr[1..])
  {
    hide Frees, Allocates, FileOf;
    assert forall p: nat, q: nat :: Follows(tr[1..], p, q) ==> Follows(tr, p, q);
  }

  /** Operation p, which has the first step, may come first. */
  lemma {:induction false} MayLead(who: map<nat, nat>, tr: seq<Act>, y: nat)
    requires tr != [] && Exclusive(who, tr) && OneKind(tr) && y != tr[0].op
    requires !Acts(tr[1..], tr[0].op) || exists a <- tr :: a.op == tr[0].op && Frees(a.step)
    ensures !Before(who, tr, y, tr[0].op)
  {
    hide Frees, Allocates, Depends, FileOf;
    var p, tail := tr[0].op, tr[1..];
    assert Follows(tail, y, p) ==> Follows(tr, y, p);
    if Follows(tail, y, p) { FollowsActs(tail, y, p); }
    assert forall z <- tail :: z in tr;
    if Before(who, tail, y, p) { BeforeWhy(who, tail, y, p); }
  }

  lemma {:induction false} FollowsActs(tr: seq<Act>, p: nat, q: nat)
    requires Follows(tr, p, q)
    ensures Acts(tr, p)
    decreases |tr|
  {
    assert tr == [tr[0]] + tr[1..];
    if tr[0].op != p { FollowsActs(tr[1..], p, q); }
  }

  /** Operation p, which has the first step and frees nothing, may stay behind operation y. */
  lemma {:induction false} MayStay(who: map<nat, nat>, tr: seq<Act>, y: nat)
    requires tr != [] && Exclusive(who, tr) && y != tr[0].op && Acts(tr[1..], tr[0].op) && !Frees(tr[0].step)
    requires !Before(who, tr[1..], tr[0].op, y)
    ensures !Before(who, tr, tr[0].op, y)
  {
    hide Frees, Allocates, FileOf;
    var p, tail := tr[0].op, tr[1..];
    assert Acts(tail, y) ==> Follows(tr, p, y);
    assert Follows(tail, y, p) ==> Follows(tr, y, p);
    if Acts(tail, y) && FileOf(who, p) == FileOf(who, y) { OneFirst(who, tail, p, y); }
  }

  lemma {:induction false} ListOf(ops: set<nat>) returns (order: seq<nat>)
    ensures SetOf(order) == ops && forall k, l :: 0 <= k < l < |order| ==> order[k] != order[l]
  {
    if ops == {} {
      order := [];
    } else {
      var o :| o in ops;
      var rest := ListOf(ops - {o});
      assert forall x <- rest :: x in SetOf(rest);
      order := [o] + rest;
      assert SetOf(order) == {o} + SetOf(rest);
    }
  }

  /** p moved to the front of the order. */
  lemma {:induction false} Lead(who: map<nat, nat>, tr: seq<Act>, order: seq<nat>, k: nat) returns (r: seq<nat>)
    requires tr != [] && Enumerates(order, who, tr[1..]) && k < |order| && order[k] == tr[0].op
    requires forall y: nat :: y != tr[0].op ==> !Before(who, tr, y, tr[0].op)
    ensures Enumerates(r, who, tr) && SetOf(r) == SetOf(order)
  {
    hide Depends, FileOf;
    var p, tail := tr[0].op, tr[1..];
    r := [p] + order[..k] + order[k + 1..];
    assert tr == [tr[0]] + tail;
    forall o ensures o in r <==> o in order {
      assert order == order[..k] + [p] + order[k + 1..];
    }
    forall x, y | 0 <= x < y < |r| ensures r[x] != r[y] && !Before(who, tr, r[y], r[x]) {
      var y' := if y <= k then y - 1 else y;
      assert r[y] == order[y'];
      if x > 0 {
        var x' := if x <= k then x - 1 else x;
        assert r[x] == order[x'] && order[x'] != order[y'] && !Before(who, tail, order[y'], order[x']);
      }
      assert r[y] != p;
    }
  }

  /**
   Under the locks there is such an order of the operations, if each of them is a
   write or a truncation.
   */
  lemma {:induction false} OrderExists(who: map<nat, nat>, tr: seq<Act>, ops: set<nat>) returns (order: seq<nat>)
    requires Exclusive(who, tr) && OneKind(tr) && ops <= who.Keys && forall a <- tr :: a.op in ops
    ensures Enumerates(order, who, tr) && SetOf(order) == ops
    decreases |tr|
  {
    hide Before, Frees, Allocates, FileOf;
    if tr == [] {
      order := ListOf(ops);
      NothingBefore(who, order);
    } else {
      Tails(who, tr);
      var p := tr[0].op;
      order := OrderExists(who, tr[1..], ops);
      assert tr[0] in tr && p in SetOf(order);
      var k :| 0 <= k < |order| && order[k] == p;
      if !Acts(tr[1..], p) || exists a <- tr :: a.op == p && Frees(a.step) {
        forall y: nat | y != p ensures !Before(who, tr, y, p) { MayLead(who, tr, y); }
        order := Lead(who, tr, order, k);
      } else {
        Stay(who, tr, order);
      }
    }
  }

  lemma {:induction false} NothingBefore(who: map<nat, nat>, order: seq<nat>)
    requires (forall k, l :: 0 <= k < l < |order| ==> order[k] != order[l]) && SetOf(order) <= who.Keys
    ensures Enumerates(order, who, [])
  {
    assert forall o <- order :: o in SetOf(order);
  }

  lemma {:induction false} Stay(who: map<nat, nat>, tr: seq<Act>, order: seq<nat>)
    requires tr != [] && Exclusive(who, tr) && Acts(tr[1..], tr[0].op) && !Frees(tr[0].step)
    requires Enumerates(order, who, tr[1..]) && tr[0].op in order
    ensures Enumerates(order, who, tr)
  {
    hide Depends, Frees, FileOf;
    var p, tail := tr[0].op, tr[1..];
    assert tr == [tr[0]] + tail;
    forall x, y | 0 <= x < y < |order| ensures !Before(who, tr, order[y], order[x]) {
      assert order[x] != order[y] && !Before(who, tail, order[y], order[x]);
      if order[y] == p { MayStay(who, tr, order[x]); }
    }
  }

  // ----- what reaches the log -----

  /** The log_writes of one step: its blocks, as they are after it. */
  function ActWrites(sb: Fs.Super, d: Fs.Disk, o: nat, bs: seq<nat>): (ws: seq<Write>)
    ensures |ws| == |bs| && forall k :: 0 <= k < |bs| ==> ws[k] == Write(o, bs[k], EncBlock(sb, d, bs[k]))
  {
    seq(|bs|, k requires 0 <= k < |bs| => Write(o, bs[k], EncBlock(sb, d, bs[k])))
  }

  /** The file system with the inodes sv that the buffers of the inode blocks have. */
  function Shown(d: Fs.Disk, sv: Inodes): Fs.Disk { d.(files := d.files.(inodes := sv)) }

  type Inodes = map<nat, Fs.Inode>

  /** iupdate copies its own inode to the buffer, and no other. */
  function SvAfter(sv: Inodes, d: Fs.Disk, i: nat, s: Step): Inodes {
    if s.Save? && i in d.files.inodes then sv[i := d.files.inodes[i]] else sv
  }

  /** The log_writes of the steps, with what the buffers hold at the time. */
  function TraceWrites(sb: Fs.Super, d: Fs.Disk, sv: Inodes, who: map<nat, nat>, tr: seq<Act>): seq<Write>
    decreases |tr|
  {
    if tr == [] then [] else
      var i, s := FileOf(who, tr[0].op), tr[0].step;
      var d1, sv1 := Do(sb, d, i, s), SvAfter(sv, d, i, s);
      ActWrites(sb, Shown(d1, sv1), tr[0].op, StepLog(sb, d.files, i, s)) + TraceWrites(sb, d1, sv1, who, tr[1..])
  }

  /** The inodes in the buffers after the steps. */
  function SvTrace(sb: Fs.Super, d: Fs.Disk, sv: Inodes, who: map<nat, nat>, tr: seq<Act>): Inodes
    decreases |tr|
  {
    if tr == [] then sv else
      var i, s := FileOf(who, tr[0].op), tr[0].step;
      SvTrace(sb, Do(sb, d, i, s), SvAfter(sv, d, i, s), who, tr[1..])
  }

  /** What iupdate passes to log_write is the block that FsImage.Iupdate makes of the buffer. */
  lemma {:induction false} SaveWrites(sb: Fs.Super, d: Fs.Disk, sv: Inodes, i: nat, o: nat)
    requires i in d.files.inodes
    ensures ActWrites(sb, Shown(Do(sb, d, i, Save), SvAfter(sv, d, i, Save)), o, StepLog(sb, d.files, i, Save)) ==
      [Write(o, Fs.IBLOCK(sb, i), EncBlock(sb, WithInode(Shown(d, sv), i, d.files.inodes[i]), Fs.IBLOCK(sb, i)))]
  {
    hide EncBlock, Fs.IBLOCK, Do;
    DoSave(sb, d, i);
  }

  lemma {:induction false} ActNames(sb: Fs.Super, d: Fs.Disk, o: nat, bs: seq<nat>, b: nat)
    ensures Names(ActWrites(sb, d, o, bs), b) <==> b in bs
    ensures forall w <- ActWrites(sb, d, o, bs) :: w.op == o && w.block in bs
  {
    hide EncBlock;
    var ws := ActWrites(sb, d, o, bs);
    if b in bs {
      var k :| 0 <= k < |bs| && bs[k] == b;
      assert ws[k].block == b;
    }
  }

  lemma {:induction false} ActFinal(sb: Fs.Super, d: Fs.Disk, o: nat, bs: seq<nat>, b: nat)
    requires b in bs
    ensures Final(ActWrites(sb, d, o, bs), b) == EncBlock(sb, d, b)
    decreases |bs|
  {
    hide EncBlock;
    var front := bs[..|bs| - 1];
    assert ActWrites(sb, d, o, bs)[..|bs| - 1] == ActWrites(sb, d, o, front);
    if bs[|bs| - 1] != b {
      assert bs == front + [bs[|bs| - 1]];
      ActFinal(sb, d, o, front, b);
    }
  }

  lemma {:induction false} FinalConcat(ws: seq<Write>, more: seq<Write>, b: nat)
    ensures Names(ws + more, b) <==> Names(ws, b) || Names(more, b)
    ensures Final(ws + more, b) == if Names(more, b) then Final(more, b) else Final(ws, b)
    decreases |more|
  {
    NamesConcat(ws, more, b);
    if more == [] {
      assert ws + more == ws;
    } else {
      var front, w := more[..|more| - 1], more[|more| - 1];
      FinalConcat(ws, front, b);
      assert (ws + more)[..|ws + more| - 1] == ws + front;
      assert more == front + [w];
      NamesConcat(front, [w], b);
      assert Names([w], b) <==> w.block == b;
      hide Names;
    }
  }

  lemma {:induction false} NamesConcat(ws: seq<Write>, more: seq<Write>, b: nat)
    ensures Names(ws + more, b) <==> Names(ws, b) || Names(more, b)
  {
    assert forall w :: w in ws + more <==> w in ws || w in more;
  }

  lemma {:induction false} IndsGrow(f: Fs.Files, i: nat, s: Step, b: nat)
    requires b in f.inds && !(s.FreeInd? && s.b == b)
    ensures b in IndsAfter(f, i, s)
  {
  }

  /** The step frees indirect block b or an entry of it. */
  predicate Gives(f: Fs.Files, i: nat, s: Step, b: nat) {
    (s.FreeVia? && b == Fs.Slot(f, i, Fs.NDIRECT)) || (s.FreeInd? && b == s.b)
  }

  /** A block that a step neither logs nor gives up has the same form in the buffers before and after. */
  lemma {:induction false} StepEnc(sb: Fs.Super, d: Fs.Disk, sv: Inodes, i: nat, s: Step, b: nat)
    requires Fs.Good(sb, d) && Can(sb, d, i, s) && b !in StepLog(sb, d.files, i, s) && !Gives(d.files, i, s, b)
    requires sv.Keys == d.files.inodes.Keys
    ensures EncBlock(sb, Shown(Do(sb, d, i, s), SvAfter(sv, d, i, s)), b) == EncBlock(sb, Shown(d, sv), b)
  {
    hide Fs.GoodBut, Do, InodesAfter, IndsAfter, FsCode.Rewired, FsCode.Rewritten, EncBlock, Fs.IBLOCK, FsCode.Block,
      Fs.Addr, Fs.Slot, Fs.BBLOCK, Fs.Own, Moves, Allocates;
    var d' := Do(sb, d, i, s);
    StepLeaves(sb, d, i, s, b);
    Quiet(d, d', b);
    if b in d.files.inds { IndsGrow(d.files, i, s, b); }
    DoFiles(sb, d, i, s);
    EncSame(sb, Shown(d, sv), Shown(d', SvAfter(sv, d, i, s)), i, b);
  }

  lemma {:induction false} DoFiles(sb: Fs.Super, d: Fs.Disk, i: nat, s: Step)
    ensures Do(sb, d, i, s).files == Fs.Files(IndsAfter(d.files, i, s), InodesAfter(d.files, i, s))
  {
    hide BlocksAfter, IndsAfter, InodesAfter, OwnAfter;
  }

  lemma {:induction false} Quiet(d: Fs.Disk, d': Fs.Disk, b: nat)
    requires Leaves(d, d', b)
    ensures FsCode.Block(d'.blocks, b) == FsCode.Block(d.blocks, b)
    ensures b in d'.files.inds ==> b in d.files.inds && d'.files.inds[b] == d.files.inds[b]
  {
    hide Fs.Own, FsCode.Block;
  }

  lemma {:induction false} InodesKept(f: Fs.Files, i: nat, s: Step)
    requires i in f.inodes
    ensures InodesAfter(f, i, s).Keys == f.inodes.Keys
    ensures forall j :: j in f.inodes && j != i ==> InodesAfter(f, i, s)[j] == f.inodes[j]
    ensures !ChangesInode(s) ==> InodesAfter(f, i, s) == f.inodes
  {
    SameInode(f, i);
  }

  lemma {:induction false} EncSame(sb: Fs.Super, d: Fs.Disk, d': Fs.Disk, i: nat, b: nat)
    requires FsCode.Block(d'.blocks, b) == FsCode.Block(d.blocks, b)
    requires b in d'.files.inds <==> b in d.files.inds
    requires b in d.files.inds ==> d'.files.inds[b] == d.files.inds[b]
    requires d'.files.inodes.Keys == d.files.inodes.Keys
    requires forall j :: j in d.files.inodes && j != i ==> d'.files.inodes[j] == d.files.inodes[j]
    requires b != Fs.IBLOCK(sb, i) || d'.files.inodes == d.files.inodes
    ensures EncBlock(sb, d', b) == EncBlock(sb, d, b)
  {
    forall k: nat | k < BWORDS ensures EncWord(sb, d', b, k) == EncWord(sb, d, b, k) {
      assert RawWord(d'.blocks, b, k) == RawWord(d.blocks, b, k) by { hide FromBytes; }
      if InodeBlock(sb, b) {
        InodeOfBlock(sb, b, k);
        hide RawWord, InodeWord, Fs.IBLOCK, InodeAt;
      }
    }
    hide EncWord;
  }

  /** A free block that is not logged stays free. */
  lemma {:induction false} FreeUnnamed(sb: Fs.Super, d: Fs.Disk, sv: Inodes, who: map<nat, nat>, tr: seq<Act>, b: nat)
    requires Fs.Good(sb, d) && CanTrace(sb, d, who, tr) && Fs.Own(d.own, b).Free?
    requires !Names(TraceWrites(sb, d, sv, who, tr), b)
    ensures Fs.Own(Trace(sb, d, who, tr).own, b).Free?
    decreases |tr|
  {
    hide Fs.GoodBut, Do, Can, EncBlock, Names, StepLog, Fs.Own;
    if tr != [] {
      var i, s := FileOf(who, tr[0].op), tr[0].step;
      FirstNames(sb, d, sv, who, tr, b);
      FreeStep(sb, d, i, s, b);
      DoGood(sb, d, i, s);
      FreeUnnamed(sb, Do(sb, d, i, s), SvAfter(sv, d, i, s), who, tr[1..], b);
    }
  }

  /** The first step of a trace, and the rest. */
  lemma {:induction false} FirstNames(sb: Fs.Super, d: Fs.Disk, sv: Inodes, who: map<nat, nat>, tr: seq<Act>, b: nat)
    requires tr != []
    ensures var i, s := FileOf(who, tr[0].op), tr[0].step;
      var d1, sv1 := Do(sb, d, i, s), SvAfter(sv, d, i, s);
      var rest := TraceWrites(sb, d1, sv1, who, tr[1..]);
      && (Names(TraceWrites(sb, d, sv, who, tr), b) <==> b in StepLog(sb, d.files, i, s) || Names(rest, b))
      && (Names(rest, b) ==> Final(TraceWrites(sb, d, sv, who, tr), b) == Final(rest, b))
      && (b in StepLog(sb, d.files, i, s) && !Names(rest, b) ==>
            Final(TraceWrites(sb, d, sv, who, tr), b) == EncBlock(sb, Shown(d1, sv1), b))
  {
    hide Do, EncBlock, Names, StepLog, Final;
    var i, s := FileOf(who, tr[0].op), tr[0].step;
    var d1, sv1, bs := Do(sb, d, i, s), SvAfter(sv, d, i, s), StepLog(sb, d.files, i, s);
    FinalConcat(ActWrites(sb, Shown(d1, sv1), tr[0].op, bs), TraceWrites(sb, d1, sv1, who, tr[1..]), b);
    ActNames(sb, Shown(d1, sv1), tr[0].op, bs, b);
    if b in bs { ActFinal(sb, Shown(d1, sv1), tr[0].op, bs, b); }
  }

  /** An indirect block that will be freed and is not logged is free in the end. */
  lemma {:induction false} IndUnnamed(sb: Fs.Super, d: Fs.Disk, sv: Inodes, who: map<nat, nat>, tr: seq<Act>, i: nat,
        b: nat)
    requires Fs.Good(sb, d) && CanTrace(sb, d, who, tr) && b != 0 && Fs.Slot(d.files, i, Fs.NDIRECT) == b
    requires exists a <- tr :: FileOf(who, a.op) == i && a.step.FreeInd?
    requires !Names(TraceWrites(sb, d, sv, who, tr), b)
    ensures Fs.Own(Trace(sb, d, who, tr).own, b).Free?
    decreases |tr|
  {
    hide Fs.GoodBut, Do, Can, EncBlock, Names, StepLog, Fs.Own, Fs.Slot, Fs.Addr;
    var j, s, tail := FileOf(who, tr[0].op), tr[0].step, tr[1..];
    assert tr == [tr[0]] + tail;
    FirstNames(sb, d, sv, who, tr, b);
    DoGood(sb, d, j, s);
    if j == i && s.FreeInd? {
      FreeIndStep(sb, d, i, s);
      FreeUnnamed(sb, Do(sb, d, j, s), SvAfter(sv, d, j, s), who, tail, b);
    } else {
      if j == i { SlotStays(sb, d, i, s); } else { OtherFile(sb, d, j, s, i); }
      IndUnnamed(sb, Do(sb, d, j, s), SvAfter(sv, d, j, s), who, tail, i, b);
    }
  }

  /** A step gives up indirect block b, which is then not logged: it is free in the end. */
  lemma {:induction false} GivenUp(sb: Fs.Super, d: Fs.Disk, sv: Inodes, who: map<nat, nat>, tr: seq<Act>, b: nat)
    requires Fs.Good(sb, d) && CanTrace(sb, d, who, tr) && Finished(tr) && !Names(TraceWrites(sb, d, sv, who, tr), b)
    requires tr != [] && Gives(d.files, FileOf(who, tr[0].op), tr[0].step, b)
    ensures Fs.Own(Trace(sb, d, who, tr).own, b).Free?
  {
    hide Fs.GoodBut, Do, EncBlock, Names, StepLog, Fs.Own, Fs.Slot, Fs.Addr, Can;
    var i, s, tail := FileOf(who, tr[0].op), tr[0].step, tr[1..];
    FirstNames(sb, d, sv, who, tr, b);
    DoGood(sb, d, i, s);
    if s.FreeInd? {
      FreeIndStep(sb, d, i, s);
      FreeUnnamed(sb, Do(sb, d, i, s), SvAfter(sv, d, i, s), who, tail, b);
    } else {
      ViaHasInd(sb, d, i, s);
      SlotStays(sb, d, i, s);
      var z :| z in StepsOf(tail, tr[0].op) && z.FreeInd?;
      assert Act(tr[0].op, z) in tail;
      IndUnnamed(sb, Do(sb, d, i, s), SvAfter(sv, d, i, s), who, tail, i, b);
    }
  }

  lemma {:induction false} SameKeys(sb: Fs.Super, d: Fs.Disk, sv: Inodes, i: nat, s: Step)
    requires Can(sb, d, i, s) && sv.Keys == d.files.inodes.Keys
    ensures SvAfter(sv, d, i, s).Keys == Do(sb, d, i, s).files.inodes.Keys == sv.Keys
  {
    assert i in d.files.inodes;
    InodesKept(d.files, i, s);
    DoFiles(sb, d, i, s);
    hide Can, Do, InodesAfter, IndsAfter;
  }

  /** A block that is not logged is free in the end, or has the same form in the buffers before and after. */
  lemma {:induction false} Unlogged(sb: Fs.Super, d: Fs.Disk, sv: Inodes, who: map<nat, nat>, tr: seq<Act>, b: nat)
    requires Fs.Good(sb, d) && CanTrace(sb, d, who, tr) && Finished(tr) && sv.Keys == d.files.inodes.Keys
    requires !Names(TraceWrites(sb, d, sv, who, tr), b)
    ensures Fs.Own(Trace(sb, d, who, tr).own, b).Free? ||
      EncBlock(sb, Shown(Trace(sb, d, who, tr), SvTrace(sb, d, sv, who, tr)), b) == EncBlock(sb, Shown(d, sv), b)
    decreases |tr|
  {
    hide Fs.GoodBut, Do, Can, EncBlock, Names, StepLog, Fs.Own, Gives, Due, SvAfter, Shown;
    if tr != [] {
      var i, s := FileOf(who, tr[0].op), tr[0].step;
      FirstNames(sb, d, sv, who, tr, b);
      if Gives(d.files, i, s, b) {
        GivenUp(sb, d, sv, who, tr, b);
      } else {
        StepEnc(sb, d, sv, i, s, b);
        DoGood(sb, d, i, s);
        SameKeys(sb, d, sv, i, s);
        Unlogged(sb, Do(sb, d, i, s), SvAfter(sv, d, i, s), who, tr[1..], b);
      }
    }
  }

  /** What is logged last of each block is what its buffer holds in the end, unless the block is free. */
  lemma {:induction false} ShownFinal(sb: Fs.Super, d: Fs.Disk, sv: Inodes, who: map<nat, nat>, tr: seq<Act>, b: nat)
    requires Fs.Good(sb, d) && CanTrace(sb, d, who, tr) && Finished(tr) && sv.Keys == d.files.inodes.Keys
    requires Names(TraceWrites(sb, d, sv, who, tr), b)
    ensures Fs.Own(Trace(sb, d, who, tr).own, b).Free? || Final(TraceWrites(sb, d, sv, who, tr), b) ==
      EncBlock(sb, Shown(Trace(sb, d, who, tr), SvTrace(sb, d, sv, who, tr)), b)
    decreases |tr|
  {
    hide Fs.GoodBut, Do, Can, EncBlock, StepLog, Final, Due, SvAfter, Shown, Fs.Own;
    if tr == [] {
      assert false;
    } else {
      hide Names;
      var i, s := FileOf(who, tr[0].op), tr[0].step;
      var d1, sv1, tail := Do(sb, d, i, s), SvAfter(sv, d, i, s), tr[1..];
      FirstNames(sb, d, sv, who, tr, b);
      DoGood(sb, d, i, s);
      SameKeys(sb, d, sv, i, s);
      if Names(TraceWrites(sb, d1, sv1, who, tail), b) {
        ShownFinal(sb, d1, sv1, who, tail, b);
      } else {
        Unlogged(sb, d1, sv1, who, tail, b);
      }
    }
  }

  /** Inodes that differ from those in the buffers are still to be stored. */
  ghost predicate ToSave(d: Fs.Disk, sv: Inodes, who: map<nat, nat>, tr: seq<Act>) {
    && sv.Keys == d.files.inodes.Keys
    && forall j :: j in sv && sv[j] != d.files.inodes[j] ==> SaveComes(who, tr, j)
  }

  ghost predicate SaveComes(who: map<nat, nat>, tr: seq<Act>, j: nat) {
    exists a <- tr :: FileOf(who, a.op) == j && a.step.Save?
  }

  lemma {:induction false} ToSaveStep(sb: Fs.Super, d: Fs.Disk, sv: Inodes, who: map<nat, nat>, tr: seq<Act>)
    requires tr != [] && CanTrace(sb, d, who, tr) && Finished(tr) && ToSave(d, sv, who, tr)
    ensures var i, s := FileOf(who, tr[0].op), tr[0].step;
      ToSave(Do(sb, d, i, s), SvAfter(sv, d, i, s), who, tr[1..])
  {
    hide Do, Can, InodesAfter, IndsAfter, ChangesInode, Finished;
    var i, s, tail := FileOf(who, tr[0].op), tr[0].step, tr[1..];
    var d1, sv1 := Do(sb, d, i, s), SvAfter(sv, d, i, s);
    assert i in d.files.inodes by { CanHas(sb, d, i, s); }
    SameKeys(sb, d, sv, i, s);
    InodesKept(d.files, i, s);
    DoFiles(sb, d, i, s);
    assert tr == [tr[0]] + tail;
    if ChangesInode(s) {
      FirstDue(tr);
      assert Act(tr[0].op, Save) in tail;
      assert SaveComes(who, tail, i);
    }
    forall j | j in sv1 && sv1[j] != d1.files.inodes[j] ensures SaveComes(who, tail, j) {
      if !(j == i && ChangesInode(s)) {
        assert SaveComes(who, tr, j);
        var a :| a in tr && FileOf(who, a.op) == j && a.step.Save?;
        assert a in tail;
      }
    }
  }

  lemma {:induction false} CanHas(sb: Fs.Super, d: Fs.Disk, i: nat, s: Step)
    requires Can(sb, d, i, s)
    ensures i in d.files.inodes
  {
  }

  lemma {:induction false} FirstDue(tr: seq<Act>)
    requires Finished(tr) && tr != []
    ensures ChangesInode(tr[0].step) ==> Act(tr[0].op, Save) in tr[1..]
  {
  }

  /** In the end the buffers have the inodes that memory has. */
  lemma {:induction false} AllStored(sb: Fs.Super, d: Fs.Disk, sv: Inodes, who: map<nat, nat>, tr: seq<Act>)
    requires CanTrace(sb, d, who, tr) && Finished(tr) && ToSave(d, sv, who, tr)
    ensures SvTrace(sb, d, sv, who, tr) == Trace(sb, d, who, tr).files.inodes
    decreases |tr|
  {
    hide Do, Can, Due, SvAfter;
    if tr == [] {
      assert forall j :: j in sv ==> sv[j] == d.files.inodes[j];
    } else {
      hide ToSave;
      ToSaveStep(sb, d, sv, who, tr);
      var i, s := FileOf(who, tr[0].op), tr[0].step;
      AllStored(sb, Do(sb, d, i, s), SvAfter(sv, d, i, s), who, tr[1..]);
    }
  }

  /** What is logged last of each block is what the block holds in the end, unless it is free. */
  lemma {:induction false} TraceFinal(sb: Fs.Super, d: Fs.Disk, who: map<nat, nat>, tr: seq<Act>, b: nat)
    requires Fs.Good(sb, d) && CanTrace(sb, d, who, tr) && Finished(tr)
    requires Names(TraceWrites(sb, d, d.files.inodes, who, tr), b)
    ensures var d' := Trace(sb, d, who, tr);
      Fs.Own(d'.own, b).Free? || Final(TraceWrites(sb, d, d.files.inodes, who, tr), b) == EncBlock(sb, d', b)
  {
    hide Fs.GoodBut, Trace, CanTrace, Finished, TraceWrites, SvTrace, EncBlock, Names, Final, Fs.Own;
    AllStored(sb, d, d.files.inodes, who, tr);
    ShownFinal(sb, d, d.files.inodes, who, tr, b);
  }

  /** Operation o logs block b at some point. */
  ghost predicate LogsBlock(ws: seq<Write>, o: nat, b: nat) { exists w <- ws :: w.op == o && w.block == b }

  lemma {:induction false} TraceNames(sb: Fs.Super, d: Fs.Disk, sv: Inodes, who: map<nat, nat>, tr: seq<Act>, o: nat,
        b: nat)
    ensures LogsBlock(TraceWrites(sb, d, sv, who, tr), o, b) <==> b in OpLog(sb, d, who, tr, o)
    decreases |tr|
  {
    hide Do, EncBlock, StepLog;
    if tr != [] {
      var a, tail := tr[0], tr[1..];
      var i := FileOf(who, a.op);
      var d1, sv1, bs := Do(sb, d, i, a.step), SvAfter(sv, d, i, a.step), StepLog(sb, d.files, i, a.step);
      var aw, tw := ActWrites(sb, Shown(d1, sv1), a.op, bs), TraceWrites(sb, d1, sv1, who, tail);
      TraceNames(sb, d1, sv1, who, tail, o, b);
      ActNames(sb, Shown(d1, sv1), a.op, bs, b);
      hide ActWrites, OpLog, TraceWrites;
      assert forall w :: w in aw + tw <==> w in aw || w in tw;
      assert LogsBlock(aw + tw, o, b) <==> (a.op == o && b in bs) || LogsBlock(tw, o, b);
    }
  }

  // ----- groups of overlapping operations -----

  /**
   Operations that overlap: what they found, the file of each, their steps as they
   happened, and some order of them.
   */
  datatype Overlap = Overlap(before: Fs.Disk, who: map<nat, nat>, tr: seq<Act>, order: seq<nat>)

  /** The log_writes of the operations, in order. The buffers of inode blocks start with the inodes as they are. */
  function Issues(sb: Fs.Super, x: Overlap): seq<Write> {
    TraceWrites(sb, x.before, x.before.files.inodes, x.who, x.tr)
  }

  /** The operations that commit with end_op of o are those of x, and their log_writes are what is pending. */
  ghost predicate Overlaps(sb: Fs.Super, s: State, v: View, o: nat, x: Overlap) {
    && Seen(v, x.before) && CanTrace(sb, x.before, x.who, x.tr) && Finished(x.tr)
    && x.order != [] && Enumerates(x.order, x.who, x.tr)
    && (forall p: nat :: p in x.order <==> p in s.waiting || p == o)
    && s.pending == Issues(sb, x)
  }

  ghost function GroupOf(sb: Fs.Super, x: Overlap): Group {
    Group(x.before, x.order, Serial(sb, x.before, x.who, x.tr, x.order))
  }

  /** What an operation of the group issued is its part of what is pending. */
  lemma {:induction false} IssuedNames(c: Config, s: State, k: nat, p: nat, b: nat)
    requires Inv(c, s) && k < |s.active| && s.outstanding == 1 && (p in s.waiting || p == s.active[k].id)
    ensures Names(Issued(s, p), b) <==> LogsBlock(s.pending, p, b)
  {
    hide DiskInv, PhaseInv, Of;
    assert |s.active| == 1 && Ids(s.active) == {s.active[k].id};
    assert p in s.issued;
    assert Of(s.pending, p) == s.issued[p];
    hide OpInv, CountInv;
    NamesOf(s.pending, p, b);
  }

  /** Overlapping operations are serialized. */
  lemma {:induction false} OverlapSerializes(c: Config, sb: Fs.Super, s: State, v: View, k: nat, x: Overlap)
    requires Inv(c, s) && k < |s.active| && s.outstanding == 1 && Overlaps(sb, s, v, s.active[k].id, x)
    requires Fs.Good(sb, x.before) && Fs.Settled(sb, x.before.own)
    ensures Serializes(sb, s, v, s.active[k].id, GroupOf(sb, x))
  {
    hide Inv, Fs.GoodBut, Fs.Settled, Seen, CanTrace, Finished, Enumerates, TraceWrites, Serial, Names, Issued, Final,
      EncBlock, FsCode.Chain, LogsBlock, OpLog, Trace, SetOf;
    var d, ts := x.before, Serial(sb, x.before, x.who, x.tr, x.order);
    SerialChain(sb, d, x.who, x.tr, x.order);
    forall l: nat, b: nat | l < |x.order| ensures Names(Issued(s, x.order[l]), b) <==> b in ts[l].logged {
      var p := x.order[l];
      assert p in x.order;
      IssuedNames(c, s, k, p, b);
      TraceNames(sb, d, d.files.inodes, x.who, x.tr, p, b);
      SerialLogs(sb, d, x.who, x.tr, x.order, l);
      InSetOf(OpLog(sb, d, x.who, x.tr, p), b);
    }
    forall b: nat | Names(s.pending, b) ensures Ends(sb, ts[|ts| - 1].disk, s.pending, b) {
      TraceFinal(sb, d, x.who, x.tr, b);
    }
  }

  lemma {:induction false} InSetOf(s: seq<nat>, b: nat)
    ensures b in SetOf(s) <==> b in s
  {
  }

  ghost function PlanOf(sb: Fs.Super, xs: map<nat, Overlap>): map<nat, Group> {
    map o | o in xs :: GroupOf(sb, xs[o])
  }

  /** A run in which the operations of every group that commits overlap under the inode locks. */
  ghost predicate Locked(c: Config, sb: Fs.Super, evs: seq<Event>, d: Fs.Disk, xs: map<nat, Overlap>)
    requires Legal(c, evs)
  {
    evs == [] || (
      var front, e := evs[..|evs| - 1], evs[|evs| - 1];
      && Locked(c, sb, front, d, xs)
      && LockedEnd(sb, Run(c, front), Track(c, front, d, PlanOf(sb, xs)), e, xs))
  }

  ghost predicate LockedEnd(sb: Fs.Super, s: State, v: View, e: Event, xs: map<nat, Overlap>) {
    e.End? && e.k < |s.active| && s.outstanding == 1 ==>
      var o := s.active[e.k].id; o in xs && Overlaps(sb, s, v, o, xs[o])
  }

  /** What a transaction finds is well-formed. */
  lemma {:induction false} SeenGood(c: Config, sb: Fs.Super, v: View, m: seq<Block>, d: Fs.Disk)
    requires Sane(c, sb, v, m) && Seen(v, d)
    ensures Fs.Good(sb, d) && Fs.Settled(sb, d.own)
  {
    hide Fs.Layout, Fs.BitmapExact, Fs.MapDown, Fs.MapUp, Fs.Own, Fs.Settled, Fits, Stored;
    assert Fs.Shape(sb, v.cache);
    forall b: nat | b < sb.size
      ensures |Bytes(d, b)| == Fs.BSIZE && (Fs.Own(v.cache.own, b).Meta? ==> Bytes(d, b) == Bytes(v.cache, b))
    {
      HasBytes(sb, v.cache, b);
      hide Fs.Shape, Bytes;
    }
    hide Fs.GoodBut, Bytes;
    BehindGood(sb, v.cache, d);
  }

  lemma {:induction false} LockedObeys(c: Config, sb: Fs.Super, s: State, v: View, m: seq<Block>, e: Event,
        xs: map<nat, Overlap>)
    requires Inv(c, s) && Sane(c, sb, v, m) && LockedEnd(sb, s, v, e, xs)
    ensures Obeys(sb, s, v, e, PlanOf(sb, xs))
  {
    hide Inv, Sane, Overlaps, Serializes, GroupOf, Fs.GoodBut, Fs.Settled;
    if e.End? && e.k < |s.active| && s.outstanding == 1 {
      var o := s.active[e.k].id;
      BeforeSeen(sb, s, v, o, xs[o]);
      SeenGood(c, sb, v, m, xs[o].before);
      OverlapSerializes(c, sb, s, v, e.k, xs[o]);
    }
  }

  lemma {:induction false} LockedConforms(c: Config, sb: Fs.Super, evs: seq<Event>, d: Fs.Disk, xs: map<nat, Overlap>)
    requires GoodConfig(c) && Legal(c, evs) && Locked(c, sb, evs, d, xs) && Sane(c, sb, View(d, d), c.init)
    ensures Conforms(c, sb, evs, d, PlanOf(sb, xs))
    decreases |evs|
  {
    hide Inv, Next, Enabled, Sane, LockedEnd, Obeys, PlanOf, Track, Pending, GoodConfig;
    if evs != [] {
      var front, e := evs[..|evs| - 1], evs[|evs| - 1];
      LockedConforms(c, sb, front, d, xs);
      Tracked(c, sb, front, d, PlanOf(sb, xs));
      RunInv(c, front);
      var s, v := Run(c, front), Track(c, front, d, PlanOf(sb, xs));
      LockedObeys(c, sb, s, v, Apply(c.init, s.durable), e, xs);
    }
  }

  lemma {:induction false} BeforeSeen(sb: Fs.Super, s: State, v: View, o: nat, x: Overlap)
    requires Overlaps(sb, s, v, o, x)
    ensures Seen(v, x.before)
  {
  }

  /**
   Crash safety under the locks. Operations may overlap step by step in any way, save
   that those on the same file do not; after a crash at any step recovery finds a
   well-formed file system.
   */
  lemma {:induction false} OverlapSurvives(c: Config, sb: Fs.Super, evs: seq<Event>, d: Fs.Disk, xs: map<nat, Overlap>)
    requires GoodConfig(c) && Legal(c, evs) && Locked(c, sb, evs, d, xs)
    requires Fs.Good(sb, d) && Fs.Settled(sb, d.own) && Fits(c, sb, d) && Stored(c, sb, d, c.init)
    ensures var e := Track(c, evs, d, PlanOf(sb, xs)).durable;
      Fs.Good(sb, e) && Fs.Settled(sb, e.own) && Fits(c, sb, e) && Stored(c, sb, e, Recover(c, Run(c, evs).disk))
  {
    hide Legal, Run, Track, Conforms, Locked, Recover, Fs.GoodBut, Fs.Settled, Fits, Stored, PlanOf, Sane;
    SaneStart(c, sb, d);
    LockedConforms(c, sb, evs, d, xs);
    FileSystemSurvives(c, sb, evs, d, PlanOf(sb, xs));
  }

  // ----- overlapping operations can run -----

  /** The blocks of ws, each once, in the order in which they were first logged. */
  function Fresh(ws: seq<Write>): seq<nat> {
    if ws == [] then [] else
      var f, b := Fresh(ws[..|ws| - 1]), ws[|ws| - 1].block;
      if b in f then f else f + [b]
  }

  /** The operations ops have begun and logged ws; the first n have ended. */
  ghost predicate Open(s: State, ops: seq<nat>, ws: seq<Write>, n: nat) {
    && s.phase.Quiet? && !s.committing && n <= |ops| && s.outstanding == |s.active| == |ops| - n
    && (forall k: nat :: k < |s.active| ==> s.active[k].id == ops[n + k])
    && s.pending == ws && s.lh == Fresh(ws) && s.waiting == SetOf(ops[..n]) && s.issued.Keys == SetOf(ops)
  }

  /** A run in which nothing has committed yet. */
  ghost predicate Reached(c: Config, sb: Fs.Super, evs: seq<Event>, d: Fs.Disk, xs: map<nat, Overlap>) {
    Legal(c, evs) && Locked(c, sb, evs, d, xs) && Track(c, evs, d, PlanOf(sb, xs)) == View(d, d)
  }

  lemma {:induction false} LockedNext(c: Config, sb: Fs.Super, evs: seq<Event>, e: Event, d: Fs.Disk,
        xs: map<nat, Overlap>)
    requires Reached(c, sb, evs, d, xs) && Enabled(c, Run(c, evs), e)
    requires LockedEnd(sb, Run(c, evs), View(d, d), e, xs)
    ensures Legal(c, evs + [e]) && Run(c, evs + [e]) == Next(c, Run(c, evs), e) && Locked(c, sb, evs + [e], d, xs)
    ensures !Commits(Run(c, evs), e) && !e.Crash? ==> Reached(c, sb, evs + [e], d, xs)
  {
    hide Enabled, Next, LockedEnd, PlanOf, Commits, Commit, AsOp;
    assert (evs + [e])[..|evs + [e]| - 1] == evs;
  }

  lemma {:induction false} Booted(c: Config, sb: Fs.Super, d: Fs.Disk, xs: map<nat, Overlap>) returns (evs: seq<Event>)
    requires GoodConfig(c)
    ensures Legal(c, evs) && Reached(c, sb, evs, d, xs) && Open(Run(c, evs), [], [], 0)
  {
    hide Overlaps, PlanOf, Locked, Track;
    assert Reached(c, sb, [], d, xs) by { NotBegun(c, sb, d, xs); }
    hide Reached;
    assert Head(At(c.init, c.start)) == [];
    var e := Advance;
    LockedNext(c, sb, [], e, d, xs);
    LockedNext(c, sb, [] + [e], e, d, xs);
    LockedNext(c, sb, [] + [e] + [e], e, d, xs);
    evs := [] + [e] + [e] + [e];
  }

  lemma {:induction false} NotBegun(c: Config, sb: Fs.Super, d: Fs.Disk, xs: map<nat, Overlap>)
    ensures Reached(c, sb, [], d, xs) && Run(c, []) == Init(c)
  {
  }

  lemma {:induction false} Begun(c: Config, sb: Fs.Super, d: Fs.Disk, xs: map<nat, Overlap>, ops: seq<nat>)
    returns (evs: seq<Event>)
    requires GoodConfig(c) && |ops| * MAXOPBLOCKS <= LOGSIZE && forall k, l :: 0 <= k < l < |ops| ==> ops[k] != ops[l]
    ensures Legal(c, evs) && Reached(c, sb, evs, d, xs) && Open(Run(c, evs), ops, [], 0)
    decreases |ops|
  {
    hide Reached, Run;
    if ops == [] {
      evs := Booted(c, sb, d, xs);
    } else {
      var front, o := ops[..|ops| - 1], ops[|ops| - 1];
      evs := Begun(c, sb, d, xs, front);
      assert o !in front;
      LockedNext(c, sb, evs, Begin(o), d, xs);
      assert SetOf(ops) == SetOf(front) + {o} by { assert ops == front + [o]; }
      evs := evs + [Begin(o)];
    }
  }

  lemma {:induction false} LogOne(c: Config, s: State, ops: seq<nat>, ws: seq<Write>, w: Write) returns (e: Event)
    requires Open(s, ops, ws, 0) && w.op in ops && Home(c, w.block) && |w.data| == BWORDS
    requires |Fresh(ws)| < LOGSIZE && |Fresh(ws)| < c.size - 1
    ensures e.LogWrite? && Enabled(c, s, e) && Open(Next(c, s, e), ops, ws + [w], 0)
  {
    var k :| 0 <= k < |ops| && ops[k] == w.op;
    e := LogWrite(k, w.block, w.data);
    assert s.active[k].id == w.op;
    assert (ws + [w])[..|ws + [w]| - 1] == ws;
    assert w.op in SetOf(ops);
  }

  lemma {:induction false} Logged(c: Config, sb: Fs.Super, d: Fs.Disk, xs: map<nat, Overlap>, ops: seq<nat>,
        ws: seq<Write>) returns (evs: seq<Event>)
    requires GoodConfig(c) && |ops| * MAXOPBLOCKS <= LOGSIZE && forall k, l :: 0 <= k < l < |ops| ==> ops[k] != ops[l]
    requires forall w <- ws :: w.op in ops && Home(c, w.block) && |w.data| == BWORDS
    requires |Fresh(ws)| < LOGSIZE && |Fresh(ws)| < c.size - 1
    ensures Legal(c, evs) && Reached(c, sb, evs, d, xs) && Open(Run(c, evs), ops, ws, 0)
    decreases |ws|
  {
    hide Reached, Open, Run, Enabled, Next, GoodConfig, Home;
    if ws == [] {
      evs := Begun(c, sb, d, xs, ops);
    } else {
      var front, w := ws[..|ws| - 1], ws[|ws| - 1];
      assert ws == front + [w];
      evs := Logged(c, sb, d, xs, ops, front);
      var e := LogOne(c, Run(c, evs), ops, front, w);
      LockedNext(c, sb, evs, e, d, xs);
      evs := evs + [e];
    }
  }

  lemma {:induction false} EndOne(c: Config, s: State, ops: seq<nat>, ws: seq<Write>, n: nat)
    requires Open(s, ops, ws, n) && n + 1 < |ops|
    ensures Enabled(c, s, End(0)) && s.outstanding > 1 && Open(Next(c, s, End(0)), ops, ws, n + 1)
  {
    assert ops[..n + 1] == ops[..n] + [ops[n]];
    assert SetOf(ops[..n + 1]) == SetOf(ops[..n]) + {ops[n]};
    assert s.active[0].id == ops[n + 0];
    var s' := Next(c, s, End(0));
    forall k: nat | k < |s'.active| ensures s'.active[k].id == ops[n + 1 + k] {
      assert s'.active[k] == s.active[k + 1] && s.active[k + 1].id == ops[n + (k + 1)];
    }
  }

  lemma {:induction false} Ended(c: Config, sb: Fs.Super, d: Fs.Disk, xs: map<nat, Overlap>, ops: seq<nat>,
        ws: seq<Write>, n: nat) returns (evs: seq<Event>)
    requires GoodConfig(c) && |ops| * MAXOPBLOCKS <= LOGSIZE && forall k, l :: 0 <= k < l < |ops| ==> ops[k] != ops[l]
    requires forall w <- ws :: w.op in ops && Home(c, w.block) && |w.data| == BWORDS
    requires |Fresh(ws)| < LOGSIZE && |Fresh(ws)| < c.size - 1 && n < |ops|
    ensures Legal(c, evs) && Reached(c, sb, evs, d, xs) && Open(Run(c, evs), ops, ws, n)
    decreases n
  {
    hide Reached, Open, Run, Enabled, Next, GoodConfig, Home, Fresh;
    if n == 0 {
      evs := Logged(c, sb, d, xs, ops, ws);
    } else {
      evs := Ended(c, sb, d, xs, ops, ws, n - 1);
      EndOne(c, Run(c, evs), ops, ws, n - 1);
      LockedNext(c, sb, evs, End(0), d, xs);
      evs := evs + [End(0)];
    }
  }

  lemma {:induction false} TraceOps(sb: Fs.Super, d: Fs.Disk, sv: Inodes, who: map<nat, nat>, tr: seq<Act>)
    ensures forall w <- TraceWrites(sb, d, sv, who, tr) :: |w.data| == BWORDS && exists a <- tr :: a.op == w.op
    decreases |tr|
  {
    hide Do, StepLog, EncWord, SvAfter;
    if tr != [] {
      var i, s := FileOf(who, tr[0].op), tr[0].step;
      TraceOps(sb, Do(sb, d, i, s), SvAfter(sv, d, i, s), who, tr[1..]);
      assert tr == [tr[0]] + tr[1..];
    }
  }

  /** No step logs a block of the log. */
  lemma {:induction false} StepHome(c: Config, sb: Fs.Super, d: Fs.Disk, i: nat, s: Step, b: nat)
    requires Fs.Good(sb, d) && Fits(c, sb, d) && Can(sb, d, i, s) && b in StepLog(sb, d.files, i, s)
    ensures Home(c, b)
  {
    hide Fs.GoodBut, Fs.Addr, Fs.Slot, Fs.Own, Fs.BBLOCK, Fs.IBLOCK, Home, Fits;
    FsSteps.Places(sb, d, i, s);
    InodeHome(c, sb, d, i);
    if s.Lay? { PlainHome(c, sb, d, Fs.Addr(d.files, i, s.bn)); }
    if s.NewVia? {
      OwnedSmall(sb, d, Fs.Slot(d.files, i, Fs.NDIRECT));
      PlainHome(c, sb, d, Fs.Slot(d.files, i, Fs.NDIRECT));
    }
    if Moves(s) {
      PlainHome(c, sb, d, s.b);
      BitmapHome(c, sb, d, s.b);
    }
  }

  lemma {:induction false} OwnedSmall(sb: Fs.Super, d: Fs.Disk, b: nat)
    requires Fs.Good(sb, d) && !Fs.Own(d.own, b).NoBlock?
    ensures b < sb.size
  {
    hide Fs.MapDown, Fs.MapUp, Fs.BitmapExact, Fs.Layout;
  }

  lemma {:induction false} PlainHome(c: Config, sb: Fs.Super, d: Fs.Disk, b: nat)
    requires Fits(c, sb, d) && b < sb.size && !Fs.Own(d.own, b).Meta?
    ensures Home(c, b)
  {
    hide Fs.Own, Fs.IBLOCK;
  }

  lemma {:induction false} BitmapHome(c: Config, sb: Fs.Super, d: Fs.Disk, b: nat)
    requires Fs.Good(sb, d) && Fits(c, sb, d) && b < sb.size
    ensures Home(c, Fs.BBLOCK(sb, b))
  {
    hide Fs.MapDown, Fs.MapUp, Fs.BitmapExact;
    assert Fs.Own(d.own, Fs.BBLOCK(sb, b)).Meta?;
  }

  lemma {:induction false} InodeHome(c: Config, sb: Fs.Super, d: Fs.Disk, i: nat)
    requires Fs.Good(sb, d) && Fits(c, sb, d) && i in d.files.inodes
    ensures Home(c, Fs.IBLOCK(sb, i))
  {
    hide Fs.MapDown, Fs.MapUp, Fs.BitmapExact;
    assert Fs.Own(d.own, Fs.IBLOCK(sb, i)).Meta?;
  }

  lemma {:induction false} StepFits(c: Config, sb: Fs.Super, d: Fs.Disk, i: nat, s: Step)
    requires Fs.Good(sb, d) && Fits(c, sb, d) && Can(sb, d, i, s)
    ensures Fs.Good(sb, Do(sb, d, i, s)) && Fits(c, sb, Do(sb, d, i, s))
  {
    DoGood(sb, d, i, s);
    CanHas(sb, d, i, s);
    DoFiles(sb, d, i, s);
    InodesKept(d.files, i, s);
    HandedSettled(sb, d.own, Do(sb, d, i, s).own, i);
    hide Fs.GoodBut, Do, Can, InodesAfter, IndsAfter, Fs.Own, Fs.IBLOCK, Handed, Fs.Settled;
  }

  lemma {:induction false} TraceHome(c: Config, sb: Fs.Super, d: Fs.Disk, sv: Inodes, who: map<nat, nat>, tr: seq<Act>)
    requires Fs.Good(sb, d) && Fits(c, sb, d) && CanTrace(sb, d, who, tr)
    ensures forall w <- TraceWrites(sb, d, sv, who, tr) :: Home(c, w.block)
    decreases |tr|
  {
    hide Fs.GoodBut, Fits, Do, Can, StepLog, EncBlock, Home, SvAfter;
    if tr != [] {
      var i, s := FileOf(who, tr[0].op), tr[0].step;
      var d1, sv1, bs := Do(sb, d, i, s), SvAfter(sv, d, i, s), StepLog(sb, d.files, i, s);
      StepFits(c, sb, d, i, s);
      TraceHome(c, sb, d1, sv1, who, tr[1..]);
      forall b | b in bs ensures Home(c, b) { StepHome(c, sb, d, i, s, b); }
      ActNames(sb, Shown(d1, sv1), tr[0].op, bs, 0);
    }
  }

  /** All operations but the last have ended, and the last is about to. */
  lemma {:induction false} LastEnds(c: Config, sb: Fs.Super, s: State, x: Overlap)
    requires CanTrace(sb, x.before, x.who, x.tr) && Finished(x.tr) && Enumerates(x.order, x.who, x.tr) && x.order != []
    requires Open(s, x.order, Issues(sb, x), |x.order| - 1)
    ensures Enabled(c, s, End(0)) && |s.active| == 1 && s.active[0].id == x.order[|x.order| - 1] && s.outstanding == 1
    ensures Overlaps(sb, s, View(x.before, x.before), s.active[0].id, x)
  {
    hide CanTrace, Finished, Enumerates, TraceWrites, Fresh, Bytes;
    var n := |x.order| - 1;
    assert s.active[0].id == x.order[n + 0];
    assert x.order == x.order[..n] + [x.order[n]];
  }

  /**
   The steps of operations that overlap in any way have a run: as many operations as begin_op admits at once, with
   room in the log for the blocks that they log together.
   */
  lemma {:induction false} OverlapRuns(c: Config, sb: Fs.Super, x: Overlap) returns (evs: seq<Event>)
    requires GoodConfig(c) && Fs.Good(sb, x.before) && Fits(c, sb, x.before)
    requires CanTrace(sb, x.before, x.who, x.tr) && Finished(x.tr)
    requires x.order != [] && Enumerates(x.order, x.who, x.tr) && |x.order| * MAXOPBLOCKS <= LOGSIZE
    requires var n := |Fresh(Issues(sb, x))|; n < LOGSIZE && n < c.size - 1
    ensures var o := x.order[|x.order| - 1];
      && Legal(c, evs) && Locked(c, sb, evs, x.before, map[o := x])
      && Run(c, evs).pending == Issues(sb, x)
      && Run(c, evs).active == [] && SetOf(x.order) <= Run(c, evs).waiting + Run(c, evs).saved
  {
    hide CanTrace, Finished, TraceWrites, Fresh, Home, GoodConfig, Run, Legal,
      Locked, Reached, Enabled, Open, Overlaps, Fits,
      Fs.GoodBut, Next;
    var d, ops, ws := x.before, x.order, Issues(sb, x);
    var n := |ops| - 1;
    var xs := map[ops[n] := x];
    OpsNamed(sb, x);
    TraceHome(c, sb, d, d.files.inodes, x.who, x.tr);
    evs := Ended(c, sb, d, xs, ops, ws, n);
    hide Enumerates;
    var s := Run(c, evs);
    LastEnds(c, sb, s, x);
    LockedNext(c, sb, evs, End(0), d, xs);
    AllEnded(c, s, ops, ws);
    evs := evs + [End(0)];
  }

  lemma {:induction false} OpsNamed(sb: Fs.Super, x: Overlap)
    requires Enumerates(x.order, x.who, x.tr)
    ensures forall w <- Issues(sb, x) :: w.op in x.order && |w.data| == BWORDS
    ensures forall k, l :: 0 <= k < l < |x.order| ==> x.order[k] != x.order[l]
  {
    hide TraceWrites;
    TraceOps(sb, x.before, x.before.files.inodes, x.who, x.tr);
  }

  lemma {:induction false} AllEnded(c: Config, s: State, ops: seq<nat>, ws: seq<Write>)
    requires ops != [] && Open(s, ops, ws, |ops| - 1) && Enabled(c, s, End(0))
    ensures var s' := Next(c, s, End(0));
      s'.pending == ws && s'.active == [] && SetOf(ops) <= s'.waiting + s'.saved
  {
    var n := |ops| - 1;
    assert s.active[0].id == ops[n + 0];
    assert ops == ops[..n] + [ops[n]];
  }
}
