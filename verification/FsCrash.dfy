/**
 The file system on the log: transactions of kernel/fs.c run as operations of
 kernel/log.c and the machine may crash between any two steps. Operations may
 overlap; those that commit together must amount to their transactions one after
 the other. Recovery always finds a well-formed file system on the disk: the one
 after the last group that committed.
 */
module FsCrash {
  import Arith
  import opened Log
  import Fs
  import opened FsImage
  import FsCode
  import LogSnapshot

  function Bytes(d: Fs.Disk, b: nat): seq<bv8> { FsCode.Block(d.blocks, b) }

  // ----- the file system in memory and on disk -----

  /** The file system as the buffers have it, and as the disk does. */
  datatype View = View(cache: Fs.Disk, durable: Fs.Disk)

  /** e is d but for the bytes of blocks that are not metadata. */
  ghost predicate Behind(sb: Fs.Super, d: Fs.Disk, e: Fs.Disk) {
    && e.files == d.files && e.own == d.own
    && (forall b: nat :: b < sb.size ==>
          |Bytes(e, b)| == Fs.BSIZE && (Fs.Own(d.own, b).Meta? ==> Bytes(e, b) == Bytes(d, b)))
  }

  /**
   d is what a transaction may find: each block as a buffer has it or, if the buffer was
   recycled, as the disk does.
   */
  ghost predicate Seen(v: View, d: Fs.Disk) {
    && d.files == v.cache.files && d.own == v.cache.own
    && (forall b: nat :: Bytes(d, b) == Bytes(v.cache, b) || Bytes(d, b) == Bytes(v.durable, b))
  }

  /** What the disk holds once a transaction that left d in memory and logged l has committed. */
  function Kept(e: Fs.Disk, d: Fs.Disk, l: set<nat>): Fs.Disk {
    Fs.Disk(map b | b in e.blocks :: if b in l && b in d.blocks then d.blocks[b] else e.blocks[b], d.files, d.own)
  }

  /** A transaction: what it found and what it did. */
  datatype Op = Op(before: Fs.Disk, txn: FsCode.Txn)

  ghost predicate Starts(sb: Fs.Super, v: View, op: Op) {
    Seen(v, op.before) && FsCode.Transacts(sb, op.before, op.txn.disk, op.txn.logged, op.txn.strays)
  }

  function Commit(v: View, op: Op): View {
    View(op.txn.disk, Kept(v.durable, op.txn.disk, op.txn.logged))
  }

  ghost predicate Sane(c: Config, sb: Fs.Super, v: View, m: seq<Block>) {
    && Fs.Good(sb, v.cache) && Fs.Settled(sb, v.cache.own) && Behind(sb, v.cache, v.durable)
    && Fits(c, sb, v.durable) && Stored(c, sb, v.durable, m)
  }

  lemma {:induction false} BehindGood(sb: Fs.Super, d: Fs.Disk, e: Fs.Disk)
    requires Fs.Good(sb, d) && Behind(sb, d, e)
    ensures Fs.Good(sb, e)
  {
    hide Fs.MapDown, Fs.MapUp, Fs.Own;
    assert Fs.MapDown(e, 0, 0) && Fs.MapUp(e) by { hide Fs.Shape, Fs.Layout, Fs.BitmapExact; MapSame(d, e); }
    BehindBits(sb, d, e);
    hide Fs.BitmapExact;
    forall b: nat | b < sb.size ensures b in e.blocks && |e.blocks[b]| == Fs.BSIZE {
      assert |Bytes(e, b)| == Fs.BSIZE;
    }
  }

  lemma {:induction false} MapSame(d: Fs.Disk, e: Fs.Disk)
    requires Fs.MapDown(d, 0, 0) && Fs.MapUp(d) && e.files == d.files && e.own == d.own
    ensures Fs.MapDown(e, 0, 0) && Fs.MapUp(e)
  {
    hide Fs.Own, Fs.Addr, Fs.Slot;
  }

  lemma {:induction false} BehindBits(sb: Fs.Super, d: Fs.Disk, e: Fs.Disk)
    requires Fs.Shape(sb, d) && Fs.Layout(sb, d) && Fs.BitmapExact(sb, d.blocks, d.own) && Behind(sb, d, e)
    ensures Fs.BitmapExact(sb, e.blocks, e.own)
  {
    hide Fs.BBLOCK, Fs.Test, Fs.Cell;
    forall b: nat | b < sb.size ensures Fs.BitAt(e.blocks, sb, b) == !Fs.Own(e.own, b).Free? {
      var q := Fs.BBLOCK(sb, b);
      assert Fs.BitAt(d.blocks, sb, b) == !Fs.Own(d.own, b).Free?;
      assert Fs.Own(d.own, q).Meta? && q in d.own && q < sb.size;
      assert Bytes(e, q) == Bytes(d, q) && q in e.blocks && q in d.blocks;
    }
  }

  lemma {:induction false} SeenBehind(sb: Fs.Super, v: View, d: Fs.Disk)
    requires Behind(sb, v.cache, v.durable) && Seen(v, d)
    ensures Behind(sb, d, v.durable)
  {
    hide Fs.Own, Bytes;
  }

  lemma {:induction false} KeptBytes(e: Fs.Disk, d: Fs.Disk, l: set<nat>, b: nat)
    requires b in e.blocks && b in d.blocks
    ensures Bytes(Kept(e, d, l), b) == if b in l then Bytes(d, b) else Bytes(e, b)
  {
  }

  lemma {:induction false} HasBytes(sb: Fs.Super, d: Fs.Disk, b: nat)
    requires Fs.Shape(sb, d) && b < sb.size
    ensures b in d.blocks && |Bytes(d, b)| == Fs.BSIZE
  {
  }

  lemma {:induction false} KeptBehind(sb: Fs.Super, d: Fs.Disk, d': Fs.Disk, l: set<nat>, x: set<nat>, e: Fs.Disk)
    requires FsCode.Transacts(sb, d, d', l, x) && Behind(sb, d, e)
    ensures Behind(sb, d', Kept(e, d', l))
  {
    hide Fs.Own, Fs.Layout, Fs.BitmapExact, Fs.MapDown, Fs.MapUp;
    var e' := Kept(e, d', l);
    forall b: nat | b < sb.size
      ensures |Bytes(e', b)| == Fs.BSIZE && (Fs.Own(d'.own, b).Meta? ==> Bytes(e', b) == Bytes(d', b))
    {
      HasBytes(sb, d', b);
      assert |Bytes(e, b)| == Fs.BSIZE;
      KeptBytes(e, d', l, b);
      hide Fs.Shape, Kept;
      assert FsCode.Rewritten(d, d', b) ==> b in l || b in x;
    }
  }

  lemma {:induction false} KeptFits(c: Config, sb: Fs.Super, d: Fs.Disk, d': Fs.Disk, l: set<nat>, x: set<nat>,
        e: Fs.Disk)
    requires FsCode.Transacts(sb, d, d', l, x) && Behind(sb, d, e) && Fits(c, sb, e)
    ensures Fits(c, sb, Kept(e, d', l))
  {
    hide Fs.Own, Fs.GoodBut, FsCode.Logs, Fs.IBLOCK;
  }

  /** Blocks that the transaction did not log hold what they held, and that is what they must hold. */
  lemma {:induction false} Untouched(c: Config, sb: Fs.Super, d: Fs.Disk, d': Fs.Disk, l: set<nat>, x: set<nat>,
        e: Fs.Disk, b: nat)
    requires FsCode.Transacts(sb, d, d', l, x) && Behind(sb, d, e) && b < sb.size && b !in l && !Fs.Own(d'.own, b).Free?
    ensures !Fs.Own(e.own, b).Free? && EncBlock(sb, Kept(e, d', l), b) == EncBlock(sb, e, b)
  {
    var e' := Kept(e, d', l);
    hide Fs.Own, Fs.Layout, Fs.BitmapExact, Fs.MapDown, Fs.MapUp;
    HasBytes(sb, d', b);
    assert |Bytes(e, b)| == Fs.BSIZE;
    KeptBytes(e, d', l, b);
    hide Fs.Shape, Kept;
    assert !FsCode.Rewired(d, d', b);
    assert b in d'.files.inds <==> b in d.files.inds;
    assert b in d.files.inds ==> d'.files.inds[b] == d.files.inds[b];
    forall k: nat | k < BWORDS ensures EncWord(sb, e', b, k) == EncWord(sb, e, b, k) {
      assert RawWord(e'.blocks, b, k) == RawWord(e.blocks, b, k) by { hide FromBytes; }
      if InodeBlock(sb, b) {
        InodeOfBlock(sb, b, k);
        hide RawWord, InodeWord, Fs.IBLOCK, InodeAt;
      }
    }
    hide EncWord;
  }

  lemma {:induction false} InodeOfBlock(sb: Fs.Super, b: nat, k: nat)
    requires InodeBlock(sb, b) && k < BWORDS
    ensures Fs.IBLOCK(sb, InodeAt(sb, b, k)) == b
  {
    Arith.Quotient(InodeAt(sb, b, k), b - sb.inodestart, k / DWORDS, Fs.IPB);
  }

  lemma {:induction false} SameEnc(sb: Fs.Super, e: Fs.Disk, d: Fs.Disk, l: set<nat>, b: nat)
    requires b in e.blocks && b in d.blocks && b in l
    ensures EncBlock(sb, Kept(e, d, l), b) == EncBlock(sb, d, b)
  {
    KeptBytes(e, d, l, b);
    forall k: nat | k < BWORDS ensures EncWord(sb, Kept(e, d, l), b, k) == EncWord(sb, d, b, k) {
      hide FromBytes, InodeWord, InodeAt;
    }
    hide EncWord, Kept;
  }

  // ----- what an operation passes to log_write -----

  ghost predicate Names(ws: seq<Write>, b: nat) { exists w <- ws :: w.block == b }

  /** The contents with which block b was logged last. */
  function Final(ws: seq<Write>, b: nat): Block {
    if ws == [] then [] else
      var w := ws[|ws| - 1];
      if w.block == b then w.data else Final(ws[..|ws| - 1], b)
  }

  /**
   The log_writes ws are those of transaction t: its blocks, each that is in use in the
   end with its final contents.
   */
  ghost predicate Writes(sb: Fs.Super, ws: seq<Write>, t: FsCode.Txn) {
    && (forall b: nat :: Names(ws, b) <==> b in t.logged)
    && (forall b :: b in t.logged && !Fs.Own(t.disk.own, b).Free? ==> Final(ws, b) == EncBlock(sb, t.disk, b))
  }

  lemma {:induction false} FinalApply(d: seq<Block>, ws: seq<Write>, b: nat)
    ensures At(Apply(d, ws), b) == if Names(ws, b) && b < |d| then Final(ws, b) else At(d, b)
  {
    if ws != [] {
      var front, w := ws[..|ws| - 1], ws[|ws| - 1];
      FinalApply(d, front, b);
      assert ws == front + [w];
      assert Names(ws, b) <==> Names(front, b) || w.block == b;
    }
  }

  lemma {:induction false} ApplyConcat(d: seq<Block>, ws: seq<Write>, more: seq<Write>)
    ensures Apply(d, ws + more) == Apply(Apply(d, ws), more)
  {
    if more == [] {
      assert ws + more == ws;
    } else {
      var front, w := more[..|more| - 1], more[|more| - 1];
      ApplyConcat(d, ws, front);
      ApplyLast(d, ws + front, w);
      assert ws + more == ws + front + [w];
    }
  }

  /** A transaction that commits leads from a sane state to a sane state. */
  lemma {:induction false} CommitSane(c: Config, sb: Fs.Super, v: View, op: Op, m: seq<Block>, ws: seq<Write>)
    requires Sane(c, sb, v, m) && Starts(sb, v, op) && Writes(sb, ws, op.txn) && |m| == |c.init|
    ensures Sane(c, sb, Commit(v, op), Apply(m, ws))
  {
    var d, d', l, x := op.before, op.txn.disk, op.txn.logged, op.txn.strays;
    var e, e' := v.durable, Kept(v.durable, d', l);
    hide Fs.GoodBut, Fs.Own, EncBlock, Kept, Fs.Settled, Apply, Final, Names, Bytes, FsCode.Logs;
    SeenBehind(sb, v, d);
    KeptBehind(sb, d, d', l, x, e);
    KeptFits(c, sb, d, d', l, x, e);
    forall b: nat | Home(c, b) && !Fs.Own(e'.own, b).Free? ensures At(Apply(m, ws), b) == EncBlock(sb, e', b) {
      FinalApply(m, ws, b);
      assert e'.own == d'.own && b < sb.size;
      if b in l {
        StoredKept(sb, d, d', l, x, e, b);
      } else {
        Untouched(c, sb, d, d', l, x, e, b);
      }
    }
  }

  lemma {:induction false} StoredKept(sb: Fs.Super, d: Fs.Disk, d': Fs.Disk, l: set<nat>, x: set<nat>, e: Fs.Disk,
        b: nat)
    requires FsCode.Transacts(sb, d, d', l, x) && Behind(sb, d, e) && b < sb.size && b in l
    ensures EncBlock(sb, Kept(e, d', l), b) == EncBlock(sb, d', b)
  {
    hide Fs.Own, Fs.Layout, Fs.BitmapExact, Fs.MapDown, Fs.MapUp, EncBlock, Kept;
    HasBytes(sb, d', b);
    assert |Bytes(e, b)| == Fs.BSIZE;
    SameEnc(sb, e, d', l, b);
  }

  /** Once committed, the disk has exactly the bytes that memory has if and only if every changed block was logged. */
  lemma {:induction false} KeptExact(sb: Fs.Super, d: Fs.Disk, d': Fs.Disk, l: set<nat>, x: set<nat>, e: Fs.Disk)
    requires FsCode.Transacts(sb, d, d', l, x) && Behind(sb, d, e) && Same(sb, d, e)
    ensures Same(sb, d', Kept(e, d', l)) <==> forall b: nat :: b < sb.size && FsCode.Rewritten(d, d', b) ==> b in l
    ensures x == {} ==> Same(sb, d', Kept(e, d', l))
  {
    hide Fs.Own, Fs.Layout, Fs.BitmapExact, Fs.MapDown, Fs.MapUp;
    forall b: nat | b < sb.size
      ensures Bytes(Kept(e, d', l), b) == Bytes(d', b) <==> (FsCode.Rewritten(d, d', b) ==> b in l)
    {
      HasBytes(sb, d', b);
      assert |Bytes(e, b)| == Fs.BSIZE;
      KeptBytes(e, d', l, b);
      hide Fs.Shape, Kept;
    }
    hide Kept;
  }

  /** Two file systems with the same bytes in every block. */
  ghost predicate Same(sb: Fs.Super, d: Fs.Disk, e: Fs.Disk) {
    forall b: nat :: b < sb.size ==> Bytes(e, b) == Bytes(d, b)
  }

  // ----- runs -----

  /** Operations that commit together: what they found, and in which order which transaction each of them was. */
  datatype Group = Group(before: Fs.Disk, ops: seq<nat>, ts: seq<FsCode.Txn>)

  /** The group as one transaction. */
  ghost function AsOp(g: Group): Op {
    Op(g.before, if g.ts == [] then FsCode.Txn(g.before, {}, {}) else FsCode.Merge(g.ts))
  }

  /** What was logged last of block b is what it holds in d, unless it is free there. */
  ghost predicate Ends(sb: Fs.Super, d: Fs.Disk, ws: seq<Write>, b: nat) {
    Fs.Own(d.own, b).Free? || Final(ws, b) == EncBlock(sb, d, b)
  }

  /**
   The operations that commit with end_op of o are those of g. Each logged the
   blocks that its transaction owes, the transactions follow one another from what
   the first of them found, and what was logged last of each block is what the
   block holds in the end, unless it is free then.
   */
  ghost predicate Serializes(sb: Fs.Super, s: State, v: View, o: nat, g: Group) {
    && Seen(v, g.before) && g.ts != [] && FsCode.Chain(sb, g.before, g.ts) && |g.ops| == |g.ts|
    && (forall x: nat :: x in g.ops <==> x in s.waiting || x == o)
    && (forall k: nat, b: nat :: k < |g.ops| ==> (Names(Issued(s, g.ops[k]), b) <==> b in g.ts[k].logged))
    && (forall b: nat :: Names(s.pending, b) ==> Ends(sb, g.ts[|g.ts| - 1].disk, s.pending, b))
  }

  lemma {:induction false} MergeLogged(ts: seq<FsCode.Txn>, b: nat)
    requires ts != []
    ensures b in FsCode.Merge(ts).logged <==> exists k: nat :: k < |ts| && b in ts[k].logged
  {
    if |ts| > 1 {
      var front := ts[..|ts| - 1];
      MergeLogged(front, b);
      assert forall k: nat :: k < |front| ==> front[k] == ts[k];
      if b in FsCode.Merge(front).logged {
        var k: nat :| k < |front| && b in front[k].logged;
        assert b in ts[k].logged;
      }
    }
  }

  lemma {:induction false} NamesOf(ws: seq<Write>, o: nat, b: nat)
    ensures Names(Of(ws, o), b) <==> exists w <- ws :: w.op == o && w.block == b
  {
    if ws != [] {
      var front, w := ws[..|ws| - 1], ws[|ws| - 1];
      NamesOf(front, o, b);
      assert ws == front + [w];
      assert forall u :: u in ws <==> u in front || u == w;
      assert forall u :: u in Of(ws, o) <==> u in Of(front, o) || (w.op == o && u == w);
    }
  }

  /** What is pending when the last operation ends was logged by the operations of the group. */
  lemma {:induction false} PendingNames(c: Config, s: State, k: nat, b: nat)
    requires Inv(c, s) && k < |s.active| && s.outstanding == 1
    ensures Names(s.pending, b) <==>
      exists x: nat :: (x in s.waiting || x == s.active[k].id) && Names(Issued(s, x), b)
  {
    hide DiskInv, PhaseInv, Of;
    var o := s.active[k].id;
    assert |s.active| == 1 && Ids(s.active) == {o};
    forall x: nat ensures Of(s.pending, x) == if x in s.waiting || x == o then Issued(s, x) else [] {
      assert x in s.waiting || x == o ==> x in s.issued;
    }
    hide OpInv, CountInv, Issued;
    if Names(s.pending, b) {
      var w :| w in s.pending && w.block == b;
      NamesOf(s.pending, w.op, b);
    }
    if x: nat :| (x in s.waiting || x == o) && Names(Issued(s, x), b) {
      NamesOf(s.pending, x, b);
    }
  }

  lemma {:induction false} GroupWrites(c: Config, sb: Fs.Super, s: State, v: View, k: nat, g: Group)
    requires Inv(c, s) && k < |s.active| && s.outstanding == 1 && Serializes(sb, s, v, s.active[k].id, g)
    ensures Starts(sb, v, AsOp(g)) && Writes(sb, s.pending, AsOp(g).txn) && AsOp(g).txn.disk == g.ts[|g.ts| - 1].disk
  {
    hide Inv, Names, Issued, Final, EncBlock, FsCode.Transacts, FsCode.Chain, FsCode.Merge;
    FsCode.MergeTransacts(sb, g.before, g.ts);
    forall b: nat ensures Names(s.pending, b) <==> b in FsCode.Merge(g.ts).logged {
      PendingNames(c, s, k, b);
      MergeLogged(g.ts, b);
      if Names(s.pending, b) {
        var x: nat :| (x in s.waiting || x == s.active[k].id) && Names(Issued(s, x), b);
        assert x in g.ops;
        var j :| 0 <= j < |g.ops| && g.ops[j] == x;
        assert b in g.ts[j].logged;
      }
      if b in FsCode.Merge(g.ts).logged {
        var j: nat :| j < |g.ts| && b in g.ts[j].logged;
        assert Names(Issued(s, g.ops[j]), b);
        assert g.ops[j] in g.ops;
      }
    }
  }

  /** The operation that called end_op last. */
  ghost function Committer(c: Config, evs: seq<Event>): nat
    requires Legal(c, evs)
  {
    if evs == [] then 0 else
      var front := evs[..|evs| - 1];
      Ender(Run(c, front), Committer(c, front), evs[|evs| - 1])
  }

  function Ender(s: State, o: nat, e: Event): nat { if e.End? && e.k < |s.active| then s.active[e.k].id else o }

  /** The step at which a group is safe: the header is written, or there was nothing to write. */
  predicate Commits(s: State, e: Event) {
    (e.Advance? && s.phase.WriteHead?) || (e.End? && s.outstanding == 1 && s.lh == [])
  }

  /**
   The file system in memory and on disk after a run that starts with d and in which plan[o]
   is the group that commits with end_op of o.
   */
  ghost function Track(c: Config, evs: seq<Event>, d: Fs.Disk, plan: map<nat, Group>): View
    requires Legal(c, evs)
  {
    if evs == [] then View(d, d) else
      var front, e := evs[..|evs| - 1], evs[|evs| - 1];
      Stepped(Run(c, front), Track(c, front, d, plan), Committer(c, front), e, plan)
  }

  /** A commit makes the group durable; a crash leaves what is durable. */
  ghost function Stepped(s: State, v: View, o: nat, e: Event, plan: map<nat, Group>): View {
    var x := Ender(s, o, e);
    if Commits(s, e) && x in plan then Commit(v, AsOp(plan[x])) else if e.Crash? then View(v.durable, v.durable) else v
  }

  /** Each end_op that starts a commit finds the operations of its group serialized. */
  ghost predicate Conforms(c: Config, sb: Fs.Super, evs: seq<Event>, d: Fs.Disk, plan: map<nat, Group>)
    requires Legal(c, evs)
  {
    evs == [] || (
      var front, e := evs[..|evs| - 1], evs[|evs| - 1];
      Conforms(c, sb, front, d, plan) && Obeys(sb, Run(c, front), Track(c, front, d, plan), e, plan))
  }

  ghost predicate Obeys(sb: Fs.Super, s: State, v: View, e: Event, plan: map<nat, Group>) {
    e.End? && e.k < |s.active| && s.outstanding == 1 ==>
      var o := s.active[e.k].id; o in plan && Serializes(sb, s, v, o, plan[o])
  }

  /** While a commit has not reached its header write, the group of o is what is pending. */
  ghost predicate Pending(sb: Fs.Super, s: State, v: View, o: nat, plan: map<nat, Group>) {
    s.phase.CopyToLog? || s.phase.WriteHead? ==>
      && o in plan && Starts(sb, v, AsOp(plan[o])) && Writes(sb, s.pending, AsOp(plan[o]).txn)
      && plan[o].ts != [] && AsOp(plan[o]).txn.disk == plan[o].ts[|plan[o].ts| - 1].disk
      && forall x: nat :: x in plan[o].ops <==> x in s.waiting
  }

  lemma {:induction false} PendingStep(c: Config, sb: Fs.Super, s: State, v: View, o: nat, e: Event, plan: map<nat,
        Group>)
    requires GoodConfig(c) && Inv(c, s) && Enabled(c, s, e) && Pending(sb, s, v, o, plan) && Obeys(sb, s, v, e, plan)
    ensures Pending(sb, Next(c, s, e), Stepped(s, v, o, e, plan), Ender(s, o, e), plan)
  {
    hide DiskInv, OpInv, Starts, Writes, Commit, AsOp;
    if s.active != [] { ActiveMeansQuiet(c, s); }
    match e
    case Begin(id) =>
    case LogWrite(k, b, w) =>
    case End(k) =>
      PendingEnd(c, sb, s, v, o, k, plan);
      hide Next;
    case Advance =>
      PendingAdvance(c, sb, s, v, o, plan);
      hide Next;
    case Crash =>
  }

  lemma {:induction false} PendingEnd(c: Config, sb: Fs.Super, s: State, v: View, o: nat, k: nat, plan: map<nat, Group>)
    requires Inv(c, s) && Enabled(c, s, End(k)) && Obeys(sb, s, v, End(k), plan) && s.phase.Quiet?
    ensures Pending(sb, Next(c, s, End(k)), Stepped(s, v, o, End(k), plan), Ender(s, o, End(k)), plan)
  {
    hide DiskInv, OpInv, PhaseInv, Starts, Writes, Commit, AsOp, Serializes;
    if s.outstanding == 1 {
      var x := s.active[k].id;
      GroupWrites(c, sb, s, v, k, plan[x]);
      GroupMembers(sb, s, v, x, plan[x]);
    }
  }

  lemma {:induction false} GroupMembers(sb: Fs.Super, s: State, v: View, o: nat, g: Group)
    requires Serializes(sb, s, v, o, g)
    ensures g.ts != [] && forall x: nat :: x in g.ops <==> x in s.waiting + {o}
  {
  }

  lemma {:induction false} PendingAdvance(c: Config, sb: Fs.Super, s: State, v: View, o: nat, plan: map<nat, Group>)
    requires PhaseInv(c, s) && CountInv(s) && Enabled(c, s, Advance) && Pending(sb, s, v, o, plan)
    ensures Pending(sb, Next(c, s, Advance), Stepped(s, v, o, Advance, plan), o, plan)
  {
    hide Put, PutHead, Log.Latest, At, Slot, Starts, Writes, Commit, AsOp, Head, Apply, SlotsHold, HomesHold;
  }

  lemma {:induction false} SaneStep(c: Config, sb: Fs.Super, s: State, v: View, o: nat, e: Event, plan: map<nat, Group>)
    requires GoodConfig(c) && Inv(c, s) && Enabled(c, s, e) && Pending(sb, s, v, o, plan) && Obeys(sb, s, v, e, plan)
    requires Sane(c, sb, v, Apply(c.init, s.durable))
    ensures Sane(c, sb, Stepped(s, v, o, e, plan), Apply(c.init, Next(c, s, e).durable))
  {
    hide Inv, Sane, Starts, Writes, Commit, Next, Enabled, Apply, Issued, GoodConfig, Serializes, AsOp;
    LogSnapshot.StepDurable(c, s, e);
    if e.Advance? && s.phase.WriteHead? {
      CommitSane(c, sb, v, AsOp(plan[o]), Apply(c.init, s.durable), s.pending);
      ApplyConcat(c.init, s.durable, s.pending);
    } else if Commits(s, e) {
      EndEmpty(c, s, e);
      GroupWrites(c, sb, s, v, e.k, plan[s.active[e.k].id]);
      CommitSane(c, sb, v, AsOp(plan[s.active[e.k].id]), Apply(c.init, s.durable), []);
      ApplyConcat(c.init, s.durable, []);
      assert s.durable + [] == s.durable;
    } else if e.Crash? {
      CrashSane(c, sb, v, Apply(c.init, s.durable));
    }
  }

  lemma {:induction false} EndEmpty(c: Config, s: State, e: Event)
    requires Inv(c, s) && Enabled(c, s, e) && e.End? && s.lh == []
    ensures s.pending == [] && e.k < |s.active|
  {
    ActiveMeansQuiet(c, s);
  }

  lemma {:induction false} CrashSane(c: Config, sb: Fs.Super, v: View, m: seq<Block>)
    requires Sane(c, sb, v, m)
    ensures Sane(c, sb, View(v.durable, v.durable), m)
  {
    BehindGood(sb, v.cache, v.durable);
    hide Fs.GoodBut, Fs.Own, Fits, Stored, Bytes;
  }

  /** At every moment of a conforming run the durable writes amount to a well-formed file system. */
  lemma {:induction false} Tracked(c: Config, sb: Fs.Super, evs: seq<Event>, d: Fs.Disk, plan: map<nat, Group>)
    requires GoodConfig(c) && Legal(c, evs) && Conforms(c, sb, evs, d, plan)
    requires Sane(c, sb, View(d, d), c.init)
    ensures Sane(c, sb, Track(c, evs, d, plan), Apply(c.init, Run(c, evs).durable))
    ensures Pending(sb, Run(c, evs), Track(c, evs, d, plan), Committer(c, evs), plan)
  {
    hide Inv, Next, Enabled, Sane, Pending, Stepped, Obeys, Ender;
    if evs == [] {
      Started(c, sb, d, plan);
    } else {
      var front, e := evs[..|evs| - 1], evs[|evs| - 1];
      Tracked(c, sb, front, d, plan);
      RunInv(c, front);
      var s, v, o := Run(c, front), Track(c, front, d, plan), Committer(c, front);
      SaneStep(c, sb, s, v, o, e, plan);
      PendingStep(c, sb, s, v, o, e, plan);
    }
  }

  lemma {:induction false} Started(c: Config, sb: Fs.Super, d: Fs.Disk, plan: map<nat, Group>)
    requires GoodConfig(c)
    ensures Pending(sb, Init(c), View(d, d), 0, plan) && Apply(c.init, Init(c).durable) == c.init
  {
  }

  /**
   Crash safety of the file system. On a disk that stores a well-formed file
   system, let operations run and overlap such that those that commit together are
   serialized, and stop at any step, with any number of crashes before. Recovery
   finds a well-formed file system on the disk, with no block leaked.
   */
  lemma {:induction false} FileSystemSurvives(c: Config, sb: Fs.Super, evs: seq<Event>, d: Fs.Disk, plan: map<nat,
        Group>)
    requires GoodConfig(c) && Legal(c, evs) && Conforms(c, sb, evs, d, plan)
    requires Fs.Good(sb, d) && Fs.Settled(sb, d.own) && Fits(c, sb, d) && Stored(c, sb, d, c.init)
    ensures var e := Track(c, evs, d, plan).durable;
      Fs.Good(sb, e) && Fs.Settled(sb, e.own) && Fits(c, sb, e) && Stored(c, sb, e, Recover(c, Run(c, evs).disk))
  {
    SaneStart(c, sb, d);
    Tracked(c, sb, evs, d, plan);
    CrashAtomicity(c, evs);
    var v := Track(c, evs, d, plan);
    BehindGood(sb, v.cache, v.durable);
    hide Legal, Run, Track, Conforms, Recover, Apply, Fs.GoodBut, Fs.Settled, EncBlock;
  }

  lemma {:induction false} SaneStart(c: Config, sb: Fs.Super, d: Fs.Disk)
    requires Fs.Good(sb, d) && Fs.Settled(sb, d.own) && Fits(c, sb, d) && Stored(c, sb, d, c.init)
    ensures Sane(c, sb, View(d, d), c.init)
  {
    hide Fs.Layout, Fs.BitmapExact, Fs.MapDown, Fs.MapUp, Fs.Settled, Fits, Stored;
    forall b: nat | b < sb.size ensures |Bytes(d, b)| == Fs.BSIZE { HasBytes(sb, d, b); }
  }

  // ----- which file system survives -----

  /** The groups that committed, in order, each by the operation whose end_op it was. */
  ghost function Order(c: Config, evs: seq<Event>): seq<nat>
    requires Legal(c, evs)
  {
    if evs == [] then [] else
      var front, e := evs[..|evs| - 1], evs[|evs| - 1];
      Order(c, front) + if Commits(Run(c, front), e) then [Ender(Run(c, front), Committer(c, front), e)] else []
  }

  /** Every copy into a buffer succeeded, so that every changed block was logged. */
  ghost predicate NoFault(plan: map<nat, Group>) { forall o :: o in plan ==> AsOp(plan[o]).txn.strays == {} }

  /** The file system that the last transaction of the group left. */
  function Last(g: Group): Fs.Disk { if g.ts == [] then g.before else g.ts[|g.ts| - 1].disk }

  /**
   v.durable is the file system after the groups of `order`, and memory has no other
   bytes unless a copy faulted.
   */
  ghost predicate LeftBy(sb: Fs.Super, v: View, d: Fs.Disk, order: seq<nat>, plan: map<nat, Group>) {
    && (order == [] ==> v.durable == d)
    && (order != [] ==> var o := order[|order| - 1];
          && o in plan && v.durable.files == Last(plan[o]).files && v.durable.own == Last(plan[o]).own
          && (NoFault(plan) ==> Same(sb, Last(plan[o]), v.durable)))
    && (NoFault(plan) ==> Same(sb, v.cache, v.durable))
  }

  /** The operations of the groups of `order`. */
  ghost predicate Member(order: seq<nat>, plan: map<nat, Group>, x: nat) {
    exists o <- order :: o in plan && x in plan[o].ops
  }

  lemma {:induction false} CommitLeaves(sb: Fs.Super, v: View, d: Fs.Disk, order: seq<nat>, o: nat, plan: map<nat,
        Group>)
    requires o in plan && Starts(sb, v, AsOp(plan[o])) && AsOp(plan[o]).txn.disk == Last(plan[o])
    requires Behind(sb, v.cache, v.durable) && LeftBy(sb, v, d, order, plan)
    ensures LeftBy(sb, Commit(v, AsOp(plan[o])), d, order + [o], plan)
  {
    hide FsCode.Transacts, Bytes, Behind, AsOp, Last;
    var op := AsOp(plan[o]);
    SeenBehind(sb, v, op.before);
    assert NoFault(plan) ==> Same(sb, op.before, v.durable);
    if NoFault(plan) { KeptExact(sb, op.before, op.txn.disk, op.txn.logged, op.txn.strays, v.durable); }
  }

  lemma {:induction false} MemberNext(order: seq<nat>, o: nat, plan: map<nat, Group>, x: nat)
    requires o in plan
    ensures Member(order + [o], plan, x) <==> Member(order, plan, x) || x in plan[o].ops
  {
    assert forall u :: u in order + [o] <==> u in order || u == o;
  }

  lemma {:induction false} LatestStep(c: Config, sb: Fs.Super, s: State, v: View, o: nat, e: Event, d: Fs.Disk,
        order: seq<nat>, plan: map<nat, Group>)
    requires Inv(c, s) && Enabled(c, s, e) && Pending(sb, s, v, o, plan)
    requires Obeys(sb, s, v, e, plan) && Behind(sb, v.cache, v.durable)
    requires LeftBy(sb, v, d, order, plan) && forall x: nat :: Member(order, plan, x) <==> x in s.saved
    ensures LeftBy(sb, Stepped(s, v, o, e, plan), d, order + if Commits(s, e) then [Ender(s, o, e)] else [], plan)
    ensures forall x: nat ::
      Member(order + if Commits(s, e) then [Ender(s, o, e)] else [], plan, x) <==> x in Next(c, s, e).saved
  {
    hide Inv, FsCode.Transacts, Behind, Writes, Starts, Commit, AsOp, Serializes, LeftBy, Member, Enabled, Next;
    SavedStep(c, s, e);
    var u := Ender(s, o, e);
    if Commits(s, e) {
      if e.End? {
        EndEmpty(c, s, e);
        GroupWrites(c, sb, s, v, e.k, plan[u]);
        GroupMembers(sb, s, v, u, plan[u]);
      }
      CommitLeaves(sb, v, d, order, u, plan);
      forall x: nat
        ensures Member(order + [u], plan, x) <==> x in Next(c, s, e).saved
      {
        MemberNext(order, u, plan, x);
      }
    } else {
      assert order + [] == order;
      if e.Crash? { CrashLeaves(sb, v, d, order, plan); }
    }
  }

  lemma {:induction false} CrashLeaves(sb: Fs.Super, v: View, d: Fs.Disk, order: seq<nat>, plan: map<nat, Group>)
    requires LeftBy(sb, v, d, order, plan)
    ensures LeftBy(sb, View(v.durable, v.durable), d, order, plan)
  {
    hide Bytes, Last;
  }

  lemma {:induction false} SavedStep(c: Config, s: State, e: Event)
    requires Inv(c, s) && Enabled(c, s, e)
    ensures Next(c, s, e).saved == s.saved +
      if !Commits(s, e) then {} else if e.End? then s.waiting + {s.active[e.k].id} else s.waiting
  {
    hide DiskInv, PhaseInv, OpInv, Panics, At, Put, PutHead, Slot, Log.Latest, Ids, Issued;
  }

  /**
   The groups that committed consist of exactly the operations that the log calls
   saved. The file system that recovery finds has the inodes, block maps and owners
   that the last of them left; and all its bytes, unless a copy faulted.
   */
  lemma {:induction false} SurvivorIsLatest(c: Config, sb: Fs.Super, evs: seq<Event>, d: Fs.Disk, plan: map<nat, Group>)
    requires GoodConfig(c) && Legal(c, evs) && Conforms(c, sb, evs, d, plan)
    requires Fs.Good(sb, d) && Fs.Settled(sb, d.own) && Fits(c, sb, d) && Stored(c, sb, d, c.init)
    ensures LeftBy(sb, Track(c, evs, d, plan), d, Order(c, evs), plan)
    ensures forall x: nat :: Member(Order(c, evs), plan, x) <==> x in Run(c, evs).saved
  {
    hide Inv, Next, Enabled, Pending, Stepped, Obeys, Ender, Commits, LeftBy, Member, Stored, Fits, Fs.GoodBut,
      Fs.Settled;
    if evs == [] {
      LatestStart(c, sb, d, plan);
    } else {
      var front, e := evs[..|evs| - 1], evs[|evs| - 1];
      SurvivorIsLatest(c, sb, front, d, plan);
      SaneStart(c, sb, d);
      Tracked(c, sb, front, d, plan);
      RunInv(c, front);
      hide Conforms;
      LatestStep(c, sb, Run(c, front), Track(c, front, d, plan), Committer(c, front), e, d, Order(c, front), plan);
    }
  }

  lemma {:induction false} LatestStart(c: Config, sb: Fs.Super, d: Fs.Disk, plan: map<nat, Group>)
    ensures LeftBy(sb, View(d, d), d, [], plan) && forall x: nat :: Member([], plan, x) <==> x in Init(c).saved
  {
  }

  /** What the kernel reads from the disk after recovery: every file as e has it, and a free map without leaks. */
  lemma {:induction false} Remounted(c: Config, sb: Fs.Super, evs: seq<Event>, d: Fs.Disk, plan: map<nat, Group>,
        i: nat, p: nat, b: nat)
    requires GoodConfig(c) && Legal(c, evs) && Conforms(c, sb, evs, d, plan)
    requires Fs.Good(sb, d) && Fs.Settled(sb, d.own) && Fits(c, sb, d) && Stored(c, sb, d, c.init)
    ensures var e, m := Track(c, evs, d, plan).durable, Recover(c, Run(c, evs).disk);
      && (i in e.files.inodes ==>
            DiskSize(sb, m, i) == e.files.inodes[i].size && DiskByte(sb, m, i, p) == Num(Fs.FByte(e, i, p)))
      && (0 < b < sb.size ==> (DiskBit(sb, m, b) <==> Fs.Own(e.own, b).Meta? || Fs.Mapped(e.files, b)))
  {
    FileSystemSurvives(c, sb, evs, d, plan);
    var e, m := Track(c, evs, d, plan).durable, Recover(c, Run(c, evs).disk);
    hide Legal, Run, Track, Conforms, Recover, Fs.GoodBut, Fs.Settled, Fits, Stored, DiskSize, DiskByte, DiskBit,
      Fs.FByte, Fs.BitAt, Fs.Mapped;
    if i in e.files.inodes { ReadsBack(c, sb, e, m, i, p); }
    if 0 < b < sb.size {
      BitBack(c, sb, e, m, b);
      Fs.BitmapMeaning(sb, e, b);
    }
  }

  /** The plan of a filewrite with nothing beside it: its transactions in turn, each a group of its own. */
  ghost function Chunked(d: Fs.Disk, ts: seq<FsCode.Txn>): map<nat, Group> {
    map k: nat | k < |ts| :: Group(FsCode.After(d, ts, k), [k], [ts[k]])
  }

  /**
   A filewrite in transactions ts, as FileSystem.Filewrite reports them, cut short
   by crashes: the disk has the file system after the first k of them.
   */
  lemma {:induction false} FilewriteCut(c: Config, sb: Fs.Super, evs: seq<Event>, d: Fs.Disk, ts: seq<FsCode.Txn>)
    returns (k: nat)
    requires GoodConfig(c) && Legal(c, evs) && Conforms(c, sb, evs, d, Chunked(d, ts))
    requires Fs.Good(sb, d) && Fs.Settled(sb, d.own) && Fits(c, sb, d) && Stored(c, sb, d, c.init)
    ensures k <= |ts| && var e := Track(c, evs, d, Chunked(d, ts)).durable;
      e.files == FsCode.After(d, ts, k).files && (NoFault(Chunked(d, ts)) ==> Same(sb, FsCode.After(d, ts, k), e))
  {
    hide Legal, Run, Track, Conforms, Order, LeftBy, Fs.GoodBut, Fs.Settled, Fits, Stored, Chunked, NoFault, Same;
    SurvivorIsLatest(c, sb, evs, d, Chunked(d, ts));
    k := LatestChunk(sb, Track(c, evs, d, Chunked(d, ts)), d, Order(c, evs), ts);
  }

  lemma {:induction false} LatestChunk(sb: Fs.Super, v: View, d: Fs.Disk, order: seq<nat>, ts: seq<FsCode.Txn>)
    returns (k: nat)
    requires LeftBy(sb, v, d, order, Chunked(d, ts))
    ensures k <= |ts| && v.durable.files == FsCode.After(d, ts, k).files
    ensures NoFault(Chunked(d, ts)) ==> Same(sb, FsCode.After(d, ts, k), v.durable)
  {
    hide Bytes, NoFault;
    k := if order == [] then 0 else order[|order| - 1] + 1;
  }

  // ----- transactions within their reservation can run -----

  /** The log_writes of a transaction that logs blocks bs in turn. */
  function WritesOf(sb: Fs.Super, t: FsCode.Txn, bs: seq<nat>): (ws: seq<Write>)
    ensures |ws| == |bs| && forall k :: 0 <= k < |bs| ==> ws[k] == Write(0, bs[k], EncBlock(sb, t.disk, bs[k]))
  {
    seq(|bs|, k requires 0 <= k < |bs| => Write(0, bs[k], EncBlock(sb, t.disk, bs[k])))
  }

  lemma {:induction false} FinalOf(sb: Fs.Super, t: FsCode.Txn, bs: seq<nat>, b: nat)
    requires b in bs
    ensures Names(WritesOf(sb, t, bs), b) && Final(WritesOf(sb, t, bs), b) == EncBlock(sb, t.disk, b)
  {
    hide EncBlock;
    var ws, front := WritesOf(sb, t, bs), bs[..|bs| - 1];
    assert ws[..|ws| - 1] == WritesOf(sb, t, front);
    var j :| 0 <= j < |bs| && bs[j] == b;
    assert ws[j].block == b;
    if bs[|bs| - 1] != b {
      assert front[j] == b;
      FinalOf(sb, t, front, b);
    }
  }

  /** One transaction, in a group of its own. */
  function Alone(d: Fs.Disk, t: FsCode.Txn): map<nat, Group> { map[0 := Group(d, [0], [t])] }

  /** Boot, begin_op, and a log_write for each of bs. */
  function OpEvents(sb: Fs.Super, t: FsCode.Txn, bs: seq<nat>): seq<Event> {
    if bs == [] then [Advance, Advance, Advance, Begin(0)]
    else OpEvents(sb, t, bs[..|bs| - 1]) + [LogWrite(0, bs[|bs| - 1], EncBlock(sb, t.disk, bs[|bs| - 1]))]
  }

  /** The operation has logged bs and nothing else has happened. */
  ghost predicate Underway(s: State, sb: Fs.Super, t: FsCode.Txn, bs: seq<nat>) {
    && s.phase.Quiet? && !s.committing && s.outstanding == 1 && s.lh == bs && |s.active| == 1 && s.active[0].id == 0
    && Issued(s, 0) == WritesOf(sb, t, bs) && s.pending == WritesOf(sb, t, bs) && s.waiting == {}
  }

  lemma {:induction false} OpStart(c: Config, sb: Fs.Super, d: Fs.Disk, t: FsCode.Txn)
    requires GoodConfig(c) && FsCode.Transacts(sb, d, t.disk, t.logged, t.strays)
    ensures var evs := OpEvents(sb, t, []); Legal(c, evs) && Conforms(c, sb, evs, d, Alone(d, t))
    ensures var evs := OpEvents(sb, t, []);
      Underway(Run(c, evs), sb, t, []) && Track(c, evs, d, Alone(d, t)) == View(d, d)
  {
    hide FsCode.Transacts, EncBlock;
    var e1, e2, e3 := [Advance], [Advance, Advance], [Advance, Advance, Advance];
    var e4 := e3 + [Begin(0)];
    assert e4 == OpEvents(sb, t, []);
    var plan := Alone(d, t);
    assert e1[..0] == [] && e2[..1] == e1 && e3[..2] == e2 && e4[..3] == e3;
    assert Head(At(c.init, c.start)) == [];
    assert Legal(c, e1) && Run(c, e1) == Init(c).(phase := RecoverInstall(0));
    assert Legal(c, e2) && Run(c, e2) == Init(c).(phase := RecoverErase);
    assert Legal(c, e3) && Run(c, e3).phase.Quiet? && Run(c, e3).lh == [] &&
      Run(c, e3).active == [] && Run(c, e3).issued == map[];
    assert Conforms(c, sb, e1, d, plan) && Track(c, e1, d, plan) == View(d, d);
    assert Conforms(c, sb, e2, d, plan) && Track(c, e2, d, plan) == View(d, d);
    assert Conforms(c, sb, e3, d, plan) && Track(c, e3, d, plan) == View(d, d);
  }

  lemma {:induction false} OpLogs(c: Config, sb: Fs.Super, d: Fs.Disk, t: FsCode.Txn, bs: seq<nat>)
    requires GoodConfig(c) && FsCode.Transacts(sb, d, t.disk, t.logged, t.strays)
    requires |bs| <= LOGSIZE && |bs| <= c.size - 1
    requires (forall k :: 0 <= k < |bs| ==> Home(c, bs[k])) && (forall j, k :: 0 <= j < k < |bs| ==> bs[j] != bs[k])
    ensures var evs := OpEvents(sb, t, bs); Legal(c, evs) && Conforms(c, sb, evs, d, Alone(d, t))
    ensures var evs := OpEvents(sb, t, bs);
      Underway(Run(c, evs), sb, t, bs) && Track(c, evs, d, Alone(d, t)) == View(d, d)
  {
    hide FsCode.Transacts, Legal, Run, Conforms, Track, GoodConfig, EncBlock, Underway;
    if bs == [] {
      OpStart(c, sb, d, t);
    } else {
      var front, b := bs[..|bs| - 1], bs[|bs| - 1];
      OpLogs(c, sb, d, t, front);
      var evs := OpEvents(sb, t, front);
      LogNext(c, sb, Run(c, evs), t, front, b);
      ConformsNext(c, sb, evs, LogWrite(0, b, EncBlock(sb, t.disk, b)), d, Alone(d, t));
      assert front + [b] == bs;
    }
  }

  lemma {:induction false} LogNext(c: Config, sb: Fs.Super, s: State, t: FsCode.Txn, front: seq<nat>, b: nat)
    requires Underway(s, sb, t, front) && |front| < LOGSIZE && |front| < c.size - 1 && Home(c, b) && b !in front
    ensures var e := LogWrite(0, b, EncBlock(sb, t.disk, b));
      Enabled(c, s, e) && Underway(Next(c, s, e), sb, t, front + [b])
  {
    var e := LogWrite(0, b, EncBlock(sb, t.disk, b));
    hide EncWord;
    assert Next(c, s, e).lh == front + [b];
    assert WritesOf(sb, t, front + [b]) == WritesOf(sb, t, front) + [Write(0, b, EncBlock(sb, t.disk, b))];
  }

  lemma {:induction false} ConformsNext(c: Config, sb: Fs.Super, evs: seq<Event>, e: Event, d: Fs.Disk,
        plan: map<nat, Group>)
    requires Legal(c, evs) && Enabled(c, Run(c, evs), e) && Conforms(c, sb, evs, d, plan)
    requires Obeys(sb, Run(c, evs), Track(c, evs, d, plan), e, plan)
    ensures Legal(c, evs + [e]) && Run(c, evs + [e]) == Next(c, Run(c, evs), e)
    ensures Conforms(c, sb, evs + [e], d, plan)
    ensures e.LogWrite? || e.Begin? ==> Track(c, evs + [e], d, plan) == Track(c, evs, d, plan)
  {
    hide Enabled, Next, Obeys;
    assert (evs + [e])[..|evs + [e]| - 1] == evs;
  }

  lemma {:induction false} WritesDone(sb: Fs.Super, t: FsCode.Txn, bs: seq<nat>)
    requires forall b: nat :: b in t.logged <==> b in bs
    ensures Writes(sb, WritesOf(sb, t, bs), t)
  {
    hide EncBlock;
    forall b: nat ensures Names(WritesOf(sb, t, bs), b) <==> b in t.logged {
      if b in bs { FinalOf(sb, t, bs, b); }
    }
    forall b | b in t.logged ensures Final(WritesOf(sb, t, bs), b) == EncBlock(sb, t.disk, b) { FinalOf(sb, t, bs, b); }
  }

  lemma {:induction false} AloneSerializes(sb: Fs.Super, s: State, d: Fs.Disk, t: FsCode.Txn, bs: seq<nat>)
    requires Underway(s, sb, t, bs) && FsCode.Transacts(sb, d, t.disk, t.logged, t.strays)
    requires forall b: nat :: b in t.logged <==> b in bs
    ensures Serializes(sb, s, View(d, d), 0, Group(d, [0], [t]))
  {
    hide FsCode.Transacts, EncBlock, WritesOf, Issued, Names, Final;
    WritesDone(sb, t, bs);
  }

  /**
   A transaction that logs no more blocks than the log can hold, none of them in the log,
   has a run up to its end_op.
   */
  lemma {:induction false} TransactionRuns(c: Config, sb: Fs.Super, d: Fs.Disk, t: FsCode.Txn, bs: seq<nat>)
    returns (evs: seq<Event>)
    requires GoodConfig(c) && FsCode.Transacts(sb, d, t.disk, t.logged, t.strays)
    requires |bs| <= LOGSIZE && |bs| <= c.size - 1
    requires (forall k :: 0 <= k < |bs| ==> Home(c, bs[k])) && (forall j, k :: 0 <= j < k < |bs| ==> bs[j] != bs[k])
    requires forall b: nat :: b in t.logged <==> b in bs
    ensures Legal(c, evs) && Conforms(c, sb, evs, d, Alone(d, t)) && evs != [] && evs[|evs| - 1] == End(0)
  {
    hide OpEvents, FsCode.Transacts, EncBlock, Legal, Run, Track, Conforms, Writes, GoodConfig, WritesOf;
    var front := OpEvents(sb, t, bs);
    OpLogs(c, sb, d, t, bs);
    AloneSerializes(sb, Run(c, front), d, t, bs);
    hide Serializes;
    ConformsNext(c, sb, front, End(0), d, Alone(d, t));
    evs := front + [End(0)];
  }
}
