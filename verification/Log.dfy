/**
 The redo log of kernel/log.c as a protocol: every bwrite is one atomic disk
 step, file-system operations interleave freely, and a crash may strike between
 any two steps (also while recovering), discarding everything but the disk.

 `Next` is the transition function of the protocol; a run is a list of events.
 Besides the variables of the C program, a state carries the history needed to
 say what a crash may lose: the log_writes that are durable, those that are
 pending, and what each operation has issued.
 */
module Log {

  const MAXOPBLOCKS: nat := 10
  const LOGSIZE: nat := MAXOPBLOCKS * 3
  /** 32-bit words per block: BSIZE / sizeof(int) */
  const BWORDS: nat := 256

  type Block = seq<nat>

  /** Superblock data plus the contents of the disk that mkfs made. */
  datatype Config = Config(start: nat, size: nat, init: seq<Block>)

  ghost predicate GoodConfig(c: Config) {
    && 1 <= c.size
    && c.start + c.size <= |c.init|
    && Sized(c.init)
    && At(c.init, c.start)[0] == 0
  }

  /** Every block has the size of a block. */
  ghost predicate Sized(d: seq<Block>) {
    forall b: nat :: b < |d| ==> |At(d, b)| == BWORDS
  }

  /** Blocks outside the log area, the only ones that operations touch. */
  predicate Home(c: Config, b: nat) {
    b < |c.init| && (b < c.start || c.start + c.size <= b)
  }

  // ----- disks -----

  function At(d: seq<Block>, b: nat): Block {
    if b < |d| then d[b] else []
  }

  function Put(d: seq<Block>, b: nat, v: Block): (r: seq<Block>)
    ensures |r| == |d|
  {
    if b < |d| then d[b := v] else d
  }

  // ----- the on-disk header -----

  predicate GoodHead(b: Block) {
    |b| == BWORDS && b[0] <= LOGSIZE
  }

  /** The block numbers that a header block lists (read_head). */
  function Head(b: Block): seq<nat> {
    if GoodHead(b) then b[1..1 + b[0]] else []
  }

  /** The header block after write_head: entries past n keep their old contents. */
  function PutHead(b: Block, lh: seq<nat>): Block {
    [|lh|] + lh + (if 1 + |lh| <= |b| then b[1 + |lh|..] else [])
  }

  lemma {:induction false} HeadRoundTrip(b: Block, lh: seq<nat>)
    requires |b| == BWORDS && |lh| <= LOGSIZE
    ensures GoodHead(PutHead(b, lh))
    ensures Head(PutHead(b, lh)) == lh && |PutHead(b, lh)| == BWORDS
    ensures lh == [] ==> forall i :: 1 <= i < BWORDS ==> PutHead(b, lh)[i] == b[i]
  {
    var h := PutHead(b, lh);
    assert h[0] == |lh|;
    assert h[1..1 + |lh|] == lh;
  }

  // ----- log_writes and their effect -----

  datatype Write = Write(op: nat, block: nat, data: Block)

  /** The contents of every block after the given writes, in order. */
  function Apply(d: seq<Block>, ws: seq<Write>): (r: seq<Block>)
    ensures |r| == |d|
  {
    if ws == [] then d else
      var w := ws[|ws| - 1];
      Put(Apply(d, ws[..|ws| - 1]), w.block, w.data)
  }

  /** The writes that operation op issued, in order. */
  function Of(ws: seq<Write>, op: nat): seq<Write> {
    if ws == [] then [] else
      var w := ws[|ws| - 1];
      Of(ws[..|ws| - 1], op) + (if w.op == op then [w] else [])
  }

  ghost predicate Within(ws: seq<Write>, bs: seq<nat>) {
    forall w <- ws :: w.block in bs
  }

  // ----- states -----

  datatype ActiveOp = ActiveOp(id: nat, used: nat)

  /** Where the single committer, or recovery at boot, stands. */
  datatype Phase =
    | Quiet
    | CopyToLog(tail: nat)
    | WriteHead
    | Install(tail: nat)
    | EraseHead
    | Finish
    | ReadHead
    | RecoverInstall(tail: nat)
    | RecoverErase

  datatype State = State(
    disk: seq<Block>,
    lh: seq<nat>,
    outstanding: int,
    committing: bool,
    phase: Phase,
    // history
    active: seq<ActiveOp>,
    durable: seq<Write>,
    pending: seq<Write>,
    issued: map<nat, seq<Write>>,
    waiting: set<nat>,
    saved: set<nat>,
    lost: set<nat>)

  predicate Recovering(s: State) {
    s.phase.ReadHead? || s.phase.RecoverInstall? || s.phase.RecoverErase?
  }

  /** What bread returns for a block when nobody holds it: the latest logged contents. */
  function Latest(c: Config, s: State, b: nat): Block {
    if Recovering(s) || !Home(c, b) then At(s.disk, b) else At(Apply(c.init, s.durable + s.pending), b)
  }

  /** Home blocks whose buffers log_write has pinned and install_trans has not yet unpinned. */
  function Pinned(s: State): seq<nat> {
    if Recovering(s) then [] else
    match s.phase
    case Install(tail) => if tail <= |s.lh| then s.lh[tail..] else []
    case EraseHead => []
    case _ => s.lh
  }

  function Ids(ops: seq<ActiveOp>): set<nat> {
    set k | 0 <= k < |ops| :: ops[k].id
  }

  /** Block slots that active operations have reserved and not used. */
  function Unused(ops: seq<ActiveOp>): nat {
    if ops == [] then 0 else
      (if ops[0].used <= MAXOPBLOCKS then MAXOPBLOCKS - ops[0].used else 0) + Unused(ops[1..])
  }

  function Init(c: Config): State {
    State(c.init, [], 0, false, ReadHead, [], [], [], map[], {}, {}, {})
  }

  // ----- transitions -----

  datatype Event =
    | Begin(id: nat)
    | LogWrite(k: nat, block: nat, data: Block)
    | End(k: nat)
    | Advance
    | Crash

  /** The panic guards of log_write and end_op. */
  predicate Panics(c: Config, s: State, e: Event) {
    match e
    case LogWrite(_, _, _) => |s.lh| >= LOGSIZE || |s.lh| >= c.size - 1 || s.outstanding < 1
    case End(_) => s.committing
    case _ => false
  }

  /** Whether a process may take the step: callers obey begin_op/end_op, and begin_op admits. */
  predicate Ready(c: Config, s: State, e: Event) {
    match e
    case Begin(id) =>
      && !Recovering(s) && id !in s.issued
      && !s.committing && |s.lh| + (s.outstanding + 1) * MAXOPBLOCKS <= LOGSIZE
    case LogWrite(k, b, v) => k < |s.active| && Home(c, b) && |v| == BWORDS
    case End(k) => k < |s.active|
    case Advance => !s.phase.Quiet?
    case Crash => true
  }

  predicate Enabled(c: Config, s: State, e: Event) {
    Ready(c, s, e) && !Panics(c, s, e)
  }

  function Next(c: Config, s: State, e: Event): State
    requires Enabled(c, s, e)
  {
    match e
    case Begin(id) =>
      s.(outstanding := s.outstanding + 1,
         active := s.active + [ActiveOp(id, 0)],
         issued := s.issued[id := []])
    case LogWrite(k, b, v) =>
      var w := Write(s.active[k].id, b, v);
      var isNew := b !in s.lh;
      s.(lh := if isNew then s.lh + [b] else s.lh,
         active := s.active[k := s.active[k].(used := s.active[k].used + if isNew then 1 else 0)],
         pending := s.pending + [w],
         issued := s.issued[w.op := Issued(s, w.op) + [w]])
    case End(k) =>
      var waiting := s.waiting + {s.active[k].id};
      var s' := s.(outstanding := s.outstanding - 1, active := s.active[..k] + s.active[k + 1..]);
      if s.outstanding - 1 > 0 then s'.(waiting := waiting)
      else if s.lh == [] then s'.(committing := true, phase := Finish, waiting := {}, saved := s.saved + waiting)
      else s'.(committing := true, phase := CopyToLog(0), waiting := waiting)
    case Advance => NextAdvance(c, s)
    case Crash =>
      s.(lh := [], outstanding := 0, committing := false, phase := ReadHead, active := [], pending := [],
         lost := s.lost + Ids(s.active) + s.waiting, waiting := {})
  }

  function Issued(s: State, op: nat): seq<Write> {
    if op in s.issued then s.issued[op] else []
  }

  /** One step of commit() or recover_from_log(): at most one bwrite. */
  function NextAdvance(c: Config, s: State): State {
    var head := At(s.disk, c.start);
    match s.phase
    case Quiet => s
    case CopyToLog(t) =>
      if t < |s.lh| then
        s.(disk := Put(s.disk, Slot(c, t), Latest(c, s, s.lh[t])), phase := CopyToLog(t + 1))
      else s.(phase := WriteHead)
    case WriteHead =>
      s.(disk := Put(s.disk, c.start, PutHead(head, s.lh)), phase := Install(0),
         durable := s.durable + s.pending, pending := [],
         saved := s.saved + s.waiting, waiting := {})
    case Install(t) =>
      if t < |s.lh| then
        s.(disk := Put(s.disk, s.lh[t], At(s.disk, Slot(c, t))), phase := Install(t + 1))
      else s.(phase := EraseHead)
    case EraseHead =>
      s.(disk := Put(s.disk, c.start, PutHead(head, [])), lh := [], phase := Finish)
    case Finish =>
      s.(committing := false, phase := Quiet)
    case ReadHead =>
      s.(lh := Head(head), phase := RecoverInstall(0))
    case RecoverInstall(t) =>
      if t < |s.lh| then
        s.(disk := Put(s.disk, s.lh[t], At(s.disk, Slot(c, t))), phase := RecoverInstall(t + 1))
      else s.(phase := RecoverErase)
    case RecoverErase =>
      s.(disk := Put(s.disk, c.start, PutHead(head, [])), lh := [], phase := Quiet)
  }

  // ----- the invariant -----

  /** A list of block numbers that fits the log: distinct home blocks, one slot each. */
  ghost predicate GoodList(c: Config, bs: seq<nat>) {
    && |bs| <= LOGSIZE && |bs| <= c.size - 1
    && (forall i :: 0 <= i < |bs| ==> Home(c, bs[i]))
    && (forall i, j :: 0 <= i < j < |bs| ==> bs[i] != bs[j])
  }

  function Slot(c: Config, i: nat): nat { c.start + 1 + i }

  /** The first t log slots hold m for the blocks that bs lists. */
  ghost predicate SlotsHold(c: Config, disk: seq<Block>, bs: seq<nat>, t: nat, m: seq<Block>) {
    forall i: nat :: i < t && i < |bs| ==> At(disk, Slot(c, i)) == At(m, bs[i])
  }

  /** The first t listed home blocks hold m. */
  ghost predicate HomesHold(disk: seq<Block>, bs: seq<nat>, t: nat, m: seq<Block>) {
    forall i: nat :: i < t && i < |bs| ==> At(disk, bs[i]) == At(m, bs[i])
  }

  /** Home blocks that bs does not list hold m. */
  ghost predicate RestHolds(c: Config, disk: seq<Block>, bs: seq<nat>, m: seq<Block>) {
    forall b: nat :: Home(c, b) && b !in bs ==> At(disk, b) == At(m, b)
  }

  /** A disk whose header lists hs and whose replay yields m. */
  ghost predicate Holds(c: Config, disk: seq<Block>, hs: seq<nat>, m: seq<Block>) {
    GoodList(c, hs) && SlotsHold(c, disk, hs, |hs|, m) && RestHolds(c, disk, hs, m)
  }

  function DiskHead(c: Config, disk: seq<Block>): seq<nat> {
    Head(At(disk, c.start))
  }

  ghost predicate GoodWrites(ws: seq<Write>) {
    forall w <- ws :: |w.data| == BWORDS
  }

  ghost predicate DiskInv(c: Config, s: State) {
    && |s.disk| == |c.init|
    && Sized(s.disk)
    && GoodHead(At(s.disk, c.start))
    && GoodList(c, s.lh)
    && Holds(c, s.disk, DiskHead(c, s.disk), Apply(c.init, s.durable))
    && Within(s.pending, s.lh)
    && GoodWrites(s.pending) && GoodWrites(s.durable)
  }

  ghost predicate PhaseInv(c: Config, s: State) {
    var hs := DiskHead(c, s.disk);
    match s.phase
    case Quiet => hs == [] && !s.committing
    case CopyToLog(t) =>
      hs == [] && s.committing && t <= |s.lh| && SlotsHold(c, s.disk, s.lh, t, Apply(c.init, s.durable + s.pending))
    case WriteHead =>
      hs == [] && s.committing && SlotsHold(c, s.disk, s.lh, |s.lh|, Apply(c.init, s.durable + s.pending))
    case Install(t) =>
      hs == s.lh && s.committing && s.pending == [] && t <= |hs| && HomesHold(s.disk, s.lh, t, Apply(c.init, s.durable))
    case EraseHead =>
      hs == s.lh && s.committing && s.pending == [] && HomesHold(s.disk, s.lh, |hs|, Apply(c.init, s.durable))
    case Finish => hs == [] && s.committing && s.pending == [] && s.lh == []
    case ReadHead => !s.committing && s.pending == [] && s.lh == []
    case RecoverInstall(t) =>
      hs == s.lh && !s.committing && s.pending == [] && t <= |hs| &&
        HomesHold(s.disk, s.lh, t, Apply(c.init, s.durable))
    case RecoverErase =>
      hs == s.lh && !s.committing && s.pending == [] && HomesHold(s.disk, s.lh, |hs|, Apply(c.init, s.durable))
  }

  ghost predicate Distinct(ops: seq<ActiveOp>) {
    forall i, j :: 0 <= i < j < |ops| ==> ops[i].id != ops[j].id
  }

  /** ws holds exactly what the operations in ids issued, operation by operation. */
  ghost predicate Whole(ws: seq<Write>, ids: set<nat>, issued: map<nat, seq<Write>>) {
    forall o: nat :: Of(ws, o) == if o in ids && o in issued then issued[o] else []
  }

  /** Every operation is all durable, all pending, or lost without trace. */
  ghost predicate OpInv(s: State) {
    && Distinct(s.active)
    && Partition(Ids(s.active), s.waiting, s.saved, s.lost, s.issued.Keys)
    && Whole(s.durable, s.saved, s.issued)
    && Whole(s.pending, Ids(s.active) + s.waiting, s.issued)
  }

  ghost predicate Partition(a: set<nat>, b: set<nat>, c: set<nat>, d: set<nat>, all: set<nat>) {
    a !! b !! c !! d && a + b + c + d == all
  }

  ghost predicate CountInv(s: State) {
    && s.outstanding == |s.active|
    && (s.committing || Recovering(s) ==> s.outstanding == 0)
    && (s.outstanding == 0 && !s.committing ==> s.waiting == {} && (s.lh == [] || Recovering(s)))
    && (s.phase.Install? || s.phase.EraseHead? || s.phase.Finish? ==> s.waiting == {})
  }

  ghost predicate Inv(c: Config, s: State) {
    DiskInv(c, s) && PhaseInv(c, s) && OpInv(s) && CountInv(s)
  }

  // ----- runs -----

  /** evs can be taken one after the other, starting from boot on the disk that mkfs made. */
  ghost predicate Legal(c: Config, evs: seq<Event>)
    decreases |evs|, 0
  {
    evs == [] || (
      var front := evs[..|evs| - 1];
      Legal(c, front) && Enabled(c, Run(c, front), evs[|evs| - 1]))
  }

  ghost function Run(c: Config, evs: seq<Event>): State
    requires Legal(c, evs)
    decreases |evs|, 1
  {
    if evs == [] then Init(c) else Next(c, Run(c, evs[..|evs| - 1]), evs[|evs| - 1])
  }

  /** The invariant holds after every run. */
  lemma {:induction false} RunInv(c: Config, evs: seq<Event>)
    requires GoodConfig(c) && Legal(c, evs)
    ensures Inv(c, Run(c, evs))
  {
    hide Inv, Next, Init;
    if evs == [] {
      InitInv(c);
    } else {
      var front := evs[..|evs| - 1];
      RunInv(c, front);
      NextInv(c, Run(c, front), evs[|evs| - 1]);
    }
  }

  lemma {:induction false} InitInv(c: Config)
    requires GoodConfig(c)
    ensures Inv(c, Init(c))
  {
    assert Head(At(c.init, c.start)) == [];
  }

  lemma {:induction false} NextInv(c: Config, s: State, e: Event)
    requires GoodConfig(c) && Inv(c, s) && Enabled(c, s, e)
    ensures Inv(c, Next(c, s, e))
  {
    hide Inv, Next, GoodConfig;
    match e
    case Begin(id) => BeginInv(c, s, id);
    case LogWrite(k, b, v) => LogWriteInv(c, s, k, b, v);
    case End(k) => EndInv(c, s, k);
    case Advance => AdvanceInv(c, s);
    case Crash => CrashInv(c, s);
  }

  // ----- facts about writes -----

  lemma {:induction false} OfConcat(a: seq<Write>, b: seq<Write>, op: nat)
    ensures Of(a + b, op) == Of(a, op) + Of(b, op)
  {
    if b == [] {
      assert a + b == a;
    } else {
      OfConcat(a, b[..|b| - 1], op);
      assert (a + b)[..|a + b| - 1] == a + b[..|b| - 1];
    }
  }

  lemma {:induction false} OfLast(ws: seq<Write>, w: Write, op: nat)
    ensures Of(ws + [w], op) == Of(ws, op) + (if w.op == op then [w] else [])
  {
    assert (ws + [w])[..|ws + [w]| - 1] == ws;
  }

  lemma {:induction false} ApplyLast(d: seq<Block>, ws: seq<Write>, w: Write)
    ensures Apply(d, ws + [w]) == Put(Apply(d, ws), w.block, w.data)
  {
    assert (ws + [w])[..|ws + [w]| - 1] == ws;
  }

  /** Blocks that the later writes do not name keep what the earlier ones gave them. */
  lemma {:induction false} ApplyOutside(d: seq<Block>, ws: seq<Write>, more: seq<Write>, b: nat)
    requires forall w <- more :: w.block != b
    ensures At(Apply(d, ws + more), b) == At(Apply(d, ws), b)
  {
    if more == [] {
      assert ws + more == ws;
    } else {
      var m := more[..|more| - 1];
      assert ws + more == (ws + m) + [more[|more| - 1]];
      ApplyOutside(d, ws, m, b);
      ApplyLast(d, ws + m, more[|more| - 1]);
    }
  }

  lemma {:induction false} PutSized(d: seq<Block>, b: nat, v: Block)
    requires Sized(d) && |v| == BWORDS
    ensures Sized(Put(d, b, v))
  {
    forall x: nat | x < |d| ensures |At(Put(d, b, v), x)| == BWORDS {
      assert |At(d, x)| == BWORDS;
    }
  }

  lemma {:induction false} ApplySized(d: seq<Block>, ws: seq<Write>)
    requires Sized(d) && GoodWrites(ws)
    ensures Sized(Apply(d, ws))
  {
    if ws != [] {
      ApplySized(d, ws[..|ws| - 1]);
      var w := ws[|ws| - 1];
      assert |w.data| == BWORDS;
      PutSized(Apply(d, ws[..|ws| - 1]), w.block, w.data);
    }
  }

  // ----- preservation: Begin -----

  lemma {:induction false} BeginInv(c: Config, s: State, id: nat)
    requires GoodConfig(c) && Inv(c, s) && Enabled(c, s, Begin(id))
    ensures Inv(c, Next(c, s, Begin(id)))
  {
    hide GoodConfig, Holds, Sized, GoodList, Ids, Whole, Distinct, SlotsHold, HomesHold, Head, Apply;
    var s' := Next(c, s, Begin(id));
    BeginOps(s, s', id);
    hide OpInv;
  }

  lemma {:induction false} BeginOps(s: State, s': State, id: nat)
    requires OpInv(s) && id !in s.issued
    requires s'.active == s.active + [ActiveOp(id, 0)] && s'.issued == s.issued[id := []]
    requires s'.durable == s.durable && s'.pending == s.pending
    requires s'.waiting == s.waiting && s'.saved == s.saved && s'.lost == s.lost
    ensures OpInv(s')
  {
    IdsAppend(s.active, ActiveOp(id, 0));
    WholeAdd(s.durable, s.saved, s.issued, id);
    WholeAdd(s.pending, Ids(s.active) + s.waiting, s.issued, id);
    PartitionAdd(Ids(s.active), s.waiting, s.saved, s.lost, s.issued.Keys, id);
    hide Whole, Ids, Distinct, Partition;
    assert s'.issued.Keys == s.issued.Keys + {id};
    assert Ids(s'.active) + s'.waiting == Ids(s.active) + s.waiting + {id};
  }

  lemma {:induction false} PartitionAdd(a: set<nat>, b: set<nat>, c: set<nat>, d: set<nat>, all: set<nat>, id: nat)
    requires Partition(a, b, c, d, all) && id !in all
    ensures Partition(a + {id}, b, c, d, all + {id}) && id !in a && id !in b && id !in c
  {
  }

  /** An operation that has issued nothing yet may be counted in or out. */
  lemma {:induction false} WholeAdd(ws: seq<Write>, ids: set<nat>, issued: map<nat, seq<Write>>, id: nat)
    requires Whole(ws, ids, issued) && id !in issued
    ensures Whole(ws, ids + {id}, issued[id := []])
    ensures id !in ids ==> Whole(ws, ids, issued[id := []])
  {
    hide Of;
  }

  lemma {:induction false} IdsAppend(ops: seq<ActiveOp>, op: ActiveOp)
    requires Distinct(ops)
    ensures Ids(ops + [op]) == Ids(ops) + {op.id}
    ensures op.id !in Ids(ops) ==> Distinct(ops + [op])
  {
    var r := ops + [op];
    assert r[|ops|].id == op.id;
    assert forall k :: 0 <= k < |ops| ==> r[k] == ops[k];
    assert forall k :: 0 <= k < |ops| ==> ops[k].id in Ids(ops);
  }

  // ----- preservation: LogWrite -----

  lemma {:induction false} LogWriteInv(c: Config, s: State, k: nat, b: nat, v: Block)
    requires GoodConfig(c) && Inv(c, s) && Enabled(c, s, LogWrite(k, b, v))
    ensures Inv(c, Next(c, s, LogWrite(k, b, v)))
  {
    ActiveMeansQuiet(c, s);
    hide GoodConfig, DiskInv, PhaseInv, Ids, Distinct, Whole, Partition;
    var s' := Next(c, s, LogWrite(k, b, v));
    IdsUpdate(s.active, k, s'.active[k]);
    hide OpInv;
    LogWriteOps(s, s', k, Write(s.active[k].id, b, v));
    LogWriteDisk(c, s, s', Write(s.active[k].id, b, v));
  }

  /** While an operation is active nobody commits, so end_op's "log.committing" panic never fires. */
  lemma {:induction false} ActiveMeansQuiet(c: Config, s: State)
    requires Inv(c, s) && s.active != []
    ensures s.phase.Quiet? && !s.committing
    ensures s.lh == [] ==> s.pending == []
  {
    hide OpInv, Holds, SlotsHold, HomesHold, Sized, Apply, Head;
    assert s.pending != [] ==> s.pending[0].block in s.lh;
  }

  lemma {:induction false} LogWriteOps(s: State, s': State, k: nat, w: Write)
    requires OpInv(s) && k < |s.active| && w.op == s.active[k].id
    requires Distinct(s'.active) && Ids(s'.active) == Ids(s.active) && w.op in Ids(s.active)
    requires s'.issued == s.issued[w.op := Issued(s, w.op) + [w]]
    requires s'.durable == s.durable && s'.pending == s.pending + [w]
    requires s'.waiting == s.waiting && s'.saved == s.saved && s'.lost == s.lost
    ensures OpInv(s')
  {
    hide Ids, Distinct, Whole;
    PartitionIn(Ids(s.active), s.waiting, s.saved, s.lost, s.issued.Keys, w.op);
    hide Partition;
    WholeWrite(s.pending, Ids(s.active) + s.waiting, s.issued, w);
    WholeOther(s.durable, s.saved, s.issued, w.op, s'.issued[w.op]);
    assert s'.issued.Keys == s.issued.Keys;
  }

  lemma {:induction false} PartitionIn(a: set<nat>, b: set<nat>, c: set<nat>, d: set<nat>, all: set<nat>, id: nat)
    requires Partition(a, b, c, d, all) && id in a
    ensures id in all && id !in c
  {
  }

  lemma {:induction false} IdsUpdate(ops: seq<ActiveOp>, k: nat, op: ActiveOp)
    requires k < |ops| && op.id == ops[k].id
    ensures Ids(ops[k := op]) == Ids(ops) && op.id in Ids(ops)
    ensures Distinct(ops) ==> Distinct(ops[k := op])
  {
    assert forall j :: 0 <= j < |ops| ==> ops[k := op][j].id == ops[j].id;
  }

  lemma {:induction false} WholeWrite(ws: seq<Write>, ids: set<nat>, issued: map<nat, seq<Write>>, w: Write)
    requires Whole(ws, ids, issued) && w.op in ids && w.op in issued
    ensures Whole(ws + [w], ids, issued[w.op := issued[w.op] + [w]])
  {
    forall o: nat ensures Of(ws + [w], o) == Of(ws, o) + (if o == w.op then [w] else []) {
      OfLast(ws, w, o);
    }
    hide Of;
  }

  lemma {:induction false} WholeOther(ws: seq<Write>, ids: set<nat>, issued: map<nat, seq<Write>>, id: nat,
        v: seq<Write>)
    requires Whole(ws, ids, issued) && id !in ids
    ensures Whole(ws, ids, issued[id := v])
  {
    hide Of;
  }

  lemma {:induction false} LogWriteDisk(c: Config, s: State, s': State, w: Write)
    requires DiskInv(c, s) && PhaseInv(c, s) && s.phase.Quiet?
    requires Home(c, w.block) && |w.data| == BWORDS && |s.lh| < LOGSIZE && |s.lh| < c.size - 1
    requires s'.disk == s.disk && s'.phase == s.phase && s'.committing == s.committing
    requires s'.lh == if w.block in s.lh then s.lh else s.lh + [w.block]
    requires s'.durable == s.durable && s'.pending == s.pending + [w]
    ensures DiskInv(c, s') && PhaseInv(c, s')
  {
    hide Holds, Sized, Head, Apply;
  }

  // ----- preservation: End -----

  lemma {:induction false} EndInv(c: Config, s: State, k: nat)
    requires GoodConfig(c) && Inv(c, s) && Enabled(c, s, End(k))
    ensures Inv(c, Next(c, s, End(k)))
  {
    ActiveMeansQuiet(c, s);
    EndShape(c, s, k);
    var s' := Next(c, s, End(k));
    hide GoodConfig, DiskInv, PhaseInv, OpInv, Ids, Next;
    EndOps(s, s', k);
    EndDisk(c, s, s');
  }

  /** The three outcomes of end_op: others still active, nothing to commit, or commit. */
  lemma {:induction false} EndShape(c: Config, s: State, k: nat)
    requires Enabled(c, s, End(k))
    ensures var s' := Next(c, s, End(k));
      && s'.disk == s.disk && s'.lh == s.lh && s'.durable == s.durable && s'.pending == s.pending
      && s'.active == s.active[..k] + s.active[k + 1..] && s'.issued == s.issued && s'.lost == s.lost
      && s'.outstanding == s.outstanding - 1
      && if s.outstanding > 1 then
           s'.phase == s.phase && s'.committing == s.committing
           && s'.waiting == s.waiting + {s.active[k].id} && s'.saved == s.saved
         else if s.lh == [] then
           s'.phase == Finish && s'.committing && s'.waiting == {}
           && s'.saved == s.saved + (s.waiting + {s.active[k].id})
         else
           s'.phase == CopyToLog(0) && s'.committing
           && s'.waiting == s.waiting + {s.active[k].id} && s'.saved == s.saved
  {
  }

  lemma {:induction false} EndOps(s: State, s': State, k: nat)
    requires OpInv(s) && k < |s.active|
    requires s'.active == s.active[..k] + s.active[k + 1..] && s'.issued == s.issued
    requires s'.durable == s.durable && s'.pending == s.pending && s'.lost == s.lost
    requires
      || (s'.waiting == s.waiting + {s.active[k].id} && s'.saved == s.saved)
      || (s'.waiting == {} && s'.saved == s.saved + (s.waiting + {s.active[k].id}) &&
        s.pending == [] && |s.active| == 1)
    ensures OpInv(s')
  {
    var id := s.active[k].id;
    IdsRemove(s.active, k);
    assert |s.active| == 1 ==> Ids(s'.active) == {};
    hide Ids, Distinct, Whole;
    PartitionMove(Ids(s.active), s.waiting, s.saved, s.lost, s.issued.Keys, id);
    if s'.saved == s.saved {
      hide Partition;
      assert Ids(s'.active) + s'.waiting == Ids(s.active) + s.waiting;
    } else {
      assert Ids(s.active) + s.waiting == s.waiting + {id};
      hide Partition;
      WholeJoin(s.durable, s.saved, s.pending, s.waiting + {id}, s.issued);
      assert s.durable + s.pending == s.durable && Ids(s'.active) + s'.waiting == {};
    }
  }

  lemma {:induction false} PartitionMove(a: set<nat>, b: set<nat>, c: set<nat>, d: set<nat>, all: set<nat>, id: nat)
    requires Partition(a, b, c, d, all) && id in a
    ensures Partition(a - {id}, b + {id}, c, d, all)
    ensures a == {id} ==> Partition({}, {}, c + (b + {id}), d, all) && c !! b + {id}
    ensures (a - {id}) + (b + {id}) == a + b
  {
  }

  lemma {:induction false} IdsRemove(ops: seq<ActiveOp>, k: nat)
    requires k < |ops| && Distinct(ops)
    ensures Ids(ops[..k] + ops[k + 1..]) == Ids(ops) - {ops[k].id}
    ensures Distinct(ops[..k] + ops[k + 1..])
    ensures ops[k].id in Ids(ops)
  {
    var rest := ops[..k] + ops[k + 1..];
    assert forall i :: 0 <= i < |rest| ==> rest[i] == ops[if i < k then i else i + 1];
    forall o | o in Ids(ops) - {ops[k].id} ensures o in Ids(rest) {
      var i :| 0 <= i < |ops| && ops[i].id == o;
      assert rest[if i < k then i else i - 1].id == o;
    }
  }

  lemma {:induction false} EndDisk(c: Config, s: State, s': State)
    requires DiskInv(c, s) && PhaseInv(c, s) && s.phase.Quiet?
    requires s'.disk == s.disk && s'.lh == s.lh && s'.durable == s.durable && s'.pending == s.pending
    requires
      || (s'.phase == Quiet && !s'.committing)
      || (s'.phase == Finish && s'.committing && s.lh == [] && s.pending == [])
      || (s'.phase == CopyToLog(0) && s'.committing)
    ensures DiskInv(c, s') && PhaseInv(c, s')
  {
    hide Holds, Sized, Head, Apply;
  }

  // ----- preservation: Crash -----

  lemma {:induction false} CrashInv(c: Config, s: State)
    requires GoodConfig(c) && Inv(c, s)
    ensures Inv(c, Next(c, s, Crash))
  {
    var s' := Next(c, s, Crash);
    CrashOps(s, s');
    hide GoodConfig, OpInv, Holds, Sized, Head, Apply;
  }

  lemma {:induction false} CrashOps(s: State, s': State)
    requires OpInv(s)
    requires s'.active == [] && s'.issued == s.issued && s'.durable == s.durable && s'.pending == []
    requires s'.waiting == {} && s'.saved == s.saved && s'.lost == s.lost + Ids(s.active) + s.waiting
    ensures OpInv(s')
  {
    assert Ids(s'.active) == {};
    assert Ids(s'.active) + s'.waiting == {};
    WholeJoin(s.durable, s.saved, s.pending, Ids(s.active) + s.waiting, s.issued);
    hide Ids, Whole;
  }

  // ----- preservation: Advance -----

  lemma {:induction false} AdvanceInv(c: Config, s: State)
    requires GoodConfig(c) && Inv(c, s) && Enabled(c, s, Advance)
    ensures Inv(c, Next(c, s, Advance))
  {
    hide GoodConfig, Inv, NextAdvance;
    match s.phase
    case CopyToLog(t) => CopyInv(c, s);
    case WriteHead => WriteHeadInv(c, s);
    case Install(t) => InstallInv(c, s);
    case RecoverInstall(t) => InstallInv(c, s);
    case EraseHead => EraseInv(c, s);
    case RecoverErase => EraseInv(c, s);
    case Finish => FinishInv(c, s);
    case ReadHead => ReadHeadInv(c, s);
  }

  /** Except at the commit point, Advance leaves the operations alone. */
  ghost predicate SameOps(s: State, s': State)
    ensures SameOps(s, s') && OpInv(s) ==> OpInv(s')
  {
    && s'.active == s.active && s'.issued == s.issued && s'.durable == s.durable && s'.pending == s.pending
    && s'.waiting == s.waiting && s'.saved == s.saved && s'.lost == s.lost && s'.outstanding == s.outstanding
  }

  lemma {:induction false} CopyInv(c: Config, s: State)
    requires GoodConfig(c) && Inv(c, s) && s.phase.CopyToLog?
    ensures Inv(c, NextAdvance(c, s))
  {
    hide Holds, Sized, Head, Apply, SlotsHold, GoodList, OpInv, Within, GoodWrites;
    var s' := NextAdvance(c, s);
    if s.phase.tail < |s.lh| {
      CopyDisk(c, s, s', s.phase.tail);
      hide DiskInv, PhaseInv;
    }
    assert SameOps(s, s') && OpInv(s');
  }

  lemma {:induction false} CopyDisk(c: Config, s: State, s': State, t: nat)
    requires GoodConfig(c) && DiskInv(c, s) && PhaseInv(c, s) && s.phase == CopyToLog(t) && t < |s.lh|
    requires s' == s.(disk := Put(s.disk, Slot(c, t), Latest(c, s, s.lh[t])), phase := CopyToLog(t + 1))
    ensures DiskInv(c, s') && PhaseInv(c, s')
  {
    var m := Apply(c.init, s.durable + s.pending);
    ApplySized(c.init, s.durable + s.pending);
    assert At(s'.disk, c.start) == At(s.disk, c.start);
    var b := s.lh[t];
    assert Home(c, b);
    hide Head, Apply;
    PutSized(s.disk, Slot(c, t), At(m, b));
    assert RestHolds(c, s'.disk, [], Apply(c.init, s.durable)) by {
      assert RestHolds(c, s.disk, [], Apply(c.init, s.durable));
      hide Sized;
    }
    assert SlotsHold(c, s'.disk, s.lh, t + 1, m) by { hide Sized; }
  }

  lemma {:induction false} WriteHeadInv(c: Config, s: State)
    requires GoodConfig(c) && Inv(c, s) && s.phase.WriteHead?
    ensures Inv(c, NextAdvance(c, s))
  {
    var s' := NextAdvance(c, s);
    WriteHeadDisk(c, s, s');
    WriteHeadOps(s, s');
    hide DiskInv, PhaseInv, OpInv;
  }

  lemma {:induction false} WriteHeadDisk(c: Config, s: State, s': State)
    requires GoodConfig(c) && DiskInv(c, s) && PhaseInv(c, s) && s.phase.WriteHead?
    requires s'.disk == Put(s.disk, c.start, PutHead(At(s.disk, c.start), s.lh)) && s'.phase == Install(0)
    requires s'.lh == s.lh && s'.committing == s.committing
    requires s'.durable == s.durable + s.pending && s'.pending == []
    ensures DiskInv(c, s') && PhaseInv(c, s')
  {
    HeadRoundTrip(At(s.disk, c.start), s.lh);
    hide Head, PutHead;
    var m, m' := Apply(c.init, s.durable), Apply(c.init, s'.durable);
    forall b: nat | Home(c, b) && b !in s.lh ensures At(s'.disk, b) == At(m', b) {
      ApplyOutside(c.init, s.durable, s.pending, b);
      assert At(s.disk, b) == At(m, b);
    }
    hide Apply;
    PutSized(s.disk, c.start, PutHead(At(s.disk, c.start), s.lh));
    assert SlotsHold(c, s'.disk, s.lh, |s.lh|, m');
    assert RestHolds(c, s'.disk, s.lh, m');
  }

  lemma {:induction false} WriteHeadOps(s: State, s': State)
    requires OpInv(s) && s.active == [] && s'.active == [] && s'.issued == s.issued
    requires s'.durable == s.durable + s.pending && s'.pending == []
    requires s'.waiting == {} && s'.saved == s.saved + s.waiting && s'.lost == s.lost
    ensures OpInv(s')
  {
    assert Ids(s.active) == {};
    WholeJoin(s.durable, s.saved, s.pending, s.waiting, s.issued);
    hide Whole, Ids;
    assert Ids(s.active) + s.waiting == s.waiting && Ids(s'.active) + s'.waiting == {};
  }

  lemma {:induction false} WholeJoin(ws: seq<Write>, ids: set<nat>, ws': seq<Write>, ids': set<nat>,
        issued: map<nat, seq<Write>>)
    requires Whole(ws, ids, issued) && Whole(ws', ids', issued) && ids !! ids'
    ensures Whole(ws + ws', ids + ids', issued) && Whole([], {}, issued)
  {
    forall o: nat ensures Of(ws + ws', o) == Of(ws, o) + Of(ws', o) {
      OfConcat(ws, ws', o);
    }
  }

  lemma {:induction false} InstallInv(c: Config, s: State)
    requires GoodConfig(c) && Inv(c, s) && (s.phase.Install? || s.phase.RecoverInstall?)
    ensures Inv(c, NextAdvance(c, s))
  {
    hide Holds, Sized, Head, Apply, HomesHold, GoodList, OpInv, Within, GoodWrites;
    var s' := NextAdvance(c, s);
    if s.phase.tail < |s.lh| {
      InstallDisk(c, s, s');
      hide DiskInv, PhaseInv;
    }
    assert SameOps(s, s') && OpInv(s');
  }

  lemma {:induction false} InstallDisk(c: Config, s: State, s': State)
    requires GoodConfig(c) && DiskInv(c, s) && PhaseInv(c, s)
    requires (s.phase.Install? || s.phase.RecoverInstall?) && s.phase.tail < |s.lh|
    requires s'.disk == Put(s.disk, s.lh[s.phase.tail], At(s.disk, Slot(c, s.phase.tail)))
    requires s'.phase == s.phase.(tail := s.phase.tail + 1)
    requires s'.lh == s.lh && s'.committing == s.committing && s'.durable == s.durable && s'.pending == s.pending
    ensures DiskInv(c, s') && PhaseInv(c, s')
  {
    hide Apply, Head, Holds, HomesHold, Within, GoodWrites;
    var t := s.phase.tail;
    assert Home(c, s.lh[t]);
    PutSized(s.disk, s.lh[t], At(s.disk, Slot(c, t)));
    hide Sized, GoodList;
    assert At(s'.disk, c.start) == At(s.disk, c.start);
    InstallHolds(c, s.disk, Apply(c.init, s.durable), s.lh, t);
  }

  lemma {:induction false} InstallHolds(c: Config, d: seq<Block>, m: seq<Block>, hs: seq<nat>, t: nat)
    requires |d| == |c.init| && Holds(c, d, hs, m) && t < |hs| && HomesHold(d, hs, t, m)
    ensures var d' := Put(d, hs[t], At(d, Slot(c, t))); Holds(c, d', hs, m) && HomesHold(d', hs, t + 1, m)
  {
    var d' := Put(d, hs[t], At(d, Slot(c, t)));
    assert Home(c, hs[t]);
    assert SlotsHold(c, d', hs, |hs|, m);
  }

  lemma {:induction false} EraseInv(c: Config, s: State)
    requires GoodConfig(c) && Inv(c, s) && (s.phase.EraseHead? || s.phase.RecoverErase?)
    ensures Inv(c, NextAdvance(c, s))
  {
    var s' := NextAdvance(c, s);
    assert SameOps(s, s');
    EraseDisk(c, s, s');
    hide DiskInv, PhaseInv;
  }

  lemma {:induction false} EraseDisk(c: Config, s: State, s': State)
    requires GoodConfig(c) && DiskInv(c, s) && PhaseInv(c, s) && (s.phase.EraseHead? || s.phase.RecoverErase?)
    requires s'.disk == Put(s.disk, c.start, PutHead(At(s.disk, c.start), [])) && s'.lh == []
    requires s'.phase == if s.phase.EraseHead? then Finish else Quiet
    requires s'.committing == s.committing && s'.durable == s.durable && s'.pending == s.pending
    ensures DiskInv(c, s') && PhaseInv(c, s')
  {
    HeadRoundTrip(At(s.disk, c.start), []);
    hide Head, PutHead, Apply, HomesHold, RestHolds, SlotsHold, Within, GoodWrites;
    PutSized(s.disk, c.start, PutHead(At(s.disk, c.start), []));
    hide Sized;
    EraseHolds(c, s.disk, PutHead(At(s.disk, c.start), []), Apply(c.init, s.durable), s.lh);
    hide GoodList, Holds;
    assert s.pending == [];
    assert At(s'.disk, c.start) == PutHead(At(s.disk, c.start), []);
    hide At, Put;
  }

  lemma {:induction false} EraseHolds(c: Config, d: seq<Block>, v: Block, m: seq<Block>, hs: seq<nat>)
    requires Holds(c, d, hs, m) && HomesHold(d, hs, |hs|, m) && 1 <= c.size
    ensures Holds(c, Put(d, c.start, v), [], m) && GoodList(c, [])
  {
    var d' := Put(d, c.start, v);
    forall b: nat | Home(c, b) ensures At(d', b) == At(m, b) {
      if b in hs {
        var i: nat :| i < |hs| && hs[i] == b;
        assert At(d, hs[i]) == At(m, hs[i]);
      }
    }
  }

  lemma {:induction false} FinishInv(c: Config, s: State)
    requires GoodConfig(c) && Inv(c, s) && s.phase.Finish?
    ensures Inv(c, NextAdvance(c, s))
  {
    var s' := NextAdvance(c, s);
    assert SameOps(s, s');
    hide GoodConfig, Holds, Sized, Head, Apply, Ids, Whole, Distinct;
  }

  lemma {:induction false} ReadHeadInv(c: Config, s: State)
    requires GoodConfig(c) && Inv(c, s) && s.phase.ReadHead?
    ensures Inv(c, NextAdvance(c, s))
  {
    var s' := NextAdvance(c, s);
    assert SameOps(s, s');
    hide Sized, Head, Apply, Ids, Whole, Distinct, SlotsHold, RestHolds;
  }

  // ----- recovery -----

  /** Copy log slots t, t+1, ... to the home blocks listed in hs (install_trans). */
  function Replay(c: Config, d: seq<Block>, hs: seq<nat>, t: nat): (r: seq<Block>)
    ensures |r| == |d|
    decreases |hs| - t
  {
    if t >= |hs| then d else Replay(c, Put(d, hs[t], At(d, Slot(c, t))), hs, t + 1)
  }

  ghost predicate GoodDisk(c: Config, d: seq<Block>) {
    |d| == |c.init| && GoodHead(At(d, c.start)) && GoodList(c, DiskHead(c, d))
  }

  /** The whole of recover_from_log, run on disk d without interruption. */
  function Recover(c: Config, d: seq<Block>): (r: seq<Block>)
    ensures |r| == |d|
  {
    Put(Replay(c, d, DiskHead(c, d), 0), c.start, PutHead(At(d, c.start), []))
  }

  /** Replay gives each listed block its log slot and leaves every other block alone. */
  lemma {:induction false} ReplayAt(c: Config, d: seq<Block>, hs: seq<nat>, t: nat)
    requires GoodList(c, hs) && |d| == |c.init| && c.start + c.size <= |d| && t <= |hs|
    ensures forall i: nat :: t <= i < |hs| ==> At(Replay(c, d, hs, t), hs[i]) == At(d, Slot(c, i))
    ensures forall b: nat :: b !in hs[t..] ==> At(Replay(c, d, hs, t), b) == At(d, b)
    decreases |hs| - t
  {
    if t < |hs| {
      assert Home(c, hs[t]);
      var d' := Put(d, hs[t], At(d, Slot(c, t)));
      ReplayAt(c, d', hs, t + 1);
      assert hs[t..] == [hs[t]] + hs[t + 1..];
      assert hs[t] !in hs[t + 1..];
      var r := Replay(c, d', hs, t + 1);
      assert Replay(c, d, hs, t) == r;
      hide Replay;
      forall i: nat | t <= i < |hs| ensures At(r, hs[i]) == At(d, Slot(c, i)) {
        assert i > t ==> At(r, hs[i]) == At(d', Slot(c, i));
      }
    }
  }

  lemma {:induction false} RecoverHolds(c: Config, d: seq<Block>, m: seq<Block>, b: nat)
    requires GoodConfig(c) && GoodDisk(c, d) && Holds(c, d, DiskHead(c, d), m) && Home(c, b)
    ensures At(Recover(c, d), b) == At(m, b)
  {
    var hs := DiskHead(c, d);
    ReplayAt(c, d, hs, 0);
    hide Head, Replay;
    if b in hs {
      var i: nat :| i < |hs| && hs[i] == b;
      assert At(d, Slot(c, i)) == At(m, hs[i]);
    } else {
      assert hs[0..] == hs;
    }
  }

  /** Recovery may be repeated: it leaves a recovered disk as it is. */
  lemma {:induction false} RecoverIdempotent(c: Config, d: seq<Block>)
    requires GoodConfig(c) && GoodDisk(c, d)
    ensures GoodDisk(c, Recover(c, d)) && Recover(c, Recover(c, d)) == Recover(c, d)
  {
    var r, h := Recover(c, d), At(d, c.start);
    HeadRoundTrip(h, []);
    assert At(r, c.start) == PutHead(h, []);
    assert DiskHead(c, r) == [];
    assert PutHead(PutHead(h, []), []) == PutHead(h, []);
  }

  /** Recovery may be cut short by a crash after any t installs: running it again gives the same disk. */
  lemma {:induction false} RecoverInterrupted(c: Config, d: seq<Block>, d': seq<Block>, t: nat)
    requires GoodConfig(c) && GoodDisk(c, d) && |d'| == |d| && t <= |DiskHead(c, d)|
    requires forall i: nat :: i < t ==> At(d', DiskHead(c, d)[i]) == At(d, Slot(c, i))
    requires forall b: nat :: b !in DiskHead(c, d)[..t] ==> At(d', b) == At(d, b)
    ensures GoodDisk(c, d') && Recover(c, d') == Recover(c, d)
  {
    var hs := DiskHead(c, d);
    assert !Home(c, c.start);
    assert c.start !in hs[..t];
    ReplayAt(c, d, hs, 0);
    ReplayAt(c, d', hs, 0);
    var r, r' := Replay(c, d, hs, 0), Replay(c, d', hs, 0);
    assert DiskHead(c, d') == hs;
    hide Head, PutHead, Replay;
    forall b: nat | b < |d| ensures At(r, b) == At(r', b) {
      if b in hs {
        var i: nat :| i < |hs| && hs[i] == b;
        assert !Home(c, Slot(c, i));
        assert Slot(c, i) !in hs[..t];
      } else {
        assert b !in hs[..t] && b !in hs[0..];
      }
    }
    assert forall b: nat :: b < |d| ==> At(r, b) == r[b] && At(r', b) == r'[b];
    assert r == r';
  }

  // ----- the main theorem: crash atomicity -----

  /**
   Whatever the operations did, however they interleaved and however often the
   machine crashed: recovering from the present disk gives the effect of the
   durable writes, and the durable writes consist of whole operations only.
   */
  lemma {:induction false} CrashAtomicity(c: Config, evs: seq<Event>)
    requires GoodConfig(c) && Legal(c, evs)
    ensures var s := Run(c, evs);
      && (forall b: nat :: Home(c, b) ==> At(Recover(c, s.disk), b) == At(Apply(c.init, s.durable), b))
      && (forall o <- s.issued :: Of(s.durable, o) == if o in s.saved then s.issued[o] else [])
      && s.saved !! Ids(s.active) && s.saved !! s.lost
  {
    RunInv(c, evs);
    var s := Run(c, evs);
    hide Run, Legal, Recover;
    forall b: nat | Home(c, b) ensures At(Recover(c, s.disk), b) == At(Apply(c.init, s.durable), b) {
      RecoverHolds(c, s.disk, Apply(c.init, s.durable), b);
    }
    hide Head, Apply, Holds;
  }

  lemma {:induction false} LegalPrefix(c: Config, evs: seq<Event>, more: seq<Event>)
    requires Legal(c, evs + more)
    ensures Legal(c, evs)
  {
    hide Enabled;
    if more == [] {
      assert evs + more == evs;
    } else {
      assert (evs + more)[..|evs + more| - 1] == evs + more[..|more| - 1];
      LegalPrefix(c, evs, more[..|more| - 1]);
    }
  }

  /** What is durable stays durable, in the same order, through everything that follows, crashes included. */
  lemma {:induction false} DurableForever(c: Config, evs: seq<Event>, more: seq<Event>)
    requires Legal(c, evs) && Legal(c, evs + more)
    ensures Run(c, evs).durable <= Run(c, evs + more).durable
    ensures Run(c, evs).saved <= Run(c, evs + more).saved
    ensures Run(c, evs).lost <= Run(c, evs + more).lost
  {
    if more == [] {
      assert evs + more == evs;
    } else {
      var m := more[..|more| - 1];
      assert (evs + more)[..|evs + more| - 1] == evs + m;
      assert evs + more == (evs + m) + more[|more| - 1..];
      LegalPrefix(c, evs + m, more[|more| - 1..]);
      hide Next, Ready, Panics;
      DurableForever(c, evs, m);
      StepKeepsDurable(c, Run(c, evs + m), more[|more| - 1]);
    }
  }

  lemma {:induction false} StepKeepsDurable(c: Config, s: State, e: Event)
    requires Enabled(c, s, e)
    ensures s.durable <= Next(c, s, e).durable && s.saved <= Next(c, s, e).saved && s.lost <= Next(c, s, e).lost
  {
    hide Ids, Head, Apply;
    match e
    case Begin(_) =>
    case LogWrite(_, _, _) =>
    case End(_) =>
    case Advance =>
    case Crash =>
  }

  /** When the last end_op has returned, every operation not lost to a crash is durable and installed. */
  lemma {:induction false} IdleMeansDurable(c: Config, evs: seq<Event>)
    requires GoodConfig(c) && Legal(c, evs)
    requires var s := Run(c, evs); s.outstanding == 0 && s.phase.Quiet?
    ensures var s := Run(c, evs);
      && s.issued.Keys == s.saved + s.lost
      && (forall b: nat :: Home(c, b) ==> At(s.disk, b) == At(Apply(c.init, s.durable), b))
  {
    RunInv(c, evs);
    var s := Run(c, evs);
    assert Ids(s.active) == {};
    hide Run, Legal, Ids, Apply, Head;
    assert RestHolds(c, s.disk, [], Apply(c.init, s.durable));
  }

  /** n steps of commit() or recover_from_log() without interruption. */
  function Steps(c: Config, s: State, n: nat): State
    decreases n
  {
    if n == 0 then s else Steps(c, NextAdvance(c, s), n - 1)
  }

  lemma {:induction false} RecoverLoop(c: Config, s: State, t: nat)
    requires s.phase == RecoverInstall(t) && t <= |s.lh|
    ensures var s' := Steps(c, s, |s.lh| - t + 2); var r := Replay(c, s.disk, s.lh, t);
      s'.phase.Quiet? && s'.disk == Put(r, c.start, PutHead(At(r, c.start), []))
    decreases |s.lh| - t
  {
    if t == |s.lh| {
      var s1 := NextAdvance(c, s);
      assert Steps(c, s1, 1) == NextAdvance(c, s1);
    } else {
      hide PutHead;
      RecoverLoop(c, NextAdvance(c, s), t + 1);
    }
  }

  /** After any crash, recover_from_log run undisturbed computes Recover and reopens the log. */
  lemma {:induction false} RecoveryCompletes(c: Config, evs: seq<Event>)
    requires GoodConfig(c) && Legal(c, evs) && Run(c, evs).phase.ReadHead?
    ensures var s := Run(c, evs); var s' := Steps(c, s, |DiskHead(c, s.disk)| + 3);
      s'.phase.Quiet? && s'.disk == Recover(c, s.disk)
  {
    var s := Run(c, evs);
    var hs := DiskHead(c, s.disk);
    RunInv(c, evs);
    assert GoodList(c, hs) && |s.disk| == |c.init|;
    hide Inv, Legal, Run, Head, PutHead;
    RecoverLoop(c, NextAdvance(c, s), 0);
    assert !Home(c, c.start);
    ReplayAt(c, s.disk, hs, 0);
    assert c.start !in hs[0..];
  }

  lemma {:induction false} Extend(c: Config, evs: seq<Event>, e: Event)
    requires Legal(c, evs) && Enabled(c, Run(c, evs), e)
    ensures Legal(c, evs + [e]) && Run(c, evs + [e]) == Next(c, Run(c, evs), e)
  {
    hide Enabled, Next;
    assert (evs + [e])[..|evs + [e]| - 1] == evs;
  }
}
