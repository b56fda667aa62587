/**
 Log space: begin_op reserves MAXOPBLOCKS slots for each operation. When every
 operation stays within its reservation the log never overflows LOGSIZE; whether
 log_write's panic can fire depends on the size that mkfs gave the log.
 */
module LogSpace {
  import opened Log

  /** Every operation of the run adds at most MAXOPBLOCKS new blocks to the log. */
  ghost predicate Bounded(c: Config, evs: seq<Event>)
    requires Legal(c, evs)
  {
    evs == [] || (
      var front, e := evs[..|evs| - 1], evs[|evs| - 1];
      && Bounded(c, front)
      && (e.LogWrite? && e.block !in Run(c, front).lh ==> Run(c, front).active[e.k].used < MAXOPBLOCKS))
  }

  ghost predicate Reserved(s: State) {
    && |s.lh| + Unused(s.active) <= LOGSIZE
    && (forall k :: 0 <= k < |s.active| ==> s.active[k].used <= MAXOPBLOCKS)
  }

  /** Logged blocks plus the reservations not yet used fit the log in every reachable state. */
  lemma {:induction false} Reservation(c: Config, evs: seq<Event>)
    requires GoodConfig(c) && Legal(c, evs) && Bounded(c, evs)
    ensures Reserved(Run(c, evs))
  {
    if evs != [] {
      var front, e := evs[..|evs| - 1], evs[|evs| - 1];
      Reservation(c, front);
      RunInv(c, front);
      hide Inv, Next, Reserved;
      ReservationStep(c, Run(c, front), e);
    }
  }

  lemma {:induction false} ReservationStep(c: Config, s: State, e: Event)
    requires GoodConfig(c) && Inv(c, s) && Enabled(c, s, e) && Reserved(s)
    requires e.LogWrite? && e.block !in s.lh ==> s.active[e.k].used < MAXOPBLOCKS
    ensures Reserved(Next(c, s, e))
  {
    hide OpInv, DiskInv, Head, Apply;
    match e
    case Begin(id) =>
      UnusedAppend(s.active, ActiveOp(id, 0));
      UnusedBound(s.active);
      hide Unused;
    case LogWrite(k, b, v) =>
      UnusedUpdate(s.active, k, Next(c, s, e).active[k]);
      hide PhaseInv, CountInv, Ids;
    case End(k) =>
      UnusedRemove(s.active, k);
      EndShape(c, s, k);
      hide Next, Unused, PhaseInv;
    case Advance => AdvanceSpace(c, s);
    case Crash =>
  }

  lemma {:induction false} AdvanceSpace(c: Config, s: State)
    requires GoodConfig(c) && Inv(c, s) && Enabled(c, s, Advance) && Reserved(s)
    ensures Reserved(Next(c, s, Advance))
  {
    hide OpInv, SlotsHold, HomesHold, RestHolds, Sized, Apply, Head, Put, PutHead;
    assert s.active == [];
    assert |DiskHead(c, s.disk)| <= LOGSIZE;
    hide PhaseInv, DiskInv;
  }

  lemma {:induction false} UnusedBound(ops: seq<ActiveOp>)
    ensures Unused(ops) <= |ops| * MAXOPBLOCKS
  {
    if ops != [] { UnusedBound(ops[1..]); }
  }

  lemma {:induction false} UnusedAppend(ops: seq<ActiveOp>, op: ActiveOp)
    ensures Unused(ops + [op]) == Unused(ops) + Unused([op])
  {
    if ops != [] {
      assert (ops + [op])[1..] == ops[1..] + [op];
      UnusedAppend(ops[1..], op);
    }
  }

  lemma {:induction false} UnusedUpdate(ops: seq<ActiveOp>, k: nat, op: ActiveOp)
    requires k < |ops|
    ensures Unused(ops[k := op]) == Unused(ops) - Unused([ops[k]]) + Unused([op])
  {
    if k > 0 {
      assert ops[k := op][1..] == ops[1..][k - 1 := op];
      UnusedUpdate(ops[1..], k - 1, op);
    }
  }

  lemma {:induction false} UnusedRemove(ops: seq<ActiveOp>, k: nat)
    requires k < |ops|
    ensures Unused(ops[..k] + ops[k + 1..]) == Unused(ops) - Unused([ops[k]])
  {
    if k == 0 {
      assert ops[..0] + ops[1..] == ops[1..];
    } else {
      assert (ops[..k] + ops[k + 1..])[1..] == ops[1..][..k - 1] + ops[1..][k..];
      UnusedRemove(ops[1..], k - 1);
    }
  }

  /** An operation that has not used up its reservation. */
  ghost predicate HasRoom(c: Config, s: State, e: Event) {
    e.LogWrite? && Ready(c, s, e) && s.active[e.k].used < MAXOPBLOCKS
  }

  ghost predicate GuardFires(c: Config, evs: seq<Event>, e: Event) {
    Legal(c, evs) && Bounded(c, evs) && HasRoom(c, Run(c, evs), e) && Panics(c, Run(c, evs), e)
  }

  lemma {:induction false} GuardSafe(c: Config, evs: seq<Event>, e: Event)
    requires GoodConfig(c) && c.size - 1 >= LOGSIZE
    ensures !GuardFires(c, evs, e)
  {
    if Legal(c, evs) && Bounded(c, evs) && HasRoom(c, Run(c, evs), e) {
      var s := Run(c, evs);
      Reservation(c, evs);
      RunInv(c, evs);
      hide Run, Legal, Bounded, OpInv, DiskInv, PhaseInv;
      UnusedRemove(s.active, e.k);
    }
  }

  // ----- the guard does fire on smaller logs -----

  const OPEN3: seq<Event> := [Advance, Advance, Advance, Begin(0), Begin(1), Begin(2)]

  /** LOGSIZE distinct home blocks. */
  ghost predicate Spread(c: Config, hs: seq<nat>) {
    && |hs| == LOGSIZE
    && (forall i :: 0 <= i < |hs| ==> Home(c, hs[i]))
    && (forall i, j :: 0 <= i < j < |hs| ==> hs[i] != hs[j])
  }

  /** The events of boot, of opening three operations and of logging the first n blocks of hs. */
  ghost function FillEvents(c: Config, hs: seq<nat>, n: nat): seq<Event>
    requires Spread(c, hs) && n <= LOGSIZE
  {
    if n == 0 then OPEN3
    else FillEvents(c, hs, n - 1) + [FillEvent(c, hs, n - 1)]
  }

  ghost function FillEvent(c: Config, hs: seq<nat>, n: nat): Event
    requires Spread(c, hs) && n < LOGSIZE
  {
    LogWrite(n / MAXOPBLOCKS, hs[n], At(c.init, c.start))
  }

  /** The state that FillEvents reaches. */
  ghost predicate Filled(s: State, hs: seq<nat>, n: nat) {
    && n <= |hs| && s.lh == hs[..n] && s.outstanding == 3 && |s.active| == 3
    && (forall k :: 0 <= k < 3 ==> s.active[k].used == FillUsed(n, k))
  }

  function FillUsed(n: nat, k: int): nat {
    if n <= k * MAXOPBLOCKS then 0
    else if n >= (k + 1) * MAXOPBLOCKS then MAXOPBLOCKS
    else n - k * MAXOPBLOCKS
  }

  /** evs is legal and bounded, and so is its extension by e. */
  lemma {:induction false} BoundedExtend(c: Config, evs: seq<Event>, e: Event)
    requires Legal(c, evs) && Bounded(c, evs) && Enabled(c, Run(c, evs), e)
    requires e.LogWrite? && e.block !in Run(c, evs).lh ==> Run(c, evs).active[e.k].used < MAXOPBLOCKS
    ensures Legal(c, evs + [e]) && Bounded(c, evs + [e]) && Run(c, evs + [e]) == Next(c, Run(c, evs), e)
  {
    hide Next;
    Extend(c, evs, e);
    hide Run, Enabled, Legal;
    assert (evs + [e])[..|evs + [e]| - 1] == evs;
  }

  /** Booting an unused disk takes three steps of recovery. */
  lemma {:induction false} FillBoot(c: Config)
    requires GoodConfig(c)
    ensures var evs := [Advance, Advance, Advance];
      && Legal(c, evs) && Bounded(c, evs)
      && var s := Run(c, evs);
         s.phase.Quiet? && s.lh == [] && !s.committing && s.outstanding == 0 && s.active == [] && s.issued == map[]
  {
    assert DiskHead(c, c.init) == [];
    var s1 := Next(c, Init(c), Advance);
    BoundedExtend(c, [], Advance);
    assert [] + [Advance] == [Advance];
    hide Legal, Run, Bounded, Head, PutHead, Put;
    var s2 := Next(c, s1, Advance);
    assert [Advance] + [Advance] == [Advance, Advance];
    BoundedExtend(c, [Advance], Advance);
    BoundedExtend(c, [Advance, Advance], Advance);
    assert [Advance, Advance] + [Advance] == [Advance, Advance, Advance];
  }

  lemma {:induction false} FillBegin(c: Config, evs: seq<Event>, id: nat)
    requires Legal(c, evs) && Bounded(c, evs) && id < 3
    requires var s := Run(c, evs);
      s.phase.Quiet? && s.lh == [] && !s.committing && s.outstanding == id && id !in s.issued
    ensures Legal(c, evs + [Begin(id)]) && Bounded(c, evs + [Begin(id)])
    ensures var s, s' := Run(c, evs), Run(c, evs + [Begin(id)]);
      && s'.phase.Quiet? && s'.lh == [] && !s'.committing && s'.outstanding == id + 1
      && s'.active == s.active + [ActiveOp(id, 0)] && s'.issued.Keys == s.issued.Keys + {id}
  {
    hide Legal, Run, Bounded;
    BoundedExtend(c, evs, Begin(id));
  }

  lemma {:induction false} FillStart(c: Config, hs: seq<nat>)
    requires GoodConfig(c) && Spread(c, hs)
    ensures Legal(c, OPEN3) && Bounded(c, OPEN3)
    ensures Filled(Run(c, OPEN3), hs, 0)
  {
    var a := [Advance, Advance, Advance];
    FillBoot(c);
    hide Legal, Run, Bounded;
    FillBegin(c, a, 0);
    FillBegin(c, a + [Begin(0)], 1);
    FillBegin(c, a + [Begin(0)] + [Begin(1)], 2);
    assert a + [Begin(0)] + [Begin(1)] + [Begin(2)] == OPEN3;
  }

  lemma {:induction false} FillStep(c: Config, s: State, hs: seq<nat>, n: nat)
    requires GoodConfig(c) && Spread(c, hs) && n < LOGSIZE && n < c.size - 1 && Filled(s, hs, n)
    ensures var e := FillEvent(c, hs, n);
      && Enabled(c, s, e) && s.active[e.k].used < MAXOPBLOCKS && hs[n] !in s.lh && Filled(Next(c, s, e), hs, n + 1)
  {
    assert hs[n] !in hs[..n];
    assert hs[..n] + [hs[n]] == hs[..n + 1];
    assert |At(c.init, c.start)| == BWORDS;
  }

  lemma {:induction false} Fill(c: Config, hs: seq<nat>, n: nat)
    requires GoodConfig(c) && Spread(c, hs) && n <= LOGSIZE && n <= c.size - 1
    ensures Legal(c, FillEvents(c, hs, n)) && Bounded(c, FillEvents(c, hs, n))
    ensures Filled(Run(c, FillEvents(c, hs, n)), hs, n)
  {
    hide Legal, Run, Bounded, Filled, Next, GoodConfig, Spread;
    if n == 0 {
      FillStart(c, hs);
    } else {
      Fill(c, hs, n - 1);
      var front := FillEvents(c, hs, n - 1);
      FillStep(c, Run(c, front), hs, n - 1);
      BoundedExtend(c, front, FillEvent(c, hs, n - 1));
    }
  }

  /** On a log of n < LOGSIZE slots, the guard fires after n blocks. */
  lemma {:induction false} FillFires(c: Config, hs: seq<nat>)
    requires GoodConfig(c) && Spread(c, hs) && c.size - 1 < LOGSIZE
    ensures GuardFires(c, FillEvents(c, hs, c.size - 1), FillEvent(c, hs, c.size - 1))
  {
    var n := c.size - 1;
    Fill(c, hs, n);
    hide Legal, Run, Bounded;
    assert |At(c.init, c.start)| == BWORDS;
  }

  /**
   The panic guard of log_write is safe for operations within their reservation
   exactly when the log has a slot for each of the LOGSIZE blocks that begin_op
   admits, i.e. when log.size - 1 >= LOGSIZE.
   */
  lemma {:induction false} GuardExact(c: Config, hs: seq<nat>)
    requires GoodConfig(c) && Spread(c, hs)
    ensures (forall evs, e :: !GuardFires(c, evs, e)) <==> c.size - 1 >= LOGSIZE
  {
    hide GuardFires;
    if c.size - 1 >= LOGSIZE {
      forall evs, e ensures !GuardFires(c, evs, e) { GuardSafe(c, evs, e); }
    } else {
      FillFires(c, hs);
    }
  }

  /** mkfs gives the log LOGSIZE blocks, header included: the guard does fire on its images. */
  lemma {:induction false} MkfsLogTooSmall(c: Config, hs: seq<nat>) returns (evs: seq<Event>, e: Event)
    requires GoodConfig(c) && c.size == LOGSIZE && Spread(c, hs)
    ensures GuardFires(c, evs, e)
  {
    hide GuardFires;
    FillFires(c, hs);
    evs, e := FillEvents(c, hs, c.size - 1), FillEvent(c, hs, c.size - 1);
  }

  /** Even on a large log, rewriting an already logged block panics once LOGSIZE blocks are logged. */
  lemma {:induction false} AbsorptionPanics(c: Config, hs: seq<nat>) returns (evs: seq<Event>, e: Event)
    requires GoodConfig(c) && c.size - 1 >= LOGSIZE && Spread(c, hs)
    ensures Legal(c, evs) && Bounded(c, evs) && Ready(c, Run(c, evs), e)
    ensures e.LogWrite? && e.block in Run(c, evs).lh && Panics(c, Run(c, evs), e)
  {
    hide Legal, Run, Bounded;
    Fill(c, hs, LOGSIZE);
    evs, e := FillEvents(c, hs, LOGSIZE), LogWrite(0, hs[0], At(c.init, c.start));
    assert hs[0] in hs[..LOGSIZE];
    assert |At(c.init, c.start)| == BWORDS;
  }

  /**
   On a log with a slot for each of the LOGSIZE blocks, log_write panics in a
   bounded run exactly when LOGSIZE blocks are logged; then every active
   operation has used up its reservation, so the write can only be a repeated one.
   */
  lemma {:induction false} PanicExact(c: Config, evs: seq<Event>, e: Event)
    requires GoodConfig(c) && c.size - 1 >= LOGSIZE && Legal(c, evs) && Bounded(c, evs)
    requires e.LogWrite? && Ready(c, Run(c, evs), e)
    ensures Panics(c, Run(c, evs), e) <==> |Run(c, evs).lh| == LOGSIZE
    ensures Panics(c, Run(c, evs), e) ==> Unused(Run(c, evs).active) == 0
    ensures Panics(c, Run(c, evs), e) ==> Run(c, evs).active[e.k].used == MAXOPBLOCKS
  {
    Reservation(c, evs);
    RunInv(c, evs);
    UnusedRemove(Run(c, evs).active, e.k);
    hide Legal, Run, Bounded, DiskInv, OpInv, PhaseInv;
  }
}
