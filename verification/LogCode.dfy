/**
 The code of kernel/log.c, loops included, run against a disk and a buffer
 cache. Every bwrite is recorded as one step of the protocol in module Log, so
 each method is proved to be a run of that protocol; CrashAtomicity then holds
 at every point where the power may fail, inside the loops too.
 */
module LogCode {
  import opened Log

  /** The program variables agree with protocol state s. */
  ghost predicate Matches(c: Config, s: State, disk: seq<Block>, view: seq<Block>, lh: seq<nat>) {
    s.disk == disk && s.lh == lh && |view| == |disk| && Shows(c, s, view)
  }

  /** The cache shows the latest contents of every block. */
  ghost predicate Shows(c: Config, s: State, view: seq<Block>) {
    forall b: nat :: b < |view| ==> At(view, b) == Latest(c, s, b)
  }

  /** More steps of the committer, or of recovery, and nothing else. */
  ghost predicate Advances(evs: seq<Event>, evs': seq<Event>) {
    evs <= evs' && forall i :: |evs| <= i < |evs'| ==> evs'[i] == Advance
  }

  class Logger {
    ghost const c: Config
    const start: nat
    const size: nat

    var disk: seq<Block>
    var view: seq<Block>
    var lh: seq<nat>
    var outstanding: int
    var committing: bool

    ghost var evs: seq<Event>

    ghost predicate Valid()
      reads this
    {
      && GoodConfig(c) && start == c.start && size == c.size
      && Legal(c, evs)
      && Matches(c, Run(c, evs), disk, view, lh)
      && Run(c, evs).outstanding == outstanding
      && Run(c, evs).committing == committing
    }

    ghost function Now(): State
      requires Valid()
      reads this
    {
      Run(c, evs)
    }

    /** Power on with the given image: initlog before recovery. */
    constructor (ghost config: Config, image: seq<Block>, logstart: nat, nlog: nat)
      requires GoodConfig(config) && image == config.init && logstart == config.start && nlog == config.size
      ensures Valid() && Now() == Init(config) && c == config
    {
      c, start, size := config, logstart, nlog;
      disk, view, lh, outstanding, committing := image, image, [], 0, false;
      evs := [];
    }

    /** The machine stops: memory is lost, the disk stays. */
    method Crash()
      requires Valid()
      modifies this
      ensures Valid() && evs == old(evs) + [Event.Crash] && disk == old(disk)
    {
      view, lh, outstanding, committing := disk, [], 0, false;
      Extend(c, evs, Event.Crash);
      evs := evs + [Event.Crash];
    }

    /** One turn of begin_op's loop: admit the operation, or report that it must sleep. */
    method TryBeginOp(ghost id: nat) returns (ok: bool)
      requires Valid() && !Recovering(Now()) && id !in Now().issued
      modifies this
      ensures Valid() && ok == Enabled(c, old(Now()), Begin(id))
      ensures evs == if ok then old(evs) + [Begin(id)] else old(evs)
    {
      if committing {
        ok := false;
      } else if |lh| + (outstanding + 1) * MAXOPBLOCKS > LOGSIZE {
        ok := false;
      } else {
        Extend(c, evs, Begin(id));
        evs := evs + [Begin(id)];
        outstanding := outstanding + 1;
        ok := true;
      }
    }

    /** log_write of block b, whose buffer now holds v, by the k-th active operation. */
    method LogWrite(ghost k: nat, b: nat, v: Block)
      requires Valid() && Enabled(c, Now(), Event.LogWrite(k, b, v))
      modifies this
      ensures Valid() && evs == old(evs) + [Event.LogWrite(k, b, v)]
    {
      var i := 0;
      while i < |lh| && lh[i] != b
        invariant 0 <= i <= |lh| && b !in lh[..i]
      {
        i := i + 1;
      }
      assert i == |lh| ==> lh[..i] == lh;
      ghost var s := Now();
      ActiveNow(c, evs);
      hide Legal, Run;
      if i == |lh| {
        lh := lh + [b];
      } else {
        lh := lh[i := b];
      }
      view := view[b := v];
      Extend(c, evs, Event.LogWrite(k, b, v));
      WriteShows(c, s, k, b, v, old(view));
      hide Shows, Ids;
      evs := evs + [Event.LogWrite(k, b, v)];
    }

    /** end_op: the last operation to leave commits the group. */
    method EndOp(ghost k: nat)
      requires Valid() && k < |Now().active|
      modifies this
      ensures Valid() && Advances(old(evs) + [End(k)], evs)
      ensures old(outstanding) > 1 ==> evs == old(evs) + [End(k)]
      ensures old(outstanding) == 1 ==> Now().phase.Quiet? && outstanding == 0 && lh == []
    {
      EndStep(c, evs, disk, view, lh, k);
      hide Legal, Run, Matches, Enabled;
      var doCommit := false;
      outstanding := outstanding - 1;
      if outstanding == 0 {
        doCommit, committing := true, true;
      }
      evs := evs + [End(k)];
      if doCommit {
        Commit();
        FinishStep(c, evs, disk, view, lh);
        committing := false;
        evs := evs + [Advance];
      }
    }

    method Commit()
      requires Valid() && Now().phase == if lh == [] then Finish else CopyToLog(0)
      modifies this
      ensures Valid() && Advances(old(evs), evs) && Now().phase.Finish? && lh == [] && outstanding == old(outstanding)
    {
      hide Legal, Run, Matches;
      if |lh| > 0 {
        WriteLog();
        CommitHead();
        InstallTrans();
        EraseHead();
      }
    }

    /** Copy the logged blocks from the cache to the log. */
    method WriteLog()
      requires Valid() && Now().phase == CopyToLog(0)
      modifies this
      ensures Valid() && Advances(old(evs), evs) && Now().phase.WriteHead?
      ensures lh == old(lh) && outstanding == old(outstanding)
    {
      hide Legal, Run, Shows;
      var tail := 0;
      while tail < |lh|
        invariant Valid() && Advances(old(evs), evs) && lh == old(lh) && outstanding == old(outstanding)
        invariant 0 <= tail <= |lh| && Now().phase == CopyToLog(tail)
      {
        CopyOne(tail);
        tail := tail + 1;
      }
      EndLoop();
    }

    /** The body of write_log's loop. */
    method CopyOne(tail: nat)
      requires Valid() && Now().phase == CopyToLog(tail) && tail < |lh|
      modifies this
      ensures Valid() && evs == old(evs) + [Advance] && lh == old(lh) && outstanding == old(outstanding)
      ensures Now().phase == CopyToLog(tail + 1)
    {
      CopyStep(c, evs, disk, view, lh, tail);
      hide Legal, Run, Matches;
      var from := view[lh[tail]];
      disk := disk[start + tail + 1 := from];
      view := view[start + tail + 1 := from];
      evs := evs + [Advance];
    }

    /** A loop over lh.block is done: the protocol moves to the next phase, nothing else changes. */
    ghost method EndLoop()
      requires Valid()
      requires (Now().phase.CopyToLog? || Now().phase.Install? || Now().phase.RecoverInstall?)
      requires Now().phase.tail == |lh|
      modifies `evs
      ensures Valid() && evs == old(evs) + [Advance] && Now() == NextAdvance(c, old(Now()))
    {
      Extend(c, evs, Advance);
      PhaseShows(c, Now(), view);
      hide Legal, Run, Shows;
      evs := evs + [Advance];
    }

    /** write_head, the commit point. */
    method CommitHead()
      requires Valid() && Now().phase.WriteHead?
      modifies this
      ensures Valid() && Advances(old(evs), evs) && Now().phase == Install(0)
      ensures lh == old(lh) && outstanding == old(outstanding)
    {
      RunInv(c, evs);
      Extend(c, evs, Advance);
      HeadShows(c, Now(), view);
      hide Legal, Run, Inv, Shows;
      var hb := EncodeHead(view[start], lh);
      disk := disk[start := hb];
      view := view[start := hb];
      evs := evs + [Advance];
    }

    /** Copy the committed blocks from the log to their home locations. */
    method InstallTrans()
      requires Valid() && (Now().phase == Install(0) || Now().phase == RecoverInstall(0))
      modifies this
      ensures Valid() && Advances(old(evs), evs) && lh == old(lh) && outstanding == old(outstanding)
      ensures Now().phase == if old(Now()).phase.Install? then Phase.EraseHead else RecoverErase
      ensures disk == Replay(c, old(disk), lh, 0)
    {
      hide Legal, Run, Shows;
      var tail := 0;
      while tail < |lh|
        invariant Valid() && Advances(old(evs), evs) && lh == old(lh) && outstanding == old(outstanding)
        invariant 0 <= tail <= |lh|
        invariant Now().phase == if old(Now()).phase.Install? then Install(tail) else RecoverInstall(tail)
        invariant Replay(c, old(disk), lh, 0) == Replay(c, disk, lh, tail)
      {
        InstallOne(tail);
        tail := tail + 1;
      }
      EndLoop();
    }

    /** The body of install_trans's loop. */
    method InstallOne(tail: nat)
      requires Valid() && (Now().phase == Install(tail) || Now().phase == RecoverInstall(tail)) && tail < |lh|
      modifies this
      ensures Valid() && evs == old(evs) + [Advance] && lh == old(lh) && outstanding == old(outstanding)
      ensures Now().phase == old(Now()).phase.(tail := tail + 1)
      ensures disk == Put(old(disk), lh[tail], At(old(disk), Slot(c, tail)))
    {
      InstallStep(c, evs, disk, view, lh, tail);
      hide Legal, Run, Matches;
      var from := view[start + tail + 1];
      disk := disk[lh[tail] := from];
      view := view[lh[tail] := from];
      evs := evs + [Advance];
    }

    /** log.lh.n = 0; write_head() */
    method EraseHead()
      requires Valid() && (Now().phase.EraseHead? || Now().phase.RecoverErase?)
      modifies this
      ensures Valid() && Advances(old(evs), evs) && lh == [] && outstanding == old(outstanding)
      ensures Now().phase == if old(Now()).phase.EraseHead? then Finish else Quiet
      ensures disk == Put(old(disk), c.start, PutHead(At(old(disk), c.start), []))
    {
      RunInv(c, evs);
      Extend(c, evs, Advance);
      EraseShows(c, Now(), view);
      hide Legal, Run, Inv, Shows;
      lh := [];
      var hb := EncodeHead(view[start], lh);
      disk := disk[start := hb];
      view := view[start := hb];
      evs := evs + [Advance];
    }

    /** Recovery at boot: the disk becomes what Recover says, and the log opens. */
    method RecoverFromLog()
      requires Valid() && Now().phase.ReadHead?
      modifies this
      ensures Valid() && Advances(old(evs), evs) && Now().phase.Quiet?
      ensures disk == Recover(c, old(disk))
    {
      HeadIsLogBlock(c, evs);
      ReadHead();
      hide Legal, Run, Matches, Replay;
      InstallTrans();
      EraseHead();
    }

    method ReadHead()
      requires Valid() && Now().phase.ReadHead?
      modifies this
      ensures Valid() && evs == old(evs) + [Advance] && Now().phase == RecoverInstall(0)
      ensures disk == old(disk) && lh == DiskHead(c, disk) && outstanding == old(outstanding)
    {
      RunInv(c, evs);
      Extend(c, evs, Advance);
      PhaseShows(c, Now(), view);
      assert GoodHead(At(Now().disk, c.start));
      assert At(view, c.start) == Latest(c, Now(), c.start);
      hide Legal, Run, Inv, Shows;
      lh := DecodeHead(view[start]);
      evs := evs + [Advance];
    }
  }

  /** The loop of write_head. */
  method EncodeHead(hb: Block, lh: seq<nat>) returns (r: Block)
    requires |hb| == BWORDS && |lh| <= LOGSIZE
    ensures r == PutHead(hb, lh)
  {
    r := hb[0 := |lh|];
    var i := 0;
    while i < |lh|
      invariant 0 <= i <= |lh|
      invariant r == [|lh|] + lh[..i] + hb[1 + i..]
    {
      r := r[1 + i := lh[i]];
      i := i + 1;
    }
    assert lh[..|lh|] == lh;
  }

  /** The loop of read_head. */
  method DecodeHead(hb: Block) returns (lh: seq<nat>)
    requires GoodHead(hb)
    ensures lh == Head(hb)
  {
    lh := [];
    var i := 0;
    while i < hb[0]
      invariant 0 <= i <= hb[0] && lh == hb[1..1 + i]
    {
      lh := lh + [hb[1 + i]];
      i := i + 1;
    }
  }

  /** Replay does not touch the header block. */
  lemma {:induction false} HeadIsLogBlock(c: Config, evs: seq<Event>)
    requires GoodConfig(c) && Legal(c, evs)
    ensures var d := Run(c, evs).disk; At(Replay(c, d, DiskHead(c, d), 0), c.start) == At(d, c.start)
  {
    RunInv(c, evs);
    var d := Run(c, evs).disk;
    assert GoodList(c, DiskHead(c, d)) && |d| == |c.init|;
    hide Run, Legal, Inv, Head;
    assert !Home(c, c.start);
    ReplayAt(c, d, DiskHead(c, d), 0);
    assert c.start !in DiskHead(c, d)[0..];
  }

  lemma {:induction false} FinishStep(c: Config, evs: seq<Event>, disk: seq<Block>, view: seq<Block>, lh: seq<nat>)
    requires GoodConfig(c) && Legal(c, evs) && Matches(c, Run(c, evs), disk, view, lh) && Run(c, evs).phase.Finish?
    ensures Legal(c, evs + [Advance])
    ensures var s, s' := Run(c, evs), Run(c, evs + [Advance]);
      && Matches(c, s', disk, view, lh) && s'.phase.Quiet? && !s'.committing
      && s.outstanding == 0 && s'.outstanding == 0 && lh == []
  {
    RunInv(c, evs);
    Extend(c, evs, Advance);
    PhaseShows(c, Run(c, evs), view);
    hide Run, Legal, Shows, OpInv, DiskInv, Head;
  }

  lemma {:induction false} EndStep(c: Config, evs: seq<Event>, disk: seq<Block>, view: seq<Block>, lh: seq<nat>, k: nat)
    requires GoodConfig(c) && Legal(c, evs) && Matches(c, Run(c, evs), disk, view, lh) && k < |Run(c, evs).active|
    ensures Legal(c, evs + [End(k)])
    ensures var s, s' := Run(c, evs), Run(c, evs + [End(k)]);
      && Matches(c, s', disk, view, lh) && s'.outstanding == s.outstanding - 1 && !s.committing
      && if s.outstanding > 1 then s'.phase.Quiet? && !s'.committing
         else s.outstanding == 1 && s'.committing && s'.phase == if lh == [] then Finish else CopyToLog(0)
  {
    ActiveNow(c, evs);
    Extend(c, evs, End(k));
    EndShape(c, Run(c, evs), k);
    EndShows(c, Run(c, evs), k, view);
    hide Run, Legal, Shows, Next;
  }

  lemma {:induction false} CopyStep(c: Config, evs: seq<Event>, disk: seq<Block>, view: seq<Block>, lh: seq<nat>,
        t: nat)
    requires GoodConfig(c) && Legal(c, evs) && Matches(c, Run(c, evs), disk, view, lh)
    requires Run(c, evs).phase == CopyToLog(t) && t < |lh|
    ensures Legal(c, evs + [Advance]) && Slot(c, t) < |view| == |disk| && lh[t] < |view|
    ensures var s, s' := Run(c, evs), Run(c, evs + [Advance]); var from := At(view, lh[t]);
      && Matches(c, s', Put(disk, Slot(c, t), from), Put(view, Slot(c, t), from), lh)
      && s'.phase == CopyToLog(t + 1) && s'.outstanding == s.outstanding && s'.committing == s.committing
  {
    hide Run, Legal, Shows, Inv, GoodConfig;
    RunInv(c, evs);
    Extend(c, evs, Advance);
    CopyShows(c, Run(c, evs), view);
    hide Apply, Head, Latest;
  }

  lemma {:induction false} InstallStep(c: Config, evs: seq<Event>, disk: seq<Block>, view: seq<Block>,
        lh: seq<nat>, t: nat)
    requires GoodConfig(c) && Legal(c, evs) && Matches(c, Run(c, evs), disk, view, lh)
    requires (Run(c, evs).phase == Install(t) || Run(c, evs).phase == RecoverInstall(t)) && t < |lh|
    ensures Legal(c, evs + [Advance]) && Slot(c, t) < |view| == |disk| && lh[t] < |view|
    ensures At(view, Slot(c, t)) == At(disk, Slot(c, t))
    ensures var s, s' := Run(c, evs), Run(c, evs + [Advance]); var from := At(disk, Slot(c, t));
      && Matches(c, s', Put(disk, lh[t], from), Put(view, lh[t], from), lh)
      && s'.phase == s.phase.(tail := t + 1) && s'.outstanding == s.outstanding && s'.committing == s.committing
  {
    hide Run, Legal, Shows, Inv, GoodConfig;
    RunInv(c, evs);
    Extend(c, evs, Advance);
    InstallShows(c, Run(c, evs), view);
    hide Apply, Head, Latest;
  }

  lemma {:induction false} ActiveNow(c: Config, evs: seq<Event>)
    requires GoodConfig(c) && Legal(c, evs) && Run(c, evs).active != []
    ensures var s := Run(c, evs); s.phase.Quiet? && !s.committing && |s.disk| == |c.init| && s.outstanding == |s.active|
  {
    RunInv(c, evs);
    hide Run, Legal, GoodConfig;
    ActiveMeansQuiet(c, Run(c, evs));
    hide PhaseInv, OpInv;
  }

  // ----- the cache shows the latest contents after each step -----

  lemma {:induction false} WriteShows(c: Config, s: State, k: nat, b: nat, v: Block, view: seq<Block>)
    requires Enabled(c, s, Event.LogWrite(k, b, v)) && s.phase.Quiet?
    requires |view| == |s.disk| == |c.init| && Shows(c, s, view)
    ensures Shows(c, Next(c, s, Event.LogWrite(k, b, v)), Put(view, b, v))
  {
    var s' := Next(c, s, Event.LogWrite(k, b, v));
    assert s'.durable + s'.pending == s.durable + s.pending + [Write(s.active[k].id, b, v)];
    ApplyLast(c.init, s.durable + s.pending, Write(s.active[k].id, b, v));
    hide Apply, Ids;
    forall x: nat | x < |view| ensures At(Put(view, b, v), x) == Latest(c, s', x) {
      assert At(view, x) == Latest(c, s, x);
    }
  }

  lemma {:induction false} EndShows(c: Config, s: State, k: nat, view: seq<Block>)
    requires Enabled(c, s, End(k)) && s.phase.Quiet? && Shows(c, s, view)
    ensures Shows(c, Next(c, s, End(k)), view)
  {
    EndShape(c, s, k);
    hide Next, Apply;
    forall x: nat | x < |view| ensures At(view, x) == Latest(c, Next(c, s, End(k)), x) {
      assert At(view, x) == Latest(c, s, x);
    }
  }

  /** Steps without a disk write. */
  lemma {:induction false} PhaseShows(c: Config, s: State, view: seq<Block>)
    requires Shows(c, s, view)
    requires s.phase.ReadHead? || s.phase.Finish?
      || ((s.phase.CopyToLog? || s.phase.Install? || s.phase.RecoverInstall?) && s.phase.tail >= |s.lh|)
    ensures Shows(c, NextAdvance(c, s), view)
  {
    hide Apply, Head;
    forall x: nat | x < |view| ensures At(view, x) == Latest(c, NextAdvance(c, s), x) {
      assert At(view, x) == Latest(c, s, x);
    }
  }

  lemma {:induction false} CopyShows(c: Config, s: State, view: seq<Block>)
    requires GoodConfig(c) && Inv(c, s) && s.phase.CopyToLog? && s.phase.tail < |s.lh|
    requires |view| == |s.disk| && Shows(c, s, view)
    ensures var t := s.phase.tail;
      && Slot(c, t) < |view| && s.lh[t] < |view|
      && At(view, s.lh[t]) == Latest(c, s, s.lh[t])
      && Shows(c, NextAdvance(c, s), Put(view, Slot(c, t), At(view, s.lh[t])))
  {
    var t := s.phase.tail;
    assert Home(c, s.lh[t]) && !Home(c, Slot(c, t));
    assert |s.disk| == |c.init|;
    hide Apply, Inv;
    forall x: nat | x < |view|
      ensures At(Put(view, Slot(c, t), At(view, s.lh[t])), x) == Latest(c, NextAdvance(c, s), x)
    {
      assert At(view, x) == Latest(c, s, x);
    }
  }

  lemma {:induction false} HeadShows(c: Config, s: State, view: seq<Block>)
    requires GoodConfig(c) && Inv(c, s) && s.phase.WriteHead?
    requires |view| == |s.disk| && Shows(c, s, view)
    ensures c.start < |view| && |At(view, c.start)| == BWORDS && |s.lh| <= LOGSIZE
    ensures At(view, c.start) == At(s.disk, c.start)
    ensures Shows(c, NextAdvance(c, s), Put(view, c.start, PutHead(At(view, c.start), s.lh)))
  {
    assert |s.disk| == |c.init| && |At(s.disk, c.start)| == BWORDS && !Home(c, c.start);
    assert (s.durable + s.pending) + [] == s.durable + s.pending;
    hide Apply, Inv, PutHead;
    forall x: nat | x < |view|
      ensures At(Put(view, c.start, PutHead(At(view, c.start), s.lh)), x) == Latest(c, NextAdvance(c, s), x)
    {
      assert At(view, x) == Latest(c, s, x);
    }
  }

  lemma {:induction false} InstallShows(c: Config, s: State, view: seq<Block>)
    requires GoodConfig(c) && Inv(c, s) && (s.phase.Install? || s.phase.RecoverInstall?) && s.phase.tail < |s.lh|
    requires |view| == |s.disk| && Shows(c, s, view)
    ensures var t := s.phase.tail;
      && Slot(c, t) < |view| && s.lh[t] < |view|
      && At(view, Slot(c, t)) == At(s.disk, Slot(c, t))
      && Shows(c, NextAdvance(c, s), Put(view, s.lh[t], At(view, Slot(c, t))))
  {
    var t := s.phase.tail;
    assert Home(c, s.lh[t]) && !Home(c, Slot(c, t));
    hide Apply, OpInv, HomesHold, RestHolds, Head;
    assert |s.disk| == |c.init|;
    assert s.durable + s.pending == s.durable;
    assert At(s.disk, Slot(c, t)) == At(Apply(c.init, s.durable), s.lh[t]);
    hide Inv;
    forall x: nat | x < |view|
      ensures At(Put(view, s.lh[t], At(view, Slot(c, t))), x) == Latest(c, NextAdvance(c, s), x)
    {
      assert At(view, x) == Latest(c, s, x);
    }
  }

  lemma {:induction false} EraseShows(c: Config, s: State, view: seq<Block>)
    requires GoodConfig(c) && Inv(c, s) && (s.phase.EraseHead? || s.phase.RecoverErase?)
    requires |view| == |s.disk| && Shows(c, s, view)
    ensures c.start < |view| && |At(view, c.start)| == BWORDS && At(view, c.start) == At(s.disk, c.start)
    ensures Shows(c, NextAdvance(c, s), Put(view, c.start, PutHead(At(view, c.start), [])))
  {
    hide Apply, OpInv, HomesHold, SlotsHold, GoodList;
    assert |s.disk| == |c.init| && |At(s.disk, c.start)| == BWORDS && !Home(c, c.start);
    EraseInv(c, s);
    assert s.durable + s.pending == s.durable;
    var s' := NextAdvance(c, s);
    hide PutHead, Head;
    assert RestHolds(c, s'.disk, [], Apply(c.init, s.durable));
    hide Inv;
    forall x: nat | x < |view|
      ensures At(Put(view, c.start, PutHead(At(view, c.start), [])), x) == Latest(c, s', x)
    {
      assert At(view, x) == Latest(c, s, x);
    }
  }
}
