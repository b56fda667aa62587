/**
 What a crash can roll back to: the contents of the cache at a moment at which
 no operation was under way. Operations may interleave freely; an invariant of
 the file system has to hold only between operations to hold after a crash.
 */
module LogSnapshot {
  import opened Log

  /** The home blocks as the cache has them: everything logged so far. */
  function Cache(c: Config, s: State): seq<Block> { Apply(c.init, s.durable + s.pending) }

  /** The home blocks of a disk; the log area is left blank. */
  function Image(c: Config, d: seq<Block>): seq<Block> {
    seq(|c.init|, b requires b >= 0 => if Home(c, b) then At(d, b) else [])
  }

  lemma {:induction false} StepDurable(c: Config, s: State, e: Event)
    requires Enabled(c, s, e)
    ensures Next(c, s, e).durable == if e.Advance? && s.phase.WriteHead? then s.durable + s.pending else s.durable
  {
    hide Panics, Ready, At, Put, PutHead, Slot, Latest, Ids, Issued;
  }

  lemma {:induction false} RunStep(c: Config, evs: seq<Event>)
    requires Legal(c, evs) && evs != []
    ensures var m := |evs| - 1;
      Legal(c, evs[..m]) && Enabled(c, Run(c, evs[..m]), evs[m]) && Run(c, evs) == Next(c, Run(c, evs[..m]), evs[m])
  {
    hide Enabled, Next;
  }

  /** The writes that are durable are all that was logged up to some moment without an active operation. */
  lemma {:induction false} DurableIsQuiescent(c: Config, evs: seq<Event>) returns (n: nat)
    requires GoodConfig(c) && Legal(c, evs)
    ensures n <= |evs| && Legal(c, evs[..n]) && Run(c, evs[..n]).active == []
    ensures n == 0 || Run(c, evs[..n]).phase.WriteHead?
    ensures Run(c, evs).durable == Run(c, evs[..n]).durable + Run(c, evs[..n]).pending
    decreases |evs|
  {
    if evs == [] {
      n := 0;
    } else {
      hide Run, Legal, Next, Enabled;
      var m := |evs| - 1;
      var before, e := evs[..m], evs[m];
      RunStep(c, evs);
      StepDurable(c, Run(c, before), e);
      if e.Advance? && Run(c, before).phase.WriteHead? {
        n := m;
        CommitQuiescent(c, before);
      } else {
        n := DurableIsQuiescent(c, before);
        assert before[..n] == evs[..n];
      }
    }
  }

  lemma {:induction false} CommitQuiescent(c: Config, evs: seq<Event>)
    requires GoodConfig(c) && Legal(c, evs) && Run(c, evs).phase.WriteHead?
    ensures Run(c, evs).active == []
  {
    RunInv(c, evs);
    if Run(c, evs).active != [] {
      ActiveMeansQuiet(c, Run(c, evs));
      assert false;
    }
  }

  /**
   Recovering from the disk of any run gives the contents of the cache at a moment of that
   run without an active operation.
   */
  lemma {:induction false} RecoversToQuiescence(c: Config, evs: seq<Event>) returns (n: nat)
    requires GoodConfig(c) && Legal(c, evs)
    ensures n <= |evs| && Legal(c, evs[..n]) && Run(c, evs[..n]).active == []
    ensures n == 0 || Run(c, evs[..n]).phase.WriteHead?
    ensures Image(c, Recover(c, Run(c, evs).disk)) == Image(c, Cache(c, Run(c, evs[..n])))
  {
    hide Legal, Run, Recover, Apply;
    n := DurableIsQuiescent(c, evs);
    CrashAtomicity(c, evs);
  }

  /**
   What holds of the cache at the start, and whenever the last end_op is about to
   commit, holds of the recovered disk after a crash at any point.
   */
  lemma {:induction false} InvariantSurvives(c: Config, evs: seq<Event>, good: seq<Block> -> bool)
    requires GoodConfig(c) && Legal(c, evs)
    requires forall n: nat :: n <= |evs| && Legal(c, evs[..n]) && (n == 0 || Run(c, evs[..n]).phase.WriteHead?) ==>
      good(Image(c, Cache(c, Run(c, evs[..n]))))
    ensures good(Image(c, Recover(c, Run(c, evs).disk)))
  {
    var n := RecoversToQuiescence(c, evs);
  }
}
