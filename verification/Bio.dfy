/**
 The buffer cache of kernel/bio.c under the log, as a protocol: any number of
 processes get, lock, read, change, log and release buffers while the committer
 runs through the same cache. The cache plus the log refines a plain map from
 block numbers to contents, and every run of the cache is a run of the log.
 */
module Bio {
  import opened Arith
  import opened Log
  import opened Options

  const ROOTDEV: nat := 1

  /**
   A struct buf. holder, waiting and leaving tell who is inside the buffer's
   sleeplock, asleep in acquiresleep, and between releasesleep and refcnt--.
   dirty marks data that its holder has changed and not yet passed to log_write.
   */
  datatype Buf = Buf(
    dev: nat, blockno: nat, valid: bool, refcnt: int, data: Block,
    holder: Option<nat>, waiting: set<nat>, leaving: set<nat>, dirty: bool)

  const BLANK: Buf := Buf(0, 0, false, 0, [], None, {}, {}, false)

  datatype Cache = Cache(bufs: seq<Buf>, order: seq<nat>)

  datatype State = State(log: Log.State, cache: Cache)

  // ----- the two list walks of bget -----

  predicate Has(b: Buf, dev: nat, blockno: nat) { b.dev == dev && b.blockno == blockno }

  /** First buffer, most recently used first, that holds the block; |bufs| if none. */
  function Hit(bufs: seq<Buf>, order: seq<nat>, dev: nat, blockno: nat): nat {
    if order == [] then |bufs|
    else if order[0] < |bufs| && Has(bufs[order[0]], dev, blockno) then order[0]
    else Hit(bufs, order[1..], dev, blockno)
  }

  /** Least recently used buffer with refcnt 0; |bufs| if none. */
  function Victim(bufs: seq<Buf>, order: seq<nat>): nat {
    if order == [] then |bufs|
    else
      var last := order[|order| - 1];
      if last < |bufs| && bufs[last].refcnt == 0 then last else Victim(bufs, order[..|order| - 1])
  }

  /** Move buffer i to the front of the list. */
  function ToFront(order: seq<nat>, i: nat): seq<nat> {
    [i] + Without(order, i)
  }

  function Without(order: seq<nat>, i: nat): seq<nat> {
    if order == [] then []
    else if order[0] == i then order[1..]
    else [order[0]] + Without(order[1..], i)
  }

  // ----- transitions -----

  datatype Event =
    | Get(t: nat, blockno: nat)            // bget up to acquiresleep
    | Lock(t: nat, i: nat)                 // acquiresleep succeeds
    | Read(t: nat, i: nat)                 // bread fills an invalid buffer
    | Modify(t: nat, i: nat, data: Block)  // the holder changes b->data
    | LogBuf(t: nat, i: nat, k: nat)     // log_write by the k-th active operation
    | Unlock(t: nat, i: nat)               // brelse: releasesleep
    | Drop(t: nat, i: nat)                 // brelse: refcnt--
    | BeginOp(id: nat)
    | EndOp(k: nat)
    | CommitStep(t: nat, i: nat, j: nat)      // commit() or recovery, holding buffers i and j where needed
    | PowerCut

  predicate Owns(s: State, t: nat, i: nat, blockno: nat) {
    && i < |s.cache.bufs|
    && var b := s.cache.bufs[i];
       Has(b, ROOTDEV, blockno) && b.holder == Some(t) && b.valid && !b.dirty
  }

  /** Process t is not in the middle of bget or brelse. */
  predicate Running(s: State, t: nat) {
    forall i :: 0 <= i < |s.cache.bufs| ==> t !in s.cache.bufs[i].waiting && t !in s.cache.bufs[i].leaving
  }

  /** The buffers that the committer holds when it takes its next step. */
  predicate CommitterHolds(c: Config, s: State, t: nat, i: nat, j: nat) {
    match s.log.phase
    case CopyToLog(n) =>
      n < |s.log.lh| ==> Owns(s, t, i, Slot(c, n)) && Owns(s, t, j, s.log.lh[n])
    case Install(n) =>
      n < |s.log.lh| ==> Owns(s, t, i, Slot(c, n)) && Owns(s, t, j, s.log.lh[n])
    case RecoverInstall(n) =>
      n < |s.log.lh| ==> Owns(s, t, i, Slot(c, n)) && Owns(s, t, j, s.log.lh[n])
    case WriteHead => Owns(s, t, i, c.start)
    case EraseHead => Owns(s, t, i, c.start)
    case RecoverErase => Owns(s, t, i, c.start)
    case ReadHead => Owns(s, t, i, c.start)
    case Finish => true
    case Quiet => false
  }

  predicate Enabled(c: Config, s: State, e: Event) {
    var bufs := s.cache.bufs;
    match e
    case Get(t, b) =>
      && b < |s.log.disk| && Running(s, t)
      && (Hit(bufs, s.cache.order, ROOTDEV, b) < |bufs| || Victim(bufs, s.cache.order) < |bufs|)
    case Lock(t, i) => i < |bufs| && t in bufs[i].waiting && bufs[i].holder == None
    case Read(t, i) => i < |bufs| && bufs[i].holder == Some(t) && !bufs[i].valid
    case Modify(t, i, v) =>
      i < |bufs| && bufs[i].holder == Some(t) && bufs[i].valid && Home(c, bufs[i].blockno) && |v| == BWORDS
    case LogBuf(t, i, k) =>
      && i < |bufs| && bufs[i].holder == Some(t) && bufs[i].valid
      && Log.Enabled(c, s.log, Log.LogWrite(k, bufs[i].blockno, bufs[i].data))
    case Unlock(t, i) => i < |bufs| && bufs[i].holder == Some(t) && !bufs[i].dirty && t !in bufs[i].leaving
    case Drop(t, i) => i < |bufs| && t in bufs[i].leaving
    case BeginOp(id) => Log.Enabled(c, s.log, Log.Begin(id))
    case EndOp(k) => Log.Enabled(c, s.log, Log.End(k))
    case CommitStep(t, i, j) => Log.Enabled(c, s.log, Log.Advance) && CommitterHolds(c, s, t, i, j)
    case PowerCut => true
  }

  function SetBuf(s: State, i: nat, b: Buf): State
    requires i < |s.cache.bufs|
  {
    s.(cache := s.cache.(bufs := s.cache.bufs[i := b]))
  }

  function Next(c: Config, s: State, e: Event): State
    requires Enabled(c, s, e)
  {
    var bufs := s.cache.bufs;
    match e
    case Get(t, b) => NextGet(s, t, b)
    case Lock(t, i) => SetBuf(s, i, bufs[i].(holder := Some(t), waiting := bufs[i].waiting - {t}))
    case Read(t, i) => SetBuf(s, i, bufs[i].(data := At(s.log.disk, bufs[i].blockno), valid := true))
    case Modify(t, i, v) => SetBuf(s, i, bufs[i].(data := v, dirty := true))
    case LogBuf(t, i, k) =>
      var isNew := bufs[i].blockno !in s.log.lh;
      SetBuf(s, i, bufs[i].(dirty := false, refcnt := bufs[i].refcnt + if isNew then 1 else 0))
      .(log := Log.Next(c, s.log, Log.LogWrite(k, bufs[i].blockno, bufs[i].data)))
    case Unlock(t, i) => SetBuf(s, i, bufs[i].(holder := None, leaving := bufs[i].leaving + {t}))
    case Drop(t, i) => NextDrop(s, t, i)
    case BeginOp(id) => s.(log := Log.Next(c, s.log, Log.Begin(id)))
    case EndOp(k) => s.(log := Log.Next(c, s.log, Log.End(k)))
    case CommitStep(t, i, j) => NextAdvance(c, s, i, j)
    case PowerCut => State.State(Log.Next(c, s.log, Log.Crash), Fresh(|bufs|))
  }

  /** binit. */
  function Fresh(n: nat): Cache {
    Cache(seq(n, i => BLANK), seq(n, i requires 0 <= i < n => n - 1 - i))
  }

  function NextGet(s: State, t: nat, b: nat): State
    requires var bufs := s.cache.bufs;
      Hit(bufs, s.cache.order, ROOTDEV, b) < |bufs| || Victim(bufs, s.cache.order) < |bufs|
  {
    var bufs := s.cache.bufs;
    var h := Hit(bufs, s.cache.order, ROOTDEV, b);
    if h < |bufs| then
      SetBuf(s, h, bufs[h].(refcnt := bufs[h].refcnt + 1, waiting := bufs[h].waiting + {t}))
    else
      var v := Victim(bufs, s.cache.order);
      SetBuf(s, v, bufs[v].(dev := ROOTDEV, blockno := b, valid := false,
        refcnt := 1, waiting := bufs[v].waiting + {t}))
  }

  function NextDrop(s: State, t: nat, i: nat): State
    requires i < |s.cache.bufs|
  {
    var b := s.cache.bufs[i];
    var s' := SetBuf(s, i, b.(refcnt := b.refcnt - 1, leaving := b.leaving - {t}));
    if b.refcnt - 1 == 0 then s'.(cache := s'.cache.(order := ToFront(s.cache.order, i))) else s'
  }

  /** One step of commit() or recovery, reading and writing through the buffers. */
  function NextAdvance(c: Config, s: State, i: nat, j: nat): State {
    var log' := Log.NextAdvance(c, s.log);
    var bufs := s.cache.bufs;
    match s.log.phase
    case CopyToLog(n) =>
      if n < |s.log.lh| && i < |bufs| && j < |bufs| then
        SetBuf(s, i, bufs[i].(data := bufs[j].data))
        .(log := log'.(disk := Put(s.log.disk, bufs[i].blockno, bufs[j].data)))
      else s.(log := log')
    case Install(n) =>
      if n < |s.log.lh| && i < |bufs| && j < |bufs| then
        SetBuf(s, j, bufs[j].(data := bufs[i].data, refcnt := bufs[j].refcnt - 1))
        .(log := log'.(disk := Put(s.log.disk, bufs[j].blockno, bufs[i].data)))
      else s.(log := log')
    case RecoverInstall(n) =>
      if n < |s.log.lh| && i < |bufs| && j < |bufs| then
        SetBuf(s, j, bufs[j].(data := bufs[i].data))
        .(log := log'.(disk := Put(s.log.disk, bufs[j].blockno, bufs[i].data)))
      else s.(log := log')
    case WriteHead => WriteHeadBuf(s, i, log', s.log.lh)
    case EraseHead => WriteHeadBuf(s, i, log', [])
    case RecoverErase => WriteHeadBuf(s, i, log', [])
    case ReadHead =>
      if i < |bufs| then s.(log := log'.(lh := Head(bufs[i].data))) else s.(log := log')
    case Finish => s.(log := log')
    case Quiet => s
  }

  function WriteHeadBuf(s: State, i: nat, log': Log.State, lh: seq<nat>): State {
    var bufs := s.cache.bufs;
    if i < |bufs| then
      var v := PutHead(bufs[i].data, lh);
      SetBuf(s, i, bufs[i].(data := v)).(log := log'.(disk := Put(s.log.disk, bufs[i].blockno, v)))
    else s.(log := log')
  }

  // ----- the invariant -----

  ghost predicate GoodOrder(order: seq<nat>, n: nat) {
    && |order| == n
    && (forall k :: 0 <= k < n ==> order[k] < n)
    && (forall k, l :: 0 <= k < l < n ==> order[k] != order[l])
  }

  /** No two buffers hold the same block. */
  ghost predicate Unique(bufs: seq<Buf>) {
    forall i, j :: 0 <= i < j < |bufs| && bufs[i].dev != 0 && bufs[j].dev != 0 ==> bufs[i].blockno != bufs[j].blockno
  }

  function Pins(log: Log.State, b: Buf): int { if b.dev != 0 && b.blockno in Pinned(log) then 1 else 0 }

  /** refcnt counts the holder, the waiters, those on their way out, and the pin of the log. */
  predicate Counted(log: Log.State, b: Buf) {
    b.refcnt == |b.waiting| + |b.leaving| + (if b.holder.Some? then 1 else 0) + Pins(log, b)
  }

  ghost predicate GoodBuf(c: Config, log: Log.State, b: Buf) {
    && (b.dev == 0 || b.dev == ROOTDEV)
    && (b.dev == 0 ==> b.refcnt == 0)
    && (b.dev != 0 ==> b.blockno < |c.init|)
    && Counted(log, b)
    && (b.valid && !b.dirty ==> b.dev != 0 && b.data == Latest(c, log, b.blockno))
    && (b.dirty ==> b.holder.Some? && b.valid && Home(c, b.blockno) && b.dev != 0 && |b.data| == BWORDS)
  }

  /** Every pinned block has a valid buffer. */
  ghost predicate PinsCached(log: Log.State, bufs: seq<Buf>) {
    forall b <- Pinned(log) :: exists i :: 0 <= i < |bufs| && Has(bufs[i], ROOTDEV, b) && bufs[i].valid
  }

  ghost predicate CacheInv(c: Config, s: State) {
    var bufs := s.cache.bufs;
    && GoodOrder(s.cache.order, |bufs|)
    && Unique(bufs)
    && (forall i :: 0 <= i < |bufs| ==> GoodBuf(c, s.log, bufs[i]))
    && PinsCached(s.log, bufs)
  }

  ghost predicate Inv(c: Config, s: State) {
    Log.Inv(c, s.log) && CacheInv(c, s)
  }

  // ----- what the log says about clean blocks -----

  /** A block that is not pinned has its latest contents on disk, so its buffer may be recycled. */
  lemma {:induction false} CleanUnpinned(c: Config, log: Log.State, b: nat)
    requires GoodConfig(c) && Log.Inv(c, log) && b < |c.init| && b !in Pinned(log)
    ensures Latest(c, log, b) == At(log.disk, b)
  {
    hide OpInv, CountInv, Apply, Head, Sized, GoodList, GoodWrites;
    if !Recovering(log) && Home(c, b) {
      var m := Apply(c.init, log.durable);
      if log.phase.Install? || log.phase.EraseHead? {
        assert log.durable + log.pending == log.durable;
        if b in log.lh {
          var i: nat :| i < |log.lh| && log.lh[i] == b;
          assert At(log.disk, log.lh[i]) == At(m, log.lh[i]);
        }
      } else {
        assert forall w <- log.pending :: w.block != b;
        ApplyOutside(c.init, log.durable, log.pending, b);
      }
    }
  }

  // ----- preservation: one buffer changes, the log does not -----

  /** Changing fields of buffer i other than its identity. */
  lemma {:induction false} KeepIdentity(c: Config, s: State, i: nat, b: Buf)
    requires CacheInv(c, s) && i < |s.cache.bufs| && GoodBuf(c, s.log, b)
    requires var a := s.cache.bufs[i]; b.dev == a.dev && b.blockno == a.blockno && (a.valid ==> b.valid)
    ensures CacheInv(c, SetBuf(s, i, b))
  {
    hide GoodBuf, GoodOrder;
    var bufs, bufs' := s.cache.bufs, s.cache.bufs[i := b];
    forall x <- Pinned(s.log) ensures exists k :: 0 <= k < |bufs'| && Has(bufs'[k], ROOTDEV, x) && bufs'[k].valid {
      var k :| 0 <= k < |bufs| && Has(bufs[k], ROOTDEV, x) && bufs[k].valid;
      assert Has(bufs'[k], ROOTDEV, x) && bufs'[k].valid;
    }
  }

  lemma {:induction false} LockInv(c: Config, s: State, t: nat, i: nat)
    requires CacheInv(c, s) && Enabled(c, s, Lock(t, i))
    ensures CacheInv(c, Next(c, s, Lock(t, i)))
  {
    var b := s.cache.bufs[i];
    assert GoodBuf(c, s.log, b);
    assert |b.waiting - {t}| == |b.waiting| - 1;
    hide CacheInv, Latest;
    KeepIdentity(c, s, i, b.(holder := Some(t), waiting := b.waiting - {t}));
  }

  lemma {:induction false} UnlockInv(c: Config, s: State, t: nat, i: nat)
    requires CacheInv(c, s) && Enabled(c, s, Unlock(t, i))
    ensures CacheInv(c, Next(c, s, Unlock(t, i)))
  {
    var b := s.cache.bufs[i];
    assert GoodBuf(c, s.log, b);
    hide CacheInv, Latest;
    KeepIdentity(c, s, i, b.(holder := None, leaving := b.leaving + {t}));
  }

  lemma {:induction false} ModifyInv(c: Config, s: State, t: nat, i: nat, v: Block)
    requires CacheInv(c, s) && Enabled(c, s, Modify(t, i, v))
    ensures CacheInv(c, Next(c, s, Modify(t, i, v)))
  {
    var b := s.cache.bufs[i];
    assert GoodBuf(c, s.log, b);
    hide CacheInv, Latest;
    KeepIdentity(c, s, i, b.(data := v, dirty := true));
  }

  lemma {:induction false} ReadInv(c: Config, s: State, t: nat, i: nat)
    requires GoodConfig(c) && Inv(c, s) && Enabled(c, s, Read(t, i))
    ensures CacheInv(c, Next(c, s, Read(t, i)))
  {
    var b := s.cache.bufs[i];
    assert GoodBuf(c, s.log, b);
    InvalidUnpinned(c, s, i);
    CleanUnpinned(c, s.log, b.blockno);
    hide CacheInv, Latest, Log.Inv;
    KeepIdentity(c, s, i, b.(data := At(s.log.disk, b.blockno), valid := true));
  }

  lemma {:induction false} InvalidUnpinned(c: Config, s: State, i: nat)
    requires CacheInv(c, s) && i < |s.cache.bufs| && s.cache.bufs[i].dev != 0 && !s.cache.bufs[i].valid
    ensures s.cache.bufs[i].blockno !in Pinned(s.log)
  {
    hide GoodBuf, GoodOrder;
  }

  lemma {:induction false} DropInv(c: Config, s: State, t: nat, i: nat)
    requires CacheInv(c, s) && Enabled(c, s, Drop(t, i))
    ensures CacheInv(c, Next(c, s, Drop(t, i)))
  {
    var b := s.cache.bufs[i];
    assert GoodBuf(c, s.log, b);
    assert |b.leaving - {t}| == |b.leaving| - 1;
    ToFrontGood(s.cache.order, |s.cache.bufs|, i);
    hide Latest, GoodOrder;
    KeepIdentity(c, s, i, b.(refcnt := b.refcnt - 1, leaving := b.leaving - {t}));
    hide GoodBuf, Unique, PinsCached;
  }

  lemma {:induction false} ToFrontGood(order: seq<nat>, n: nat, i: nat)
    requires GoodOrder(order, n) && i < n
    ensures GoodOrder(ToFront(order, i), n)
  {
    OrderTotal(order, n, i);
    var k :| 0 <= k < n && order[k] == i;
    WithoutAt(order, k);
    hide Without;
    FrontGood(order, n, k, ToFront(order, i));
  }

  lemma {:induction false} FrontGood(order: seq<nat>, n: nat, k: nat, r: seq<nat>)
    requires GoodOrder(order, n) && k < n && r == [order[k]] + (order[..k] + order[k + 1..])
    ensures GoodOrder(r, n)
  {
    assert forall x :: 0 <= x < n ==> r[x] == order[if x == 0 then k else if x <= k then x - 1 else x];
  }

  lemma {:induction false} WithoutAt(order: seq<nat>, k: nat)
    requires k < |order| && forall x, y :: 0 <= x < y < |order| ==> order[x] != order[y]
    ensures Without(order, order[k]) == order[..k] + order[k + 1..]
  {
    if k == 0 {
      assert order[..0] + order[1..] == order[1..];
    } else {
      WithoutAt(order[1..], k - 1);
      assert order[..k] + order[k + 1..] == [order[0]] + (order[1..][..k - 1] + order[1..][k..]);
    }
  }

  /** A list of n distinct numbers below n contains each of them. */
  lemma {:induction false} OrderTotal(order: seq<nat>, n: nat, i: nat)
    requires GoodOrder(order, n) && i < n
    ensures i in order
  {
    if i !in order {
      var seen := set k | 0 <= k < n :: order[k];
      DistinctCount(order, n);
      IntervalSize(0, n);
      assert seen <= Interval(0, n) - {i};
      SubsetSize(seen, Interval(0, n) - {i});
      assert false;
    }
  }

  lemma {:induction false} DistinctCount(order: seq<nat>, n: nat)
    requires n <= |order| && forall x, y :: 0 <= x < y < |order| ==> order[x] != order[y]
    ensures |set k | 0 <= k < n :: order[k]| == n
  {
    if n > 0 {
      DistinctCount(order, n - 1);
      assert (set k | 0 <= k < n :: order[k]) == (set k | 0 <= k < n - 1 :: order[k]) + {order[n - 1]};
    }
  }

  // ----- preservation: Get -----

  lemma {:induction false} GetInv(c: Config, s: State, t: nat, b: nat)
    requires GoodConfig(c) && Inv(c, s) && Enabled(c, s, Get(t, b))
    ensures CacheInv(c, Next(c, s, Get(t, b)))
  {
    hide Log.Inv, Hit, Victim, GoodOrder, Unique, PinsCached, Latest, LastFree, GoodConfig;
    var bufs := s.cache.bufs;
    var h, v := Hit(bufs, s.cache.order, ROOTDEV, b), Victim(bufs, s.cache.order);
    HitSound(bufs, s.cache.order, ROOTDEV, b);
    VictimSound(bufs, s.cache.order);
    DiskSize(c, s.log);
    if h < |bufs| {
      assert GoodBuf(c, s.log, bufs[h]);
      hide CacheInv;
      KeepIdentity(c, s, h, bufs[h].(refcnt := bufs[h].refcnt + 1, waiting := bufs[h].waiting + {t}));
    } else {
      NotCached(s, b);
      hide Enabled;
      Recycle(c, s, t, v, b);
    }
  }

  lemma {:induction false} DiskSize(c: Config, log: Log.State)
    requires Log.Inv(c, log)
    ensures |log.disk| == |c.init|
  {
    hide PhaseInv, OpInv, CountInv, Log.Holds;
  }

  lemma {:induction false} HitSound(bufs: seq<Buf>, order: seq<nat>, dev: nat, b: nat)
    ensures var h := Hit(bufs, order, dev, b);
      h <= |bufs| && (h < |bufs| ==> Has(bufs[h], dev, b) && h in order)
    ensures Hit(bufs, order, dev, b) == |bufs| ==>
      forall k <- order :: k < |bufs| ==> !Has(bufs[k], dev, b)
  {
    if order != [] { HitSound(bufs, order[1..], dev, b); }
  }

  /** v is in the list and every buffer used less recently is referenced. */
  ghost predicate LastFree(bufs: seq<Buf>, order: seq<nat>, v: nat) {
    exists k :: 0 <= k < |order| && order[k] == v && Busy(bufs, order, k + 1)
  }

  ghost predicate Busy(bufs: seq<Buf>, order: seq<nat>, k: nat) {
    forall l :: k <= l < |order| && order[l] < |bufs| ==> bufs[order[l]].refcnt != 0
  }

  /** bget recycles the least recently used buffer that nobody references. */
  lemma {:induction false} VictimSound(bufs: seq<Buf>, order: seq<nat>)
    ensures var v := Victim(bufs, order);
      && v <= |bufs|
      && (v < |bufs| ==> bufs[v].refcnt == 0 && LastFree(bufs, order, v))
      && (v == |bufs| ==> forall k <- order :: k < |bufs| ==> bufs[k].refcnt != 0)
  {
    if order != [] {
      var front, last := order[..|order| - 1], order[|order| - 1];
      VictimSound(bufs, front);
      if last < |bufs| && bufs[last].refcnt == 0 {
        assert order[|order| - 1] == last && Busy(bufs, order, |order|);
      } else {
        var v := Victim(bufs, front);
        if v < |bufs| {
          var k :| 0 <= k < |front| && front[k] == v && Busy(bufs, front, k + 1);
          assert forall l :: k < l < |front| ==> order[l] == front[l];
          assert order[k] == v && Busy(bufs, order, k + 1);
        }
      }
    }
  }

  lemma {:induction false} NotCached(s: State, b: nat)
    requires GoodOrder(s.cache.order, |s.cache.bufs|)
    requires Hit(s.cache.bufs, s.cache.order, ROOTDEV, b) >= |s.cache.bufs|
    ensures forall i :: 0 <= i < |s.cache.bufs| ==> !Has(s.cache.bufs[i], ROOTDEV, b)
  {
    HitSound(s.cache.bufs, s.cache.order, ROOTDEV, b);
    forall i: nat | i < |s.cache.bufs| ensures !Has(s.cache.bufs[i], ROOTDEV, b) {
      OrderTotal(s.cache.order, |s.cache.bufs|, i);
    }
  }

  lemma {:induction false} Recycle(c: Config, s: State, t: nat, v: nat, b: nat)
    requires CacheInv(c, s) && v < |s.cache.bufs| && s.cache.bufs[v].refcnt == 0 && b < |c.init|
    requires forall i :: 0 <= i < |s.cache.bufs| ==> !Has(s.cache.bufs[i], ROOTDEV, b)
    ensures var was := s.cache.bufs[v];
      CacheInv(c, SetBuf(s, v, was.(dev := ROOTDEV, blockno := b, valid := false,
        refcnt := 1, waiting := was.waiting + {t})))
  {
    var bufs := s.cache.bufs;
    var was := bufs[v];
    var b' := was.(dev := ROOTDEV, blockno := b, valid := false, refcnt := 1, waiting := was.waiting + {t});
    assert GoodBuf(c, s.log, was);
    assert b !in Pinned(s.log);
    assert Pins(s.log, was) == 0 && was.waiting == {} && was.leaving == {};
    assert GoodBuf(c, s.log, b');
    RecycleUnique(c, s, v, b');
    RecyclePins(c, s, v, b');
    hide GoodBuf, Unique, PinsCached, GoodOrder;
  }

  lemma {:induction false} RecycleUnique(c: Config, s: State, v: nat, b: Buf)
    requires CacheInv(c, s) && v < |s.cache.bufs|
    requires forall i :: 0 <= i < |s.cache.bufs| ==> !Has(s.cache.bufs[i], ROOTDEV, b.blockno)
    ensures Unique(s.cache.bufs[v := b])
  {
    hide PinsCached, GoodOrder, Counted, Latest;
    var bufs := s.cache.bufs;
    forall i | 0 <= i < |bufs| && bufs[i].dev != 0 ensures bufs[i].blockno != b.blockno {
      assert GoodBuf(c, s.log, bufs[i]);
    }
  }

  lemma {:induction false} RecyclePins(c: Config, s: State, v: nat, b: Buf)
    requires CacheInv(c, s) && v < |s.cache.bufs| && Pins(s.log, s.cache.bufs[v]) == 0
    ensures PinsCached(s.log, s.cache.bufs[v := b])
  {
    hide GoodBuf, Unique, GoodOrder;
    var bufs, bufs' := s.cache.bufs, s.cache.bufs[v := b];
    forall x <- Pinned(s.log) ensures exists k :: 0 <= k < |bufs'| && Has(bufs'[k], ROOTDEV, x) && bufs'[k].valid {
      var k :| 0 <= k < |bufs| && Has(bufs[k], ROOTDEV, x) && bufs[k].valid;
      assert Has(bufs'[k], ROOTDEV, x) && bufs'[k].valid;
    }
  }

  // ----- preservation: the log changes -----

  /** A log step that pins the same blocks and leaves the latest contents alone. */
  lemma {:induction false} LogOnly(c: Config, s: State, log': Log.State)
    requires CacheInv(c, s) && Pinned(log') == Pinned(s.log)
    requires forall x: nat :: x < |c.init| ==> Latest(c, log', x) == Latest(c, s.log, x)
    ensures CacheInv(c, s.(log := log'))
  {
    hide Latest, Pinned, GoodOrder, Unique;
    var bufs := s.cache.bufs;
    forall i | 0 <= i < |bufs| ensures GoodBuf(c, log', bufs[i]) {
      assert GoodBuf(c, s.log, bufs[i]);
    }
    assert PinsCached(log', bufs);
  }

  lemma {:induction false} BeginInv(c: Config, s: State, id: nat)
    requires GoodConfig(c) && Inv(c, s) && Enabled(c, s, BeginOp(id))
    ensures CacheInv(c, Next(c, s, BeginOp(id)))
  {
    hide Log.Inv, CacheInv, Apply;
    LogOnly(c, s, Log.Next(c, s.log, Log.Begin(id)));
  }

  lemma {:induction false} EndInv(c: Config, s: State, k: nat)
    requires GoodConfig(c) && Inv(c, s) && Enabled(c, s, EndOp(k))
    ensures CacheInv(c, Next(c, s, EndOp(k)))
  {
    ActiveMeansQuiet(c, s.log);
    EndShape(c, s.log, k);
    hide Log.Inv, CacheInv, Apply, Log.Next;
    LogOnly(c, s, Log.Next(c, s.log, Log.End(k)));
  }

  lemma {:induction false} CrashInv(c: Config, s: State)
    ensures CacheInv(c, Next(c, s, PowerCut))
  {
  }


  lemma {:induction false} LogWriteInv(c: Config, s: State, t: nat, i: nat, k: nat)
    requires GoodConfig(c) && Inv(c, s) && Enabled(c, s, LogBuf(t, i, k))
    ensures CacheInv(c, Next(c, s, LogBuf(t, i, k)))
  {
    hide Log.Inv, GoodOrder, Unique, PinsCached, Latest, Ids, GoodConfig, Counted;
    var b := s.cache.bufs[i];
    assert GoodBuf(c, s.log, b);
    hide CacheInv, GoodBuf;
    ActiveMeansQuiet(c, s.log);
    var log' := Log.Next(c, s.log, Log.LogWrite(k, b.blockno, b.data));
    LogWriteLatest(c, s.log, k, b.blockno, b.data);
    assert Pinned(s.log) == s.log.lh && Pinned(log') == log'.lh;
    hide Pinned, Home;
    var isNew := b.blockno !in s.log.lh;
    LogWriteBufs(c, s, log', i, b.(dirty := false, refcnt := b.refcnt + if isNew then 1 else 0));
  }

  lemma {:induction false} LogWriteLatest(c: Config, log: Log.State, k: nat, b: nat, v: Block)
    requires Log.Enabled(c, log, Log.LogWrite(k, b, v)) && log.phase.Quiet?
    ensures var log' := Log.Next(c, log, Log.LogWrite(k, b, v));
      Latest(c, log', b) == v && forall x: nat :: x != b ==> Latest(c, log', x) == Latest(c, log, x)
  {
    var log' := Log.Next(c, log, Log.LogWrite(k, b, v));
    var w := Write(log.active[k].id, b, v);
    assert log'.durable + log'.pending == log.durable + log.pending + [w];
    ApplyLast(c.init, log.durable + log.pending, w);
    hide Apply, Ids;
  }

  lemma {:induction false} LogWriteBufs(c: Config, s: State, log': Log.State, i: nat, b: Buf)
    requires CacheInv(c, s) && i < |s.cache.bufs|
    requires var a := s.cache.bufs[i];
      && a.dev == ROOTDEV && a.valid
      && b == a.(dirty := false, refcnt := a.refcnt + if a.blockno in Pinned(s.log) then 0 else 1)
      && a.data == Latest(c, log', a.blockno)
      && Pinned(log') == (if a.blockno in Pinned(s.log) then Pinned(s.log) else Pinned(s.log) + [a.blockno])
      && (forall x: nat :: x != a.blockno ==> Latest(c, log', x) == Latest(c, s.log, x))
    ensures CacheInv(c, State.State(log', s.cache.(bufs := s.cache.bufs[i := b])))
  {
    hide Latest, Pinned, GoodOrder;
    var bufs, bufs' := s.cache.bufs, s.cache.bufs[i := b];
    var a := bufs[i];
    assert Unique(bufs');
    forall j | 0 <= j < |bufs| ensures GoodBuf(c, log', bufs'[j]) {
      assert GoodBuf(c, s.log, bufs[j]);
      assert j != i && bufs[j].dev != 0 ==> bufs[j].blockno != a.blockno;
    }
    hide GoodBuf, Unique;
    forall x <- Pinned(log') ensures exists k :: 0 <= k < |bufs'| && Has(bufs'[k], ROOTDEV, x) && bufs'[k].valid {
      if x == a.blockno {
        assert Has(bufs'[i], ROOTDEV, x) && bufs'[i].valid;
      } else {
        var k :| 0 <= k < |bufs| && Has(bufs[k], ROOTDEV, x) && bufs[k].valid;
        assert Has(bufs'[k], ROOTDEV, x) && bufs'[k].valid;
      }
    }
  }

  // ----- preservation: commit and recovery -----

  /** The block that the committer's next bwrite writes; |init| if it writes none. */
  function Target(c: Config, log: Log.State): nat {
    match log.phase
    case CopyToLog(n) => if n < |log.lh| then Slot(c, n) else |c.init|
    case Install(n) => if n < |log.lh| then log.lh[n] else |c.init|
    case RecoverInstall(n) => if n < |log.lh| then log.lh[n] else |c.init|
    case WriteHead => c.start
    case EraseHead => c.start
    case RecoverErase => c.start
    case ReadHead => |c.init|
    case Finish => |c.init|
    case Quiet => |c.init|
  }

  lemma {:induction false} EraseLatest(c: Config, log: Log.State, x: nat)
    requires GoodConfig(c) && Log.Inv(c, log) && x < |c.init| && log.phase.RecoverErase?
    ensures var log' := Log.NextAdvance(c, log);
      && (x != Target(c, log) ==> Latest(c, log', x) == Latest(c, log, x))
      && (x == Target(c, log) ==> Latest(c, log', x) == At(log'.disk, x))
  {
    hide OpInv, CountInv, Apply, Head, PutHead, Sized, GoodWrites, Within;
    var log' := Log.NextAdvance(c, log);
    if Home(c, x) {
      Log.EraseInv(c, log);
      assert log'.durable + log'.pending == log.durable;
      assert At(log'.disk, x) == At(Apply(c.init, log.durable), x);
    }
  }

  lemma {:induction false} CommitLatest(c: Config, log: Log.State, x: nat)
    requires GoodConfig(c) && Log.Inv(c, log) && x < |c.init| && !log.phase.RecoverErase?
    ensures var log' := Log.NextAdvance(c, log);
      && (x != Target(c, log) ==> Latest(c, log', x) == Latest(c, log, x))
      && (x == Target(c, log) ==> Latest(c, log', x) == At(log'.disk, x))
  {
    hide OpInv, CountInv, Apply, Head, PutHead, Sized, GoodWrites, Within;
    var log' := Log.NextAdvance(c, log);
    assert log.phase.WriteHead? ==> log'.durable + log'.pending == log.durable + log.pending;
    assert log.phase.Install? ==> log.durable + log.pending == log.durable;
    if log.phase.CopyToLog? && log.phase.tail < |log.lh| {
      assert !Home(c, Slot(c, log.phase.tail));
    }
    if log.phase.Install? && log.phase.tail < |log.lh| {
      assert At(log.disk, Slot(c, log.phase.tail)) == At(Apply(c.init, log.durable), log.lh[log.phase.tail]);
    }
  }

  /** A committer step changes the latest contents of its target at most, and leaves those on disk. */
  lemma {:induction false} AdvanceLatest(c: Config, log: Log.State, x: nat)
    requires GoodConfig(c) && Log.Inv(c, log) && x < |c.init|
    ensures var log' := Log.NextAdvance(c, log);
      && (x != Target(c, log) ==> Latest(c, log', x) == Latest(c, log, x))
      && (x == Target(c, log) ==> Latest(c, log', x) == At(log'.disk, x))
  {
    hide Log.Inv, Latest, Log.NextAdvance, Target, GoodConfig;
    if log.phase.RecoverErase? { EraseLatest(c, log, x); } else { CommitLatest(c, log, x); }
  }

  /** The committer finds in its buffers what the log protocol reads from disk and cache. */
  lemma {:induction false} CommitRefines(c: Config, s: State, t: nat, i: nat, j: nat)
    requires GoodConfig(c) && Inv(c, s) && Enabled(c, s, CommitStep(t, i, j))
    ensures NextAdvance(c, s, i, j).log == Log.NextAdvance(c, s.log)
  {
    hide GoodOrder, Unique, PinsCached, Counted, OpInv, CountInv, Holds, SlotsHold, HomesHold, Sized, Apply, Head,
      PutHead;
    var bufs := s.cache.bufs;
    assert i < |bufs| ==> GoodBuf(c, s.log, bufs[i]);
    assert j < |bufs| ==> GoodBuf(c, s.log, bufs[j]);
    assert !Home(c, c.start);
    assert forall n: nat :: n < |s.log.lh| ==> !Home(c, Slot(c, n));
  }

  /** Buffer k is written through to disk, and unpinned if the log no longer pins its block. */
  lemma {:induction false} WriteThrough(c: Config, s: State, log': Log.State, k: nat, b: Buf)
    requires CacheInv(c, s) && k < |s.cache.bufs|
    requires var a := s.cache.bufs[k];
      && a.dev == ROOTDEV && a.valid && !a.dirty
      && b == a.(data := Latest(c, log', a.blockno), refcnt := a.refcnt - Pins(s.log, a) + Pins(log', a))
      && (forall x: nat :: x != a.blockno && x < |c.init| ==> Latest(c, log', x) == Latest(c, s.log, x))
      && (forall x: nat :: x != a.blockno ==> (x in Pinned(log') <==> x in Pinned(s.log)))
      && (a.blockno in Pinned(log') ==> a.blockno in Pinned(s.log))
    ensures CacheInv(c, State.State(log', s.cache.(bufs := s.cache.bufs[k := b])))
  {
    hide Latest, Pinned, GoodOrder;
    var bufs, bufs' := s.cache.bufs, s.cache.bufs[k := b];
    var a := bufs[k];
    assert Unique(bufs');
    forall j | 0 <= j < |bufs| ensures GoodBuf(c, log', bufs'[j]) {
      assert GoodBuf(c, s.log, bufs[j]);
      assert j != k && bufs[j].dev != 0 ==> bufs[j].blockno != a.blockno;
    }
    hide GoodBuf, Unique;
    forall x <- Pinned(log') ensures exists l :: 0 <= l < |bufs'| && Has(bufs'[l], ROOTDEV, x) && bufs'[l].valid {
      var l :| 0 <= l < |bufs| && Has(bufs[l], ROOTDEV, x) && bufs[l].valid;
      assert Has(bufs'[l], ROOTDEV, x) && bufs'[l].valid;
    }
  }

  /** How a committer step changes the pins: install_trans unpins its target, nothing else moves. */
  lemma {:induction false} AdvancePins(c: Config, log: Log.State)
    requires GoodConfig(c) && Log.Inv(c, log)
    ensures var log' := Log.NextAdvance(c, log);
      && (forall x: nat :: x != Target(c, log) ==> (x in Pinned(log') <==> x in Pinned(log)))
      && (log.phase.Install? && log.phase.tail < |log.lh| ==>
            Target(c, log) in Pinned(log) && Target(c, log) !in Pinned(log'))
      && (!(log.phase.Install? && log.phase.tail < |log.lh|) ==> Pinned(log') == Pinned(log))
  {
    hide OpInv, CountInv, Holds, SlotsHold, HomesHold, Sized, Apply, Head, PutHead, Put, Latest, At;
    if log.phase.Install? && log.phase.tail < |log.lh| { OnePinLess(c, log.lh, log.phase.tail); }
    hide GoodList;
    assert log.phase.WriteHead? ==> log.lh[0..] == log.lh;
  }

  lemma {:induction false} OnePinLess(c: Config, lh: seq<nat>, n: nat)
    requires GoodList(c, lh) && n < |lh|
    ensures lh[n] in lh[n..] && lh[n] !in lh[n + 1..]
    ensures forall x: nat :: x != lh[n] ==> (x in lh[n..] <==> x in lh[n + 1..])
  {
    assert lh[n..] == [lh[n]] + lh[n + 1..];
  }

  lemma {:induction false} CommitInv(c: Config, s: State, t: nat, i: nat, j: nat)
    requires GoodConfig(c) && Inv(c, s) && Enabled(c, s, CommitStep(t, i, j))
    ensures CacheInv(c, NextAdvance(c, s, i, j))
  {
    hide Log.Inv, CacheInv, GoodConfig, Pinned, Latest;
    var log' := Log.NextAdvance(c, s.log);
    CommitRefines(c, s, t, i, j);
    AdvancePins(c, s.log);
    forall x: nat | x < |c.init| ensures
        && (x != Target(c, s.log) ==> Latest(c, log', x) == Latest(c, s.log, x))
        && (x == Target(c, s.log) ==> Latest(c, log', x) == At(log'.disk, x))
    {
      AdvanceLatest(c, s.log, x);
    }
    CommitTarget(c, s, t, i, j);
    var w := if s.log.phase.Install? || s.log.phase.RecoverInstall? then j else i;
    if Target(c, s.log) == |c.init| {
      assert NextAdvance(c, s, i, j) == s.(log := log');
      LogOnly(c, s, log');
    } else {
      WriteThrough(c, s, log', w, NextAdvance(c, s, i, j).cache.bufs[w]);
    }
  }

  /** The buffer that the committer writes: its block is the target, and it gets the target's new contents. */
  lemma {:induction false} CommitTarget(c: Config, s: State, t: nat, i: nat, j: nat)
    requires GoodConfig(c) && Inv(c, s) && Enabled(c, s, CommitStep(t, i, j))
    ensures Target(c, s.log) == |c.init| ==> NextAdvance(c, s, i, j) == s.(log := Log.NextAdvance(c, s.log))
    ensures Target(c, s.log) != |c.init| ==>
      var w := if s.log.phase.Install? || s.log.phase.RecoverInstall? then j else i;
      var log' := Log.NextAdvance(c, s.log);
      && Target(c, s.log) < |c.init| && Owns(s, t, w, Target(c, s.log))
      && var a := s.cache.bufs[w];
         var refcnt := a.refcnt - if s.log.phase.Install? then 1 else 0;
         NextAdvance(c, s, i, j) ==
           SetBuf(s, w, a.(data := At(log'.disk, Target(c, s.log)), refcnt := refcnt)).(log := log')
  {
    hide Log.Inv, CacheInv, Latest, Head, PutHead, GoodConfig, Home;
    CommitRefines(c, s, t, i, j);
    CommitIndices(c, s, t, i, j);
    match s.log.phase
    case CopyToLog(n) =>
    case Install(n) =>
    case RecoverInstall(n) =>
    case _ =>
  }

  lemma {:induction false} CommitIndices(c: Config, s: State, t: nat, i: nat, j: nat)
    requires GoodConfig(c) && Inv(c, s) && Enabled(c, s, CommitStep(t, i, j))
    ensures |s.log.disk| == |c.init| && c.start < |c.init|
    ensures forall n :: 0 <= n < |s.log.lh| ==> s.log.lh[n] < |c.init|
    ensures forall n: nat :: n < |s.log.lh| ==> Slot(c, n) < |c.init|
  {
    hide CacheInv, OpInv, CountInv, PhaseInv, Holds, Sized;
    assert GoodList(c, s.log.lh);
  }

  // ----- runs -----

  function Init(c: Config, nbuf: nat): State { State.State(Log.Init(c), Fresh(nbuf)) }

  ghost predicate Legal(c: Config, nbuf: nat, evs: seq<Event>)
    decreases |evs|, 0
  {
    evs == [] || (
      var front := evs[..|evs| - 1];
      Legal(c, nbuf, front) && Enabled(c, Run(c, nbuf, front), evs[|evs| - 1]))
  }

  ghost function Run(c: Config, nbuf: nat, evs: seq<Event>): State
    requires Legal(c, nbuf, evs)
    decreases |evs|, 1
  {
    if evs == [] then Init(c, nbuf) else Next(c, Run(c, nbuf, evs[..|evs| - 1]), evs[|evs| - 1])
  }

  /** The step of the log protocol that a cache event takes, if any. */
  ghost function LogSteps(s: State, e: Event): seq<Log.Event> {
    match e
    case LogBuf(t, i, k) =>
      if i < |s.cache.bufs| then [Log.LogWrite(k, s.cache.bufs[i].blockno, s.cache.bufs[i].data)] else []
    case BeginOp(id) => [Log.Begin(id)]
    case EndOp(k) => [Log.End(k)]
    case CommitStep(_, _, _) => [Log.Advance]
    case PowerCut => [Log.Crash]
    case _ => []
  }

  ghost function Project(c: Config, nbuf: nat, evs: seq<Event>): seq<Log.Event>
    requires Legal(c, nbuf, evs)
  {
    if evs == [] then [] else
      var front := evs[..|evs| - 1];
      Project(c, nbuf, front) + LogSteps(Run(c, nbuf, front), evs[|evs| - 1])
  }

  lemma {:induction false} NextCacheInv(c: Config, s: State, e: Event)
    requires GoodConfig(c) && Inv(c, s) && Enabled(c, s, e)
    ensures CacheInv(c, Next(c, s, e))
  {
    hide Log.Inv, CacheInv, GoodConfig, Enabled;
    match e
    case Get(t, b) => GetInv(c, s, t, b);
    case Lock(t, i) => LockInv(c, s, t, i);
    case Read(t, i) => ReadInv(c, s, t, i);
    case Modify(t, i, v) => ModifyInv(c, s, t, i, v);
    case LogBuf(t, i, k) => LogWriteInv(c, s, t, i, k);
    case Unlock(t, i) => UnlockInv(c, s, t, i);
    case Drop(t, i) => DropInv(c, s, t, i);
    case BeginOp(id) => BeginInv(c, s, id);
    case EndOp(k) => EndInv(c, s, k);
    case CommitStep(t, i, j) => CommitInv(c, s, t, i, j);
    case PowerCut => CrashInv(c, s);
  }

  /** A cache step is a step of the log protocol or leaves the log alone. */
  lemma {:induction false} NextRefines(c: Config, s: State, e: Event)
    requires GoodConfig(c) && Inv(c, s) && Enabled(c, s, e)
    ensures var l := LogSteps(s, e);
      if l == [] then Next(c, s, e).log == s.log
      else |l| == 1 && Log.Enabled(c, s.log, l[0]) && Next(c, s, e).log == Log.Next(c, s.log, l[0])
  {
    hide Log.Inv, CacheInv, GoodConfig, Hit, Victim, CommitterHolds, NextAdvance, Running;
    if e.CommitStep? { CommitRefines(c, s, e.t, e.i, e.j); }
  }

  /**
   Every run of the cache is a run of the log protocol, whatever the processes
   do: all that module Log proves, crash atomicity included, holds of the cache.
   */
  lemma {:induction false} CacheRefinesLog(c: Config, nbuf: nat, evs: seq<Event>)
    requires GoodConfig(c) && Legal(c, nbuf, evs)
    ensures Inv(c, Run(c, nbuf, evs))
    ensures Log.Legal(c, Project(c, nbuf, evs))
    ensures Log.Run(c, Project(c, nbuf, evs)) == Run(c, nbuf, evs).log
  {
    hide Log.Inv, CacheInv, Next, Enabled, Log.Next, Log.Enabled;
    if evs == [] {
      FreshInv(c, nbuf);
    } else {
      var front, e := evs[..|evs| - 1], evs[|evs| - 1];
      CacheRefinesLog(c, nbuf, front);
      var s, a := Run(c, nbuf, front), Project(c, nbuf, front);
      NextCacheInv(c, s, e);
      NextRefines(c, s, e);
      var l := LogSteps(s, e);
      if l == [] {
        assert a + l == a;
      } else {
        Extend(c, a, l[0]);
        assert l == [l[0]];
        Log.NextInv(c, s.log, l[0]);
      }
    }
  }

  lemma {:induction false} FreshInv(c: Config, nbuf: nat)
    requires GoodConfig(c)
    ensures Inv(c, Init(c, nbuf))
  {
    InitInv(c);
    hide Log.Inv;
  }

  /**
   Refinement of a plain map: in every reachable state each block has at most
   one buffer, and a buffer that is valid and has no unlogged change of its
   holder in it shows what the last log_write of that block left.
   */
  lemma {:induction false} BreadLatest(c: Config, nbuf: nat, evs: seq<Event>, i: nat)
    requires GoodConfig(c) && Legal(c, nbuf, evs) && i < |Run(c, nbuf, evs).cache.bufs|
    requires var b := Run(c, nbuf, evs).cache.bufs[i]; b.valid && !b.dirty
    ensures var s := Run(c, nbuf, evs); var b := s.cache.bufs[i];
      && b.dev == ROOTDEV && b.data == Latest(c, s.log, b.blockno)
      && forall j :: 0 <= j < |s.cache.bufs| && j != i && s.cache.bufs[j].dev != 0 ==>
           s.cache.bufs[j].blockno != b.blockno
  {
    CacheRefinesLog(c, nbuf, evs);
    var s := Run(c, nbuf, evs);
    hide Run, Legal, Log.Inv, GoodOrder, PinsCached, Counted, Latest;
    assert GoodBuf(c, s.log, s.cache.bufs[i]);
  }

  /** refcnt is exact, and a block that the log still needs is cached and cannot be recycled. */
  lemma {:induction false} LoggedStaysCached(c: Config, nbuf: nat, evs: seq<Event>, b: nat)
    requires GoodConfig(c) && Legal(c, nbuf, evs) && b in Pinned(Run(c, nbuf, evs).log)
    ensures var s := Run(c, nbuf, evs); var bufs := s.cache.bufs;
      && (exists i :: 0 <= i < |bufs| && Has(bufs[i], ROOTDEV, b) && bufs[i].valid && bufs[i].refcnt > 0)
      && Hit(bufs, s.cache.order, ROOTDEV, b) < |bufs|
      && Victim(bufs, s.cache.order) != Hit(bufs, s.cache.order, ROOTDEV, b)
      && (forall i :: 0 <= i < |bufs| ==> Counted(s.log, bufs[i]))
  {
    CacheRefinesLog(c, nbuf, evs);
    var s := Run(c, nbuf, evs);
    var bufs := s.cache.bufs;
    hide Run, Legal, Log.Inv, Latest, Pinned, Unique, Hit, Victim;
    forall i | 0 <= i < |bufs| ensures Counted(s.log, bufs[i]) {
      assert GoodBuf(c, s.log, bufs[i]);
    }
    hide GoodBuf;
    var i :| 0 <= i < |bufs| && Has(bufs[i], ROOTDEV, b) && bufs[i].valid;
    assert Counted(s.log, bufs[i]);
    HitSound(bufs, s.cache.order, ROOTDEV, b);
    OrderTotal(s.cache.order, |bufs|, i);
    var h := Hit(bufs, s.cache.order, ROOTDEV, b);
    assert Counted(s.log, bufs[h]);
    VictimSound(bufs, s.cache.order);
  }
}
