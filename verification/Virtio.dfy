/**
 The split virtqueue driver of kernel/virtio_disk.c with the device beside it
 (sections 2.6 and 5.2 of VirtIO 1.1). Driver methods are sections under
 vdisk_lock, device methods are single steps of the device; any order of calls
 is a run. The device may complete requests in any order.
 */
module Virtio {
  import opened Arith
  import opened Options

  const NUM: nat := 8
  /** uint16 indices wrap here. */
  const WRAP: nat := 0x1_0000

  /** What a descriptor points at: a request header in ops, the data of a buffer, or a status byte in info. */
  datatype Area = Nothing | Header(write: bool, sector: nat) | Data(buf: nat, deviceWrites: bool) | Status(head: nat)

  /** more: VRING_DESC_F_NEXT */
  datatype Desc = Desc(area: Area, next: nat, more: bool)

  datatype Info = Info(b: Option<nat>, status: nat)

  datatype Phase = Published | InDevice | Completed | Handled

  /** A request under way: its buffer, its other two descriptors, and where in published or completed it stands. */
  datatype Req = Req(buf: nat, write: bool, sector: nat, d1: nat, d2: nat, phase: Phase, at: nat)

  type Reqs = map<nat, Req>

  // ----- what the driver and the device share -----

  predicate ChainOk(desc: seq<Desc>, info: seq<Info>, h: nat, r: Req) {
    && |desc| == NUM && |info| == NUM && h < NUM && r.d1 < NUM && r.d2 < NUM && h != r.d1 && h != r.d2 && r.d1 != r.d2
    && desc[h] == Desc(Header(r.write, r.sector), r.d1, true)
    && desc[r.d1] == Desc(Data(r.buf, !r.write), r.d2, true)
    && desc[r.d2] == Desc(Status(h), 0, false)
    && info[h].b == Some(r.buf)
    && info[h].status == if r.phase.Completed? || r.phase.Handled? then 0 else 0xff
  }

  ghost predicate Chains(desc: seq<Desc>, info: seq<Info>, reqs: Reqs) {
    forall h: nat :: h in reqs ==> ChainOk(desc, info, h, reqs[h])
  }

  predicate PartOf(d: nat, h: nat, r: Req) { d == h || d == r.d1 || d == r.d2 }

  /** own names the request each descriptor belongs to; a descriptor without one is free. */
  ghost predicate Owners(free: seq<bool>, own: seq<Option<nat>>, reqs: Reqs) {
    && |free| == NUM && |own| == NUM
    && (forall d: nat :: d < NUM ==> free[d] == own[d].None?)
    && (forall d: nat :: d < NUM && own[d].Some? ==>
          own[d].value in reqs && PartOf(d, own[d].value, reqs[own[d].value]))
    && (forall h: nat, d: nat :: h in reqs && d < NUM && PartOf(d, h, reqs[h]) ==> own[d] == Some(h))
  }

  /** The entries of a ring from `from` on are still in their cells, and are the requests in that phase. */
  ghost predicate Ring(ring: seq<nat>, all: seq<nat>, from: nat, reqs: Reqs, phase: Phase) {
    && |ring| == NUM && from <= |all|
    && (forall k: nat :: from <= k < |all| ==>
          ring[k % NUM] == all[k] && all[k] in reqs && reqs[all[k]].phase == phase && reqs[all[k]].at == k)
    && (forall h: nat :: h in reqs && reqs[h].phase == phase ==> from <= reqs[h].at < |all| && all[reqs[h].at] == h)
  }

  /** b->disk is set exactly for the buffers of requests that the driver has not seen completed. */
  ghost predicate Busy(busy: set<nat>, reqs: Reqs) {
    && (forall h: nat :: h in reqs ==> (reqs[h].buf in busy <==> !reqs[h].phase.Handled?))
    && (forall b: nat :: b in busy ==> exists h: nat :: h in reqs && reqs[h].buf == b)
    && (forall h: nat, g: nat :: h in reqs && g in reqs && reqs[h].buf == reqs[g].buf ==> h == g)
  }

  // ----- a ring cannot overflow -----

  predicate Distinct(s: seq<nat>) { forall i, j :: 0 <= i < j < |s| ==> s[i] != s[j] }

  lemma {:induction false} Pigeon(s: seq<nat>, n: nat)
    requires Distinct(s) && forall i :: 0 <= i < |s| ==> s[i] < n
    ensures |s| <= n
    decreases n
  {
    assert s != [] ==> s[0] < n;
    if s == [] {
    } else if k: nat :| k < |s| && s[k] == n - 1 {
      Pigeon(s[..k] + s[k + 1..], n - 1);
    } else {
      Pigeon(s, n - 1);
    }
  }

  /** As many entries are waiting in a ring as there are requests in that phase, and a further head leaves room. */
  lemma {:induction false} Room(ring: seq<nat>, all: seq<nat>, from: nat, reqs: Reqs, phase: Phase, h: nat)
    requires Ring(ring, all, from, reqs, phase) && (forall g: nat :: g in reqs ==> g < NUM)
    requires h < NUM && (h in reqs ==> reqs[h].phase != phase)
    ensures |all| - from < NUM
  {
    var s := all[from..] + [h];
    forall i, j | 0 <= i < j < |s| ensures s[i] != s[j] {
      assert from + i < |all| && s[i] == all[from + i];
      assert j < |s| - 1 ==> s[j] == all[from + j];
    }
    forall i | 0 <= i < |s| ensures s[i] < NUM {
      assert i < |s| - 1 ==> s[i] == all[from + i];
    }
    Pigeon(s, NUM);
  }

  lemma {:induction false} RingIndex(x: nat)
    ensures x % WRAP % NUM == x % NUM
  {
    WrapSafe(NUM, WRAP);
  }

  // ----- changes to one request -----

  /** A head moves to the end of a ring. */
  lemma {:induction false} RingPush(ring: seq<nat>, all: seq<nat>, from: nat, reqs: Reqs, phase: Phase, h: nat, r: Req)
    requires Ring(ring, all, from, reqs, phase) && (forall g: nat :: g in reqs ==> g < NUM) && h < NUM
    requires (h in reqs ==> reqs[h].phase != phase) && r.phase == phase && r.at == |all|
    ensures Ring(ring[|all| % NUM := h], all + [h], from, reqs[h := r], phase)
  {
    Room(ring, all, from, reqs, phase, h);
    var ring', all', reqs' := ring[|all| % NUM := h], all + [h], reqs[h := r];
    forall k: nat | from <= k < |all'|
      ensures ring'[k % NUM] == all'[k] && all'[k] in reqs' && reqs'[all'[k]].phase == phase && reqs'[all'[k]].at == k
    {
      if k < |all| {
        CellsApart(k, |all|, NUM);
        assert all'[k] == all[k] && all[k] in reqs;
      }
    }
  }

  /** The first waiting head of a ring moves on to another phase. */
  lemma {:induction false} RingPop(ring: seq<nat>, all: seq<nat>, from: nat, reqs: Reqs, phase: Phase, r: Req)
    requires Ring(ring, all, from, reqs, phase) && from < |all| && r.phase != phase
    ensures Ring(ring, all, from + 1, reqs[all[from] := r], phase)
  {
    var h := all[from];
    assert h in reqs && reqs[h].at == from;
    forall k: nat | from + 1 <= k < |all| ensures all[k] != h {
      assert all[k] in reqs && reqs[all[k]].at == k;
    }
  }

  /** A change to a request that is in neither the old nor the new state in this phase. */
  lemma {:induction false} RingOther(ring: seq<nat>, all: seq<nat>, from: nat, reqs: Reqs, phase: Phase, h: nat, r: Req)
    requires Ring(ring, all, from, reqs, phase) && (h in reqs ==> reqs[h].phase != phase) && r.phase != phase
    ensures Ring(ring, all, from, reqs[h := r], phase)
  {
  }

  lemma {:induction false} RingDrop(ring: seq<nat>, all: seq<nat>, from: nat, reqs: Reqs, phase: Phase, h: nat)
    requires Ring(ring, all, from, reqs, phase) && h in reqs && reqs[h].phase != phase
    ensures Ring(ring, all, from, reqs - {h}, phase)
  {
  }

  const BLANK: Desc := Desc(Nothing, 0, false)

  /** Free descriptors are zeroed. */
  ghost predicate Blanks(desc: seq<Desc>, free: seq<bool>) {
    |desc| == NUM && |free| == NUM && forall d: nat :: d < NUM && free[d] ==> desc[d] == BLANK
  }

  ghost predicate ThreeFree(free: seq<bool>) {
    exists a: nat, b: nat, c: nat :: a < b < c < |free| && free[a] && free[b] && free[c]
  }

  class Disk {
    var desc: seq<Desc>
    var free: seq<bool>
    var info: seq<Info>
    var availRing: seq<nat>
    var availIdx: nat
    var usedRing: seq<nat>
    var usedIdx: nat
    /** How far the device has looked in availRing */
    var lastAvail: nat
    /** disk.used_idx: how far the driver has looked in usedRing */
    var seen: nat
    /** Buffers whose disk field is 1 */
    var busy: set<nat>
    ghost var reqs: Reqs
    ghost var own: seq<Option<nat>>
    /** Heads in the order in which the driver made them available, and how many of them the device has read */
    ghost var published: seq<nat>
    ghost var consumed: nat
    /** Heads in the order in which the device returned them, and how many of them the driver has handled */
    ghost var completed: seq<nat>
    ghost var handled: nat

    ghost predicate Valid()
      reads this
    {
      && Chains(desc, info, reqs) && Owners(free, own, reqs) && Blanks(desc, free) && Busy(busy, reqs) && |info| == NUM
      && Ring(availRing, published, consumed, reqs, Published) &&
           availIdx == |published| % WRAP && lastAvail == consumed % WRAP
      && Ring(usedRing, completed, handled, reqs, Completed) && usedIdx == |completed| % WRAP && seen == handled % WRAP
    }

    constructor ()
      ensures Valid() && reqs == map[] && busy == {}
    {
      desc := seq(NUM, i => BLANK);
      free := seq(NUM, i => true);
      info := seq(NUM, i => Info(None, 0));
      availRing, usedRing := seq(NUM, i => 0), seq(NUM, i => 0);
      availIdx, usedIdx, lastAvail, seen, busy := 0, 0, 0, 0, {};
      reqs, own := map[], seq(NUM, i => None);
      published, consumed, completed, handled := [], 0, [], 0;
    }

    method AllocDesc() returns (i: int)
      requires |free| == NUM
      modifies `free
      ensures i == -1 || 0 <= i < NUM
      ensures i == -1 ==> free == old(free) && forall d: nat :: d < NUM ==> !free[d]
      ensures i != -1 ==> old(free)[i] && free == old(free)[i := false] && forall d: nat :: d < i ==> !old(free)[d]
    {
      i := 0;
      while i < NUM
        invariant 0 <= i <= NUM && free == old(free) && forall d: nat :: d < i ==> !free[d]
      {
        if free[i] {
          free := free[i := false];
          return;
        }
        i := i + 1;
      }
      return -1;
    }

    /** The preconditions are the guards of the panics "free_desc 1" and "free_desc 2". */
    method FreeDesc(i: nat)
      requires |free| == NUM && |desc| == NUM && i < NUM && !free[i]
      modifies `free, `desc
      ensures free == old(free)[i := true] && desc == old(desc)[i := BLANK]
    {
      desc := desc[i := BLANK];
      free := free[i := true];
    }

    method Alloc3Desc() returns (ok: bool, idx: seq<nat>)
      requires Blanks(desc, free)
      modifies `free, `desc
      ensures desc == old(desc) && (!ok ==> free == old(free)) && (ok <==> ThreeFree(old(free)))
      ensures ok ==> |idx| == 3 && idx[0] < idx[1] < idx[2] < NUM && Taken(old(free), free, idx)
    {
      assert |free| == NUM;
      hide Taken, Lowest, ThreeFree, Blanks;
      idx := [];
      TakenNone(free);
      var i := 0;
      while i < 3
        invariant i == |idx| <= 3 && desc == old(desc) && Taken(old(free), free, idx) && Lowest(old(free), idx)
      {
        ghost var before := free;
        TakenShape(old(free), free, idx);
        var d := AllocDesc();
        if d < 0 {
          NoThree(old(free), free, idx);
          var j := 0;
          while j < i
            invariant j <= i && Taken(old(free), free, idx[j..]) && desc == old(desc)
          {
            TakenShape(old(free), free, idx[j..]);
            assert idx[j..][0] == idx[j] && idx[j..][1..] == idx[j + 1..];
            BlankStays(old(desc), old(free), idx[j]);
            TakenLess(old(free), free, idx[j..]);
            FreeDesc(idx[j]);
            j := j + 1;
          }
          TakenAll(old(free), free, idx[i..]);
          return false, [];
        }
        TakenMore(old(free), before, idx, d);
        idx := idx + [d];
        i := i + 1;
      }
      TakenThree(old(free), free, idx);
      ok := true;
    }

    /**
     virtio_disk_rw up to its sleep: false if it must first wait for descriptors. The caller holds the
     buffer's lock, so no request for it is under way.
     */
    method Submit(b: nat, write: bool, sector: nat) returns (ok: bool, head: nat, ghost r: Req)
      requires Valid() && forall h: nat :: h in reqs ==> reqs[h].buf != b
      modifies `desc, `free, `info, `busy, `availRing, `availIdx, `published, `own, `reqs
      ensures Valid() && (ok <==> ThreeFree(old(free)))
      ensures !ok ==> reqs == old(reqs) && published == old(published)
      ensures !ok ==> busy == old(busy) && desc == old(desc) && free == old(free)
      ensures ok ==> head !in old(reqs) && published == old(published) + [head] && busy == old(busy) + {b}
      ensures ok ==> reqs == old(reqs)[head := r] && r.buf == b && r.write == write
      ensures ok ==> r.sector == sector && r.phase == Published
    {
      assert |desc| == NUM && |own| == NUM;
      hide Chains, Owners, Busy, Ring, ThreeFree, Blanks, Taken;
      head, r := 0, Req(b, write, sector, 0, 0, Published, 0);
      var idx;
      ok, idx := Alloc3Desc();
      if ok {
        head, r := idx[0], Req(b, write, sector, idx[1], idx[2], Published, |published|);
        Issue(idx, b, write, sector, old(free));
      }
    }

    /** virtio_disk_rw once it has its descriptors. */
    method Issue(idx: seq<nat>, b: nat, write: bool, sector: nat, ghost was: seq<bool>)
      requires |idx| == 3 && idx[0] < idx[1] < idx[2] < NUM && Taken(was, free, idx)
      requires Owners(was, own, reqs) && Blanks(desc, was)
      requires Chains(desc, info, reqs) && Busy(busy, reqs) && |info| == NUM && |desc| == NUM && |own| == NUM
      requires Ring(availRing, published, consumed, reqs, Published) && availIdx == |published| % WRAP
      requires Ring(usedRing, completed, handled, reqs, Completed)
      requires forall h: nat :: h in reqs ==> reqs[h].buf != b
      modifies `desc, `info, `busy, `availRing, `availIdx, `published, `own, `reqs
      ensures Chains(desc, info, reqs) && Owners(free, own, reqs)
      ensures Blanks(desc, free) && Busy(busy, reqs) && |info| == NUM
      ensures Ring(availRing, published, consumed, reqs, Published) && availIdx == |published| % WRAP
      ensures Ring(usedRing, completed, handled, reqs, Completed)
      ensures idx[0] !in old(reqs)
      ensures reqs == old(reqs)[idx[0] := Req(b, write, sector, idx[1], idx[2], Published, old(|published|))]
      ensures published == old(published) + [idx[0]] && busy == old(busy) + {b}
    {
      hide Chains, Owners, Busy, Ring, Blanks, Taken, Written, Tagged;
      var head := idx[0];
      ghost var r := Req(b, write, sector, idx[1], idx[2], Published, |published|);
      NewHead(was, free, own, reqs, desc, idx, r);
      NewChain(desc, info, was, free, own, reqs, idx, r);
      NewBusy(busy, reqs, head, r);
      NewRings(desc, info, availRing, published, consumed, usedRing, completed, handled, reqs, head, r);
      WriteChain(idx[0], idx[1], idx[2], b, write, sector, r);
      busy := busy + {b};
      MakeAvailable(head);
      own := Tagged(own, head, r);
      reqs := reqs[head := r];
    }

    /** Format the three descriptors and record the buffer for the interrupt handler. */
    method WriteChain(i0: nat, i1: nat, i2: nat, b: nat, write: bool, sector: nat, ghost r: Req)
      requires |desc| == NUM && |info| == NUM && i0 < NUM && i1 < NUM && i2 < NUM
      requires r.buf == b && r.write == write && r.sector == sector && r.d1 == i1 && r.d2 == i2
      modifies `desc, `info
      ensures desc == Written(old(desc), i0, r) && info == old(info)[i0 := Info(Some(b), 0xff)]
    {
      desc := desc[i0 := Desc(Header(write, sector), i1, true)];
      desc := desc[i1 := Desc(Data(b, !write), i2, true)];
      info := info[i0 := info[i0].(status := 0xff)];
      desc := desc[i2 := Desc(Status(i0), 0, false)];
      info := info[i0 := info[i0].(b := Some(b))];
    }

    /** disk.avail->ring[disk.avail->idx % NUM] = idx[0]; disk.avail->idx += 1 */
    method MakeAvailable(head: nat)
      requires |availRing| == NUM && availIdx == |published| % WRAP
      modifies `availRing, `availIdx, `published
      ensures availRing == old(availRing)[old(|published|) % NUM := head]
      ensures published == old(published) + [head] && availIdx == |published| % WRAP
    {
      RingIndex(|published|);
      WrapAdd(|published|, 1, WRAP);
      availRing := availRing[availIdx % NUM := head];
      availIdx := (availIdx + 1) % WRAP;
      published := published + [head];
    }

    /** The device reads the next available head and follows its chain: it finds the request as it was made. */
    method DeviceTake() returns (h: nat, write: bool, sector: nat, buf: nat)
      requires Valid() && consumed < |published|
      modifies `lastAvail, `consumed, `reqs
      ensures Valid() && h == published[old(consumed)] && consumed == old(consumed) + 1
      ensures h in old(reqs) && reqs == old(reqs)[h := old(reqs)[h].(phase := InDevice)]
      ensures write == old(reqs)[h].write && sector == old(reqs)[h].sector && buf == old(reqs)[h].buf
    {
      hide Chains, Owners, Busy, Blanks, Ring;
      RingIndex(consumed);
      WrapAdd(consumed, 1, WRAP);
      Front(availRing, published, consumed, reqs, Published);
      h := availRing[lastAvail % NUM];
      ChainAt(desc, info, reqs, h);
      write, sector := desc[h].area.write, desc[h].area.sector;
      buf := desc[desc[h].next].area.buf;
      ghost var r := reqs[h].(phase := InDevice);
      Moves(desc, info, free, own, busy, reqs, h, r);
      RingPop(availRing, published, consumed, reqs, Published, r);
      RingOther(usedRing, completed, handled, reqs, Completed, h, r);
      lastAvail := (lastAvail + 1) % WRAP;
      consumed := consumed + 1;
      reqs := reqs[h := r];
    }

    /** The device finishes one of the requests it has, in any order, without error. */
    method DeviceDone(h: nat)
      requires Valid() && h in reqs && reqs[h].phase == InDevice
      modifies `info, `usedRing, `usedIdx, `completed, `reqs
      ensures Valid() && completed == old(completed) + [h]
      ensures reqs == old(reqs)[h := old(reqs)[h].(phase := Completed, at := |old(completed)|)]
    {
      hide Chains, Owners, Busy, Blanks, Ring;
      ChainAt(desc, info, reqs, h);
      ghost var r := reqs[h].(phase := Completed, at := |completed|);
      HeadsSmall(desc, info, reqs);
      Answered(desc, info, free, own, busy, reqs, h, r);
      RingOther(availRing, published, consumed, reqs, Published, h, r);
      RingPush(usedRing, completed, handled, reqs, Completed, h, r);
      RingSize(usedRing, completed, handled, reqs, Completed);
      RingIndex(|completed|);
      WrapAdd(|completed|, 1, WRAP);
      info := info[h := info[h].(status := 0)];
      usedRing := usedRing[usedIdx % NUM := h];
      usedIdx := (usedIdx + 1) % WRAP;
      completed := completed + [h];
      reqs := reqs[h := r];
    }

    /** One turn of the loop of virtio_disk_intr. */
    method HandleOne()
      requires Valid() && handled < |completed|
      modifies `busy, `seen, `handled, `reqs
      ensures Valid() && handled == old(handled) + 1
      ensures var h := completed[old(handled)];
        h in old(reqs) && old(reqs)[h].phase == Completed &&
          reqs == old(reqs)[h := old(reqs)[h].(phase := Handled)] && busy == old(busy) - {old(reqs)[h].buf}
    {
      hide Chains, Owners, Busy, Blanks, Ring;
      RingIndex(handled);
      WrapAdd(handled, 1, WRAP);
      Front(usedRing, completed, handled, reqs, Completed);
      var id := usedRing[seen % NUM];
      ChainAt(desc, info, reqs, id);
      assert info[id].status == 0;
      var b := info[id].b.value;
      ghost var r := reqs[id].(phase := Handled);
      Seen(desc, info, free, own, busy, reqs, id, r);
      RingPop(usedRing, completed, handled, reqs, Completed, r);
      RingOther(availRing, published, consumed, reqs, Published, id, r);
      busy := busy - {b};
      seen := (seen + 1) % WRAP;
      handled := handled + 1;
      reqs := reqs[id := r];
    }

    /** virtio_disk_intr: exactly the buffers whose requests the device has returned are released. */
    method Interrupt()
      requires Valid()
      modifies `busy, `seen, `handled, `reqs
      ensures Valid() && handled == |completed| && reqs.Keys == old(reqs).Keys
      ensures forall h: nat :: h in reqs ==>
        reqs[h] == if old(reqs)[h].phase == Completed then old(reqs)[h].(phase := Handled) else old(reqs)[h]
      ensures forall h: nat ::
        h in reqs ==> (reqs[h].buf in busy <==> reqs[h].buf in old(busy) && old(reqs)[h].phase != Completed)
    {
      hide Chains, Owners, Blanks, Busy, Ring;
      Waiting(desc, info, usedRing, completed, handled, reqs, Completed);
      while seen != usedIdx
        invariant Valid() && handled <= |completed| && reqs.Keys == old(reqs).Keys
        invariant forall h: nat :: h in reqs ==> Advanced(old(reqs)[h], reqs[h])
        decreases |completed| - handled
      {
        Waiting(desc, info, usedRing, completed, handled, reqs, Completed);
        HandleOne();
        RingSize(usedRing, completed, handled, reqs, Completed);
      }
      Waiting(desc, info, usedRing, completed, handled, reqs, Completed);
      NoneLeft(usedRing, completed, handled, reqs, Completed);
      BusyAgain(old(busy), busy, old(reqs), reqs);
    }

    /** The descriptors of a chain, freed one by one along next while the flag says so. */
    method FreeChain(h: nat, ghost r: Req)
      requires |free| == NUM && ChainOk(desc, info, h, r) && !free[h] && !free[r.d1] && !free[r.d2]
      modifies `free, `desc
      ensures free == Over(old(free), h, r, true) && desc == Over(old(desc), h, r, BLANK)
    {
      var i := h;
      ghost var step := 0;
      while true
        invariant 0 <= step <= 2 && |free| == NUM && |desc| == NUM
        invariant step == 0 ==> i == h && free == old(free) && desc == old(desc)
        invariant step == 1 ==> i == r.d1 && free == old(free)[h := true] && desc == old(desc)[h := BLANK]
        invariant step == 2 ==> i == r.d2 && free == old(free)[h := true][r.d1 := true]
        invariant step == 2 ==> desc == old(desc)[h := BLANK][r.d1 := BLANK]
        decreases 3 - step
      {
        var flag, nxt := desc[i].more, desc[i].next;
        FreeDesc(i);
        if !flag {
          break;
        }
        i := nxt;
        step := step + 1;
      }
    }

    /** virtio_disk_rw after its sleep: the request is still under way, or its chain is freed. */
    method Finish(b: nat, h: nat) returns (done: bool)
      requires Valid() && h in reqs && reqs[h].buf == b
      modifies `info, `free, `desc, `own, `reqs
      ensures Valid() && (done <==> old(reqs)[h].phase == Handled)
      ensures !done ==> reqs == old(reqs) && free == old(free) && desc == old(desc)
      ensures done ==> reqs == old(reqs) - {h} && forall d: nat :: d < NUM ==>
        free[d] == (old(free)[d] || PartOf(d, h, old(reqs)[h]))
    {
      hide Chains, Owners, Busy, Blanks, Ring, Over;
      BusyAt(busy, reqs, h);
      if b in busy {
        return false;
      }
      ghost var r := reqs[h];
      ChainAt(desc, info, reqs, h);
      InUse(free, own, reqs, h);
      Dropped(desc, info, free, own, reqs, h);
      DropBusy(busy, reqs, h);
      RingDrop(availRing, published, consumed, reqs, Published, h);
      RingDrop(usedRing, completed, handled, reqs, Completed, h);
      FreeChain(h, r);
      info := info[h := info[h].(b := None)];
      own := Over(own, h, r, None);
      reqs := reqs - {h};
      done := true;
    }
  }

  lemma {:induction false} Front(ring: seq<nat>, all: seq<nat>, from: nat, reqs: Reqs, phase: Phase)
    requires Ring(ring, all, from, reqs, phase) && from < |all|
    ensures |ring| == NUM && ring[from % NUM] == all[from] && all[from] in reqs && reqs[all[from]].phase == phase
  {
  }

  lemma {:induction false} ChainAt(desc: seq<Desc>, info: seq<Info>, reqs: Reqs, h: nat)
    requires Chains(desc, info, reqs) && h in reqs
    ensures ChainOk(desc, info, h, reqs[h])
  {
  }

  lemma {:induction false} BusyAt(busy: set<nat>, reqs: Reqs, h: nat)
    requires Busy(busy, reqs) && h in reqs
    ensures reqs[h].buf in busy <==> reqs[h].phase != Handled
  {
  }

  /** free_desc's panics are out of reach: no descriptor of a request under way is free. */
  lemma {:induction false} InUse(free: seq<bool>, own: seq<Option<nat>>, reqs: Reqs, h: nat)
    requires Owners(free, own, reqs) && h in reqs && h < NUM && reqs[h].d1 < NUM && reqs[h].d2 < NUM
    ensures |free| == NUM && |own| == NUM && !free[h] && !free[reqs[h].d1] && !free[reqs[h].d2]
  {
    assert PartOf(h, h, reqs[h]) && PartOf(reqs[h].d1, h, reqs[h]) && PartOf(reqs[h].d2, h, reqs[h]);
  }

  lemma {:induction false} DropBusy(busy: set<nat>, reqs: Reqs, h: nat)
    requires Busy(busy, reqs) && h in reqs && reqs[h].phase == Handled
    ensures Busy(busy, reqs - {h})
  {
    var reqs' := reqs - {h};
    forall b: nat | b in busy ensures exists g: nat :: g in reqs' && reqs'[g].buf == b {
      var g: nat :| g in reqs && reqs[g].buf == b;
      assert g in reqs' && reqs'[g].buf == b;
    }
  }

  /** A table with the same value at the three places of a chain. */
  function Over<T>(s: seq<T>, h: nat, r: Req, x: T): (t: seq<T>)
    requires |s| == NUM && h < NUM && r.d1 < NUM && r.d2 < NUM
    ensures |t| == NUM && forall d: nat :: d < NUM ==> t[d] == if PartOf(d, h, r) then x else s[d]
  {
    s[h := x][r.d1 := x][r.d2 := x]
  }

  /** The descriptors of another request are none of this one's. */
  lemma {:induction false} OthersApart(free: seq<bool>, own: seq<Option<nat>>, reqs: Reqs, h: nat, g: nat, d: nat)
    requires Owners(free, own, reqs) && h in reqs && g in reqs && g != h && d < NUM && PartOf(d, g, reqs[g])
    ensures !PartOf(d, h, reqs[h])
  {
    assert own[d] == Some(g);
  }

  /** A request's three descriptors go back, blank; nothing of another request is touched. */
  lemma {:induction false} Dropped(desc: seq<Desc>, info: seq<Info>, free: seq<bool>, own: seq<Option<nat>>,
        reqs: Reqs, h: nat)
    requires Chains(desc, info, reqs) && Owners(free, own, reqs) && Blanks(desc, free)
    requires |info| == NUM && h in reqs && ChainOk(desc, info, h, reqs[h])
    requires |free| == NUM && |own| == NUM
    ensures Chains(Over(desc, h, reqs[h], BLANK), info[h := info[h].(b := None)], reqs - {h})
    ensures Blanks(Over(desc, h, reqs[h], BLANK), Over(free, h, reqs[h], true))
    ensures Owners(Over(free, h, reqs[h], true), Over(own, h, reqs[h], None), reqs - {h})
  {
    hide Over;
    DroppedBlanks(desc, free, h, reqs[h]);
    hide Blanks, ChainOk;
    DroppedOwners(free, own, reqs, h);
    hide PartOf;
    DroppedChains(desc, info, free, own, reqs, h);
  }

  lemma {:induction false} DroppedBlanks(desc: seq<Desc>, free: seq<bool>, h: nat, r: Req)
    requires Blanks(desc, free) && h < NUM && r.d1 < NUM && r.d2 < NUM
    ensures Blanks(Over(desc, h, r, BLANK), Over(free, h, r, true))
  {
    hide Over, PartOf;
  }

  lemma {:induction false} DroppedOwners(free: seq<bool>, own: seq<Option<nat>>, reqs: Reqs, h: nat)
    requires Owners(free, own, reqs) && |free| == NUM && |own| == NUM
    requires h in reqs && h < NUM && reqs[h].d1 < NUM && reqs[h].d2 < NUM
    ensures Owners(Over(free, h, reqs[h], true), Over(own, h, reqs[h], None), reqs - {h})
  {
    hide Over, PartOf;
    var r, reqs' := reqs[h], reqs - {h};
    var free', own' := Over(free, h, r, true), Over(own, h, r, None);
    forall g: nat, d: nat | g in reqs' && d < NUM && PartOf(d, g, reqs'[g]) ensures own'[d] == Some(g) {
      assert reqs'[g] == reqs[g];
      OthersApart(free, own, reqs, h, g, d);
    }
    forall d: nat | d < NUM && own'[d].Some?
      ensures own'[d].value in reqs' && PartOf(d, own'[d].value, reqs'[own'[d].value])
    {
      assert own[d].value in reqs && PartOf(d, own[d].value, reqs[own[d].value]);
    }
  }

  lemma {:induction false} DroppedChains(desc: seq<Desc>, info: seq<Info>, free: seq<bool>, own: seq<Option<nat>>,
        reqs: Reqs, h: nat)
    requires Chains(desc, info, reqs) && Owners(free, own, reqs) && h in reqs && ChainOk(desc, info, h, reqs[h])
    ensures Chains(Over(desc, h, reqs[h], BLANK), info[h := info[h].(b := None)], reqs - {h})
  {
    hide Over;
    var r, reqs' := reqs[h], reqs - {h};
    var desc', info' := Over(desc, h, r, BLANK), info[h := info[h].(b := None)];
    forall g: nat | g in reqs' ensures ChainOk(desc', info', g, reqs'[g]) {
      assert ChainOk(desc, info, g, reqs[g]) && reqs'[g] == reqs[g];
      hide Chains;
      OthersApart(free, own, reqs, h, g, g);
      OthersApart(free, own, reqs, h, g, reqs[g].d1);
      OthersApart(free, own, reqs, h, g, reqs[g].d2);
      hide Owners;
    }
  }

  predicate Advanced(was: Req, now: Req) { now == was || (was.phase == Completed && now == was.(phase := Handled)) }

  /** Moving a request from one phase to the next, its answer not yet given. */
  lemma {:induction false} Moves(desc: seq<Desc>, info: seq<Info>, free: seq<bool>, own: seq<Option<nat>>,
        busy: set<nat>, reqs: Reqs, h: nat, r: Req)
    requires Chains(desc, info, reqs) && Owners(free, own, reqs) && Busy(busy, reqs)
    requires h in reqs && reqs[h].phase == Published && r == reqs[h].(phase := InDevice)
    ensures Chains(desc, info, reqs[h := r]) && Owners(free, own, reqs[h := r]) && Busy(busy, reqs[h := r])
  {
    SameOwners(free, own, reqs, h, r);
    SameBusy(busy, reqs, h, r);
    hide Owners, Busy;
    assert ChainOk(desc, info, h, reqs[h]);
  }

  lemma {:induction false} SameOwners(free: seq<bool>, own: seq<Option<nat>>, reqs: Reqs, h: nat, r: Req)
    requires Owners(free, own, reqs) && h in reqs && r.d1 == reqs[h].d1 && r.d2 == reqs[h].d2
    ensures Owners(free, own, reqs[h := r])
  {
  }

  lemma {:induction false} SameBusy(busy: set<nat>, reqs: Reqs, h: nat, r: Req)
    requires Busy(busy, reqs) && h in reqs && r.buf == reqs[h].buf && (r.phase.Handled? <==> reqs[h].phase.Handled?)
    ensures Busy(busy, reqs[h := r])
  {
    var reqs' := reqs[h := r];
    forall b: nat | b in busy ensures exists g: nat :: g in reqs' && reqs'[g].buf == b {
      var g: nat :| g in reqs && reqs[g].buf == b;
      assert g in reqs' && reqs'[g].buf == b;
    }
  }

  lemma {:induction false} Answered(desc: seq<Desc>, info: seq<Info>, free: seq<bool>, own: seq<Option<nat>>,
        busy: set<nat>, reqs: Reqs, h: nat, r: Req)
    requires Chains(desc, info, reqs) && Owners(free, own, reqs) && Busy(busy, reqs) && |info| == NUM
    requires h in reqs && reqs[h].phase == InDevice && r == reqs[h].(phase := Completed, at := r.at)
    ensures h < NUM && Chains(desc, info[h := info[h].(status := 0)], reqs[h := r])
    ensures Owners(free, own, reqs[h := r]) && Busy(busy, reqs[h := r])
  {
    SameOwners(free, own, reqs, h, r);
    SameBusy(busy, reqs, h, r);
    hide Owners, Busy;
    assert ChainOk(desc, info, h, reqs[h]);
    var info', reqs' := info[h := info[h].(status := 0)], reqs[h := r];
    forall g: nat | g in reqs' ensures ChainOk(desc, info', g, reqs'[g]) {
      assert g != h ==> ChainOk(desc, info, g, reqs[g]);
    }
  }

  lemma {:induction false} Seen(desc: seq<Desc>, info: seq<Info>, free: seq<bool>, own: seq<Option<nat>>,
        busy: set<nat>, reqs: Reqs, h: nat, r: Req)
    requires Chains(desc, info, reqs) && Owners(free, own, reqs) && Busy(busy, reqs)
    requires h in reqs && reqs[h].phase == Completed && r == reqs[h].(phase := Handled)
    ensures Chains(desc, info, reqs[h := r]) && Owners(free, own, reqs[h := r]) && Busy(busy - {r.buf}, reqs[h := r])
  {
    SameOwners(free, own, reqs, h, r);
    hide Owners;
    assert ChainOk(desc, info, h, reqs[h]);
    assert Chains(desc, info, reqs[h := r]);
    hide Chains;
    var reqs' := reqs[h := r];
    forall b: nat | b in busy - {r.buf} ensures exists g: nat :: g in reqs' && reqs'[g].buf == b {
      var g: nat :| g in reqs && reqs[g].buf == b;
      assert g in reqs' && reqs'[g].buf == b;
    }
  }

  /** The wrapped indices tell exactly whether entries are waiting. */
  lemma {:induction false} Waiting(desc: seq<Desc>, info: seq<Info>, ring: seq<nat>, all: seq<nat>, from: nat,
        reqs: Reqs, phase: Phase)
    requires Chains(desc, info, reqs) && Ring(ring, all, from, reqs, phase)
    ensures from <= |all| <= from + NUM && (|all| % WRAP == from % WRAP <==> from == |all|)
  {
    HeadsSmall(desc, info, reqs);
    hide Chains;
    var s := all[from..];
    forall i, j | 0 <= i < j < |s| ensures s[i] != s[j] {
      assert s[i] == all[from + i] && s[j] == all[from + j];
    }
    forall i | 0 <= i < |s| ensures s[i] < NUM {
      assert s[i] == all[from + i];
    }
    Pigeon(s, NUM);
    WrapEqual(|all|, from, WRAP);
  }

  lemma {:induction false} NoneLeft(ring: seq<nat>, all: seq<nat>, from: nat, reqs: Reqs, phase: Phase)
    requires Ring(ring, all, from, reqs, phase) && from == |all|
    ensures forall h: nat :: h in reqs ==> reqs[h].phase != phase
  {
  }

  lemma {:induction false} BusyAgain(busy: set<nat>, busy': set<nat>, reqs: Reqs, reqs': Reqs)
    requires Busy(busy, reqs) && Busy(busy', reqs') && reqs.Keys == reqs'.Keys
    requires forall h: nat :: h in reqs' ==> Advanced(reqs[h], reqs'[h]) && reqs'[h].phase != Completed
    ensures forall h: nat ::
      h in reqs' ==> (reqs'[h].buf in busy' <==> reqs'[h].buf in busy && reqs[h].phase != Completed)
  {
  }

  lemma {:induction false} HeadsSmall(desc: seq<Desc>, info: seq<Info>, reqs: Reqs)
    requires Chains(desc, info, reqs)
    ensures forall h: nat :: h in reqs ==> h < NUM
  {
  }

  lemma {:induction false} RingSize(ring: seq<nat>, all: seq<nat>, from: nat, reqs: Reqs, phase: Phase)
    requires Ring(ring, all, from, reqs, phase)
    ensures |ring| == NUM && from <= |all|
  {
  }

  function Tagged(own: seq<Option<nat>>, h: nat, r: Req): seq<Option<nat>>
    requires |own| == NUM && h < NUM && r.d1 < NUM && r.d2 < NUM
  {
    own[h := Some(h)][r.d1 := Some(h)][r.d2 := Some(h)]
  }

  lemma {:induction false} NewRings(desc: seq<Desc>, info: seq<Info>, avail: seq<nat>, published: seq<nat>,
        consumed: nat, used: seq<nat>, completed: seq<nat>, handled: nat, reqs: Reqs, h: nat, r: Req)
    requires Chains(desc, info, reqs) && Ring(avail, published, consumed, reqs, Published)
    requires Ring(used, completed, handled, reqs, Completed)
    requires h < NUM && h !in reqs && r.phase == Published && r.at == |published|
    ensures |avail| == NUM && Ring(avail[|published| % NUM := h], published + [h], consumed, reqs[h := r], Published)
    ensures Ring(used, completed, handled, reqs[h := r], Completed)
  {
    HeadsSmall(desc, info, reqs);
    RingSize(avail, published, consumed, reqs, Published);
    hide Ring, Chains;
    RingPush(avail, published, consumed, reqs, Published, h, r);
    RingOther(used, completed, handled, reqs, Completed, h, r);
  }

  /** The three descriptors form a new chain. */
  lemma {:induction false} NewHead(was: seq<bool>, free: seq<bool>, own: seq<Option<nat>>, reqs: Reqs,
        desc: seq<Desc>, idx: seq<nat>, r: Req)
    requires Owners(was, own, reqs) && Taken(was, free, idx) && Blanks(desc, was)
    requires |idx| == 3 && r.d1 == idx[1] && r.d2 == idx[2]
    requires idx[0] < idx[1] < idx[2] < NUM
    ensures idx[0] !in reqs
    ensures Owners(free, Tagged(own, idx[0], r), reqs[idx[0] := r])
  {
    var h := idx[0];
    assert was[idx[0]] && was[idx[1]] && was[idx[2]];
    assert h in reqs ==> PartOf(h, h, reqs[h]);
    var own' := Tagged(own, h, r);
    forall d: nat | d < NUM ensures free[d] == own'[d].None? {
      assert d in idx <==> d == idx[0] || d == idx[1] || d == idx[2];
    }
  }

  /** The descriptor table with a chain of three written. */
  function Written(desc: seq<Desc>, h: nat, r: Req): seq<Desc>
    requires |desc| == NUM && h < NUM && r.d1 < NUM && r.d2 < NUM
  {
    desc[h := Desc(Header(r.write, r.sector), r.d1, true)][r.d1 := Desc(Data(r.buf, !r.write),
      r.d2, true)][r.d2 := Desc(Status(h), 0, false)]
  }

  lemma {:induction false} NewChain(desc: seq<Desc>, info: seq<Info>, was: seq<bool>, free: seq<bool>,
        own: seq<Option<nat>>, reqs: Reqs, idx: seq<nat>, r: Req)
    requires Chains(desc, info, reqs) && Owners(was, own, reqs)
    requires Taken(was, free, idx) && Blanks(desc, was) && |info| == NUM
    requires |idx| == 3 && idx[0] < idx[1] < idx[2] < NUM && r.d1 == idx[1] && r.d2 == idx[2] && r.phase == Published
    ensures Chains(Written(desc, idx[0], r), info[idx[0] := Info(Some(r.buf), 0xff)], reqs[idx[0] := r])
    ensures Blanks(Written(desc, idx[0], r), free)
  {
    hide Chains;
    NewBlanks(desc, was, free, idx, r);
    assert was[idx[0]] && was[idx[1]] && was[idx[2]];
    hide Taken, Blanks;
    NewChains(desc, info, was, own, reqs, idx[0], r);
  }

  lemma {:induction false} NewBlanks(desc: seq<Desc>, was: seq<bool>, free: seq<bool>, idx: seq<nat>, r: Req)
    requires Taken(was, free, idx) && Blanks(desc, was) && |idx| == 3
    requires idx[0] < idx[1] < idx[2] < NUM && r.d1 == idx[1] && r.d2 == idx[2]
    ensures Blanks(Written(desc, idx[0], r), free)
  {
    forall d: nat | d < NUM && free[d] ensures d != idx[0] && d != idx[1] && d != idx[2] && desc[d] == BLANK {
      assert d !in idx;
    }
    hide Taken;
  }

  /** A free descriptor is part of no request. */
  lemma {:induction false} FreeApart(free: seq<bool>, own: seq<Option<nat>>, reqs: Reqs, g: nat, d: nat)
    requires Owners(free, own, reqs) && g in reqs && d < NUM && free[d]
    ensures !PartOf(d, g, reqs[g])
  {
  }

  lemma {:induction false} NewChains(desc: seq<Desc>, info: seq<Info>, was: seq<bool>, own: seq<Option<nat>>,
        reqs: Reqs, h: nat, r: Req)
    requires Chains(desc, info, reqs) && Owners(was, own, reqs) && |info| == NUM
    requires |desc| == NUM && |was| == NUM && r.phase == Published
    requires h < NUM && r.d1 < NUM && r.d2 < NUM && h != r.d1 && h != r.d2
    requires r.d1 != r.d2 && was[h] && was[r.d1] && was[r.d2]
    ensures Chains(Written(desc, h, r), info[h := Info(Some(r.buf), 0xff)], reqs[h := r])
  {
    var desc', info', reqs' := Written(desc, h, r), info[h := Info(Some(r.buf), 0xff)], reqs[h := r];
    assert ChainOk(desc', info', h, r);
    assert forall d: nat :: d < NUM && !PartOf(d, h, r) ==> desc'[d] == desc[d];
    hide Written;
    forall g: nat | g in reqs' ensures ChainOk(desc', info', g, reqs'[g]) {
      if g != h {
        assert ChainOk(desc, info, g, reqs[g]) && reqs'[g] == reqs[g];
        hide Chains;
        FreeApart(was, own, reqs, g, h);
        FreeApart(was, own, reqs, g, r.d1);
        FreeApart(was, own, reqs, g, r.d2);
        hide Owners;
      }
    }
  }

  lemma {:induction false} NewBusy(busy: set<nat>, reqs: Reqs, h: nat, r: Req)
    requires Busy(busy, reqs) && h !in reqs && !r.phase.Handled? && forall g: nat :: g in reqs ==> reqs[g].buf != r.buf
    ensures Busy(busy + {r.buf}, reqs[h := r])
  {
    var reqs' := reqs[h := r];
    forall b: nat | b in busy + {r.buf} ensures exists g: nat :: g in reqs' && reqs'[g].buf == b {
      if b == r.buf {
        assert h in reqs' && reqs'[h].buf == b;
      } else {
        var g: nat :| g in reqs && reqs[g].buf == b;
        assert g in reqs' && reqs'[g].buf == b;
      }
    }
  }

  /** free is `was` without the descriptors idx, which ascend. */
  predicate Taken(was: seq<bool>, free: seq<bool>, idx: seq<nat>) {
    && |was| == |free| == NUM
    && (forall k :: 0 <= k < |idx| ==> idx[k] < NUM && was[idx[k]])
    && (forall j, k :: 0 <= j < k < |idx| ==> idx[j] < idx[k])
    && (forall d :: 0 <= d < NUM ==> free[d] == (was[d] && d !in idx))
  }

  /** Everything free below the last of idx is in idx. */
  predicate Lowest(was: seq<bool>, idx: seq<nat>) {
    idx != [] ==> forall d: nat :: d < |was| && d < idx[|idx| - 1] && was[d] ==> d in idx
  }

  lemma {:induction false} TakenNone(free: seq<bool>)
    requires |free| == NUM
    ensures Taken(free, free, []) && Lowest(free, [])
  {
  }

  lemma {:induction false} TakenShape(was: seq<bool>, free: seq<bool>, idx: seq<nat>)
    requires Taken(was, free, idx)
    ensures |was| == |free| == NUM && (idx != [] ==> idx[0] < NUM && was[idx[0]] && !free[idx[0]])
  {
    assert idx != [] ==> idx[0] in idx;
  }

  /** One more is the lowest free descriptor. */
  lemma {:induction false} TakenMore(was: seq<bool>, free: seq<bool>, idx: seq<nat>, d: nat)
    requires Taken(was, free, idx) && Lowest(was, idx) && d < NUM && free[d] && forall e: nat :: e < d ==> !free[e]
    ensures Taken(was, free[d := false], idx + [d]) && Lowest(was, idx + [d])
  {
    assert idx != [] ==> idx[|idx| - 1] in idx;
  }

  lemma {:induction false} TakenLess(was: seq<bool>, free: seq<bool>, idx: seq<nat>)
    requires Taken(was, free, idx) && idx != []
    ensures Taken(was, free[idx[0] := true], idx[1..])
  {
    assert idx == [idx[0]] + idx[1..];
  }

  lemma {:induction false} TakenAll(was: seq<bool>, free: seq<bool>, idx: seq<nat>)
    requires Taken(was, free, idx) && idx == []
    ensures free == was
  {
  }

  lemma {:induction false} TakenThree(was: seq<bool>, free: seq<bool>, idx: seq<nat>)
    requires Taken(was, free, idx) && |idx| == 3
    ensures ThreeFree(was) && idx[0] < idx[1] < idx[2] < NUM
  {
    assert was[idx[0]] && was[idx[1]] && was[idx[2]];
  }

  lemma {:induction false} BlankStays(desc: seq<Desc>, free: seq<bool>, d: nat)
    requires Blanks(desc, free) && d < NUM && free[d]
    ensures |desc| == NUM && desc[d := BLANK] == desc
  {
  }

  lemma {:induction false} NoThree(was: seq<bool>, free: seq<bool>, idx: seq<nat>)
    requires Taken(was, free, idx) && |idx| < 3 && forall d: nat :: d < NUM ==> !free[d]
    ensures !ThreeFree(was)
  {
    forall a: nat, b: nat, c: nat | a < b < c < |was| ensures !(was[a] && was[b] && was[c]) {
      assert was[a] ==> !free[a] && a in idx;
      assert was[b] ==> !free[b] && b in idx;
      assert was[c] ==> !free[c] && c in idx;
    }
  }
}
