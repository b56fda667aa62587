/**
 The doubly linked ring of kernel/bio.c. Buffers are numbered 0..n-1 and the
 list head is n; prev and next hold such numbers in place of pointers. The ghost
 field order lists the buffers from head.next to head.prev, and stamp tells when
 each last dropped to refcnt 0.
 */
module Bcache {
  import opened Bio
  import Log
  import opened Options

  /** Following next from head h visits order and returns to h; prev goes the other way round. */
  ghost predicate Ring(order: seq<nat>, next: seq<nat>, prev: seq<nat>, h: nat) {
    && h < |next| == |prev| && h !in order
    && (forall k :: 0 <= k < |order| ==> order[k] < |next|)
    && (forall k, l :: 0 <= k < l < |order| ==> order[k] != order[l])
    && (forall k :: 0 <= k <= |order| ==> next[Node(order, h, k)] == Node(order, h, k + 1))
    && (forall k :: 0 <= k <= |order| ==> prev[Node(order, h, k + 1)] == Node(order, h, k))
  }

  /** The k-th node of the ring, the head being number 0 and number |order| + 1. */
  function Node(order: seq<nat>, h: nat, k: int): nat {
    if 1 <= k <= |order| then order[k - 1] else h
  }

  /** Sorted by time of last use, most recent first. */
  ghost predicate Recent(order: seq<nat>, stamp: seq<nat>) {
    forall k, l ::
      0 <= k < l < |order| && order[k] < |stamp| && order[l] < |stamp| ==> stamp[order[k]] > stamp[order[l]]
  }

  ghost predicate Before(stamp: seq<nat>, clock: nat) {
    forall i :: 0 <= i < |stamp| ==> stamp[i] < clock
  }

  /** b->next = head.next; b->prev = &head; head.next->prev = b; head.next = b */
  lemma {:induction false} InsertRing(order: seq<nat>, next: seq<nat>, prev: seq<nat>, h: nat, b: nat)
    requires Ring(order, next, prev, h) && b < |next| && b != h && b !in order
    ensures next[h] < |next|
    ensures Ring([b] + order, next[b := next[h]][h := b], prev[b := h][next[h] := b], h)
  {
    var next', prev', order' := next[b := next[h]][h := b], prev[b := h][Node(order, h, 1) := b], [b] + order;
    assert next[Node(order, h, 0)] == Node(order, h, 1);
    forall k | 0 <= k <= |order'| + 1
      ensures Node(order', h, k) == if k == 1 then b else if k == 0 then h else Node(order, h, k - 1)
    {
    }
    forall k | 0 <= k <= |order'| ensures next'[Node(order', h, k)] == Node(order', h, k + 1) {
      assert 2 <= k ==> next[Node(order, h, k - 1)] == Node(order, h, k);
    }
    forall k | 0 <= k <= |order'| ensures prev'[Node(order', h, k + 1)] == Node(order', h, k) {
      assert 2 <= k ==> prev[Node(order, h, k)] == Node(order, h, k - 1);
    }
  }

  /** b->next->prev = b->prev; b->prev->next = b->next */
  lemma {:induction false} UnlinkRing(order: seq<nat>, next: seq<nat>, prev: seq<nat>, h: nat, i: nat)
    requires Ring(order, next, prev, h) && i < |order|
    ensures var b := order[i]; next[b] < |next| && prev[b] < |next|
    ensures var b := order[i]; Ring(Cut(order, i), next[prev[b] := next[b]], prev[next[b] := prev[b]], h)
  {
    var b := order[i];
    assert Node(order, h, i + 1) == b;
    assert next[b] == Node(order, h, i + 2) && prev[b] == Node(order, h, i);
    var order' := Cut(order, i);
    CutNodes(order, h, i);
    UnlinkNext(order, next, prev, h, i);
    UnlinkPrev(order, next, prev, h, i);
    hide Node;
  }

  function Cut(order: seq<nat>, i: nat): seq<nat>
    requires i < |order|
  {
    order[..i] + order[i + 1..]
  }

  lemma {:induction false} CutNodes(order: seq<nat>, h: nat, i: nat)
    requires i < |order|
    ensures forall k :: 0 <= k < |order| - 1 ==> Cut(order, i)[k] == order[if k < i then k else k + 1]
    ensures forall k :: 0 <= k <= |order| ==> Node(Cut(order, i), h, k) == Node(order, h, if k <= i then k else k + 1)
  {
  }

  lemma {:induction false} UnlinkNext(order: seq<nat>, next: seq<nat>, prev: seq<nat>, h: nat, i: nat)
    requires Ring(order, next, prev, h) && i < |order|
    ensures forall k :: 0 <= k < |order| ==>
      next[Node(order, h, i) := Node(order, h, i + 2)][Node(Cut(order, i), h, k)] == Node(Cut(order, i), h, k + 1)
  {
    CutNodes(order, h, i);
    forall k | 0 <= k < |order|
      ensures next[Node(order, h, i) := Node(order, h, i + 2)][Node(Cut(order, i), h, k)] ==
        Node(Cut(order, i), h, k + 1)
    {
      var m := if k <= i then k else k + 1;
      assert next[Node(order, h, m)] == Node(order, h, m + 1);
      NodesDiffer(order, h, m, i);
      assert Node(Cut(order, i), h, k + 1) == Node(order, h, if k + 1 <= i then k + 1 else k + 2);
    }
  }

  lemma {:induction false} UnlinkPrev(order: seq<nat>, next: seq<nat>, prev: seq<nat>, h: nat, i: nat)
    requires Ring(order, next, prev, h) && i < |order|
    ensures forall k :: 0 <= k < |order| ==>
      prev[Node(order, h, i + 2) := Node(order, h, i)][Node(Cut(order, i), h, k + 1)] == Node(Cut(order, i), h, k)
  {
    CutNodes(order, h, i);
    forall k | 0 <= k < |order|
      ensures prev[Node(order, h, i + 2) := Node(order, h, i)][Node(Cut(order, i), h, k + 1)] ==
        Node(Cut(order, i), h, k)
    {
      var m := if k < i then k else k + 1;
      assert prev[Node(order, h, m + 1)] == Node(order, h, m);
      NodesDiffer(order, h, m + 1, i + 2);
      assert Node(Cut(order, i), h, k + 1) == Node(order, h, if k + 1 <= i then k + 1 else k + 2);
    }
  }

  /** Distinct positions of the ring hold distinct nodes; positions 0 and |order| + 1 are both the head. */
  lemma {:induction false} NodesDiffer(order: seq<nat>, h: nat, k: nat, l: nat)
    requires h !in order && (forall x, y :: 0 <= x < y < |order| ==> order[x] != order[y])
    requires k <= |order| + 1 && l <= |order| + 1
    ensures Node(order, h, k) == Node(order, h, l) <==>
      k == l || (k == 0 && l == |order| + 1) || (l == 0 && k == |order| + 1)
  {
  }

  /** Moving a buffer to the front keeps the list sorted when its stamp becomes the newest. */
  lemma {:induction false} FrontRecent(order: seq<nat>, stamp: seq<nat>, clock: nat, k: nat)
    requires k < |order| && order[k] < |stamp| && Recent(order, stamp) && Before(stamp, clock)
    requires forall x, y :: 0 <= x < y < |order| ==> order[x] != order[y]
    ensures Recent([order[k]] + Cut(order, k), stamp[order[k] := clock])
    ensures Before(stamp[order[k] := clock], clock + 1)
  {
    var r, rest := [order[k]] + Cut(order, k), Cut(order, k);
    forall x | 0 <= x < |rest| ensures rest[x] == order[if x < k then x else x + 1] {
    }
    forall x | 0 < x < |r| ensures r[x] == rest[x - 1] && r[x] != order[k] {
    }
  }

  class Bcache {
    const n: nat
    const bufs: array<Buf>
    const next: array<nat>
    const prev: array<nat>
    ghost var order: seq<nat>
    ghost var stamp: seq<nat>
    ghost var clock: nat

    ghost predicate Valid()
      reads this, bufs, next, prev
    {
      && bufs.Length == n && next.Length == prev.Length == n + 1 && next != prev
      && GoodOrder(order, n)
      && Ring(order, next[..], prev[..], n)
      && |stamp| == n && Recent(order, stamp) && Before(stamp, clock)
    }

    ghost function Contents(): Cache
      reads this, bufs
    {
      Cache(bufs[..], order)
    }

    /** binit: push the buffers one after the other to the front of an empty list. */
    constructor (count: nat)
      ensures Valid() && n == count && fresh(bufs) && fresh(next) && fresh(prev)
      ensures Contents() == Fresh(count)
    {
      n := count;
      bufs := new Buf[count](_ => BLANK);
      next := new nat[count + 1](_ => count);
      prev := new nat[count + 1](_ => count);
      order, stamp, clock := [], [], 0;
      new;
      for b := 0 to n
        invariant order == seq(b, i requires 0 <= i < b => b - 1 - i)
        invariant stamp == seq(b, i requires 0 <= i < b => i) && clock == b
        invariant Ring(order, next[..], prev[..], n)
        invariant bufs[..] == seq(n, _ => BLANK)
      {
        PushFront(b, order);
        order, stamp, clock := [b] + order, stamp + [b], clock + 1;
      }
    }

    /** The forward walk of bget: the buffer that holds the block, or n. */
    method Lookup(dev: nat, blockno: nat) returns (i: nat)
      requires Valid()
      ensures i == Hit(bufs[..], order, dev, blockno) && i <= n
    {
      HitSound(bufs[..], order, dev, blockno);
      i := next[n];
      ghost var k := 0;
      assert order[0..] == order;
      assert next[..][Node(order, n, 0)] == Node(order, n, 1);
      while i != n
        invariant 0 <= k <= n && i == Node(order, n, k + 1)
        invariant Hit(bufs[..], order, dev, blockno) == Hit(bufs[..], order[k..], dev, blockno)
        decreases n - k
      {
        if bufs[i].dev == dev && bufs[i].blockno == blockno {
          return;
        }
        assert order[k..][1..] == order[k + 1..];
        assert next[..][Node(order, n, k + 1)] == Node(order, n, k + 2);
        i := next[i];
        k := k + 1;
      }
    }

    /** The backward walk of bget: the least recently used free buffer, or n. */
    method FindFree() returns (i: nat)
      requires Valid()
      ensures i == Victim(bufs[..], order) && i <= n
    {
      VictimSound(bufs[..], order);
      i := prev[n];
      ghost var k := n;
      assert order[..n] == order;
      assert prev[..][Node(order, n, n + 1)] == Node(order, n, n);
      while i != n
        invariant 0 <= k <= n && i == Node(order, n, k)
        invariant Victim(bufs[..], order) == Victim(bufs[..], order[..k])
        decreases k
      {
        if bufs[i].refcnt == 0 {
          return;
        }
        assert order[..k][..k - 1] == order[..k - 1];
        assert prev[..][Node(order, n, k)] == Node(order, n, k - 1);
        i := prev[i];
        k := k - 1;
      }
    }

    /** bget up to acquiresleep, by process t; None is the panic "no buffers". */
    method Bget(t: nat, blockno: nat) returns (r: Option<nat>)
      requires Valid()
      modifies bufs
      ensures Valid()
      ensures var h, v := Hit(old(bufs[..]), order, ROOTDEV, blockno), Victim(old(bufs[..]), order);
        && r == (if h < n then Some(h) else if v < n then Some(v) else None)
        && (r == None ==> bufs[..] == old(bufs[..]))
        && (r.Some? ==>
              forall log :: NextGet(State.State(log, old(Contents())), t, blockno) == State.State(log, Contents()))
    {
      var b := Lookup(ROOTDEV, blockno);
      if b != n {
        bufs[b] := bufs[b].(refcnt := bufs[b].refcnt + 1, waiting := bufs[b].waiting + {t});
        return Some(b);
      }
      b := FindFree();
      if b != n {
        bufs[b] := bufs[b].(dev := ROOTDEV, blockno := blockno, valid := false,
          refcnt := 1, waiting := bufs[b].waiting + {t});
        return Some(b);
      }
      return None;
    }

    /** The second half of brelse, by process t: drop the reference; the last one moves b to the front. */
    method Drop(t: nat, b: nat)
      requires Valid() && b < n && t in bufs[b].leaving
      modifies this, bufs, next, prev
      ensures Valid()
      ensures forall log :: NextDrop(State.State(log, old(Contents())), t, b) == State.State(log, Contents())
      ensures stamp == if bufs[b].refcnt == 0 then old(stamp)[b := old(clock)] else old(stamp)
      ensures clock == old(clock) + if bufs[b].refcnt == 0 then 1 else 0
    {
      bufs[b] := bufs[b].(refcnt := bufs[b].refcnt - 1, leaving := bufs[b].leaving - {t});
      if bufs[b].refcnt == 0 {
        MoveToFront(b);
      }
    }

    method MoveToFront(b: nat)
      requires Valid() && b < n
      modifies this, next, prev
      ensures Valid() && order == ToFront(old(order), b) && clock == old(clock) + 1
      ensures stamp == old(stamp)[b := old(clock)]
    {
      OrderTotal(order, n, b);
      ghost var k: nat :| k < n && order[k] == b;
      WithoutAt(order, k);
      ToFrontGood(order, n, b);
      FrontRecent(order, stamp, clock, k);
      hide Ring, Recent, Before;
      Unlink(b, order, k);
      assert b !in Cut(order, k);
      PushFront(b, Cut(order, k));
      order, stamp, clock := [b] + Cut(order, k), stamp[b := clock], clock + 1;
    }

    method Unlink(b: nat, ghost nodes: seq<nat>, ghost k: nat)
      requires next.Length == prev.Length == n + 1 && next != prev
      requires Ring(nodes, next[..], prev[..], n) && k < |nodes| && nodes[k] == b
      modifies next, prev
      ensures Ring(Cut(nodes, k), next[..], prev[..], n)
    {
      UnlinkRing(nodes, next[..], prev[..], n, k);
      prev[next[b]] := prev[b];
      NodesDiffer(nodes, n, k + 1, k + 2);
      assert Node(nodes, n, k + 1) == b;
      assert prev[b] == old(prev[b]);
      next[prev[b]] := next[b];
    }

    method PushFront(b: nat, ghost nodes: seq<nat>)
      requires next.Length == prev.Length == n + 1 && next != prev
      requires Ring(nodes, next[..], prev[..], n) && b < n && b !in nodes
      modifies next, prev
      ensures Ring([b] + nodes, next[..], prev[..], n)
    {
      InsertRing(nodes, next[..], prev[..], n, b);
      next[b] := next[n];
      prev[b] := n;
      prev[next[n]] := b;
      next[n] := b;
    }

    /** The buffer that log_write is called with: a block that is new to the log is pinned. */
    method LogPin(t: nat, b: nat, isNew: bool)
      requires Valid() && b < n
      modifies bufs
      ensures Valid()
      ensures forall c: Log.Config, log: Log.State, k: nat ::
        var s := State.State(log, old(Contents()));
        Enabled(c, s, LogBuf(t, b, k)) && isNew == (old(bufs[b].blockno) !in log.lh) ==>
          Next(c, s, LogBuf(t, b, k)).cache == Contents()
    {
      bufs[b] := bufs[b].(dirty := false);
      if isNew {
        Bpin(b);
      }
    }

    /** The buffers of install_trans: log block i goes over home block j, which is unpinned unless recovering. */
    method InstallBuf(i: nat, j: nat, recovering: bool)
      requires Valid() && i < n && j < n
      modifies bufs
      ensures Valid()
      ensures forall c: Log.Config, log: Log.State ::
        (if recovering then log.phase.RecoverInstall? else log.phase.Install?) && log.phase.tail < |log.lh| ==>
          NextAdvance(c, State.State(log, old(Contents())), i, j).cache == Contents()
    {
      bufs[j] := bufs[j].(data := bufs[i].data);
      if !recovering {
        Bunpin(j);
      }
    }

    method Bpin(b: nat)
      requires Valid() && b < n
      modifies bufs
      ensures Valid() && bufs[..] == old(bufs[..])[b := old(bufs[b]).(refcnt := old(bufs[b]).refcnt + 1)]
    {
      bufs[b] := bufs[b].(refcnt := bufs[b].refcnt + 1);
    }

    /** bunpin does not move the buffer in the list, even when refcnt drops to 0. */
    method Bunpin(b: nat)
      requires Valid() && b < n
      modifies bufs
      ensures Valid() && bufs[..] == old(bufs[..])[b := old(bufs[b]).(refcnt := old(bufs[b]).refcnt - 1)]
    {
      bufs[b] := bufs[b].(refcnt := bufs[b].refcnt - 1);
    }
  }
}
