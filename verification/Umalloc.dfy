/**
 The storage allocator of user/umalloc.c, the one of section 8.7 of The C
 Programming Language (2nd edition). Addresses and sizes count Headers of 16
 bytes.
 */
module Umalloc {
  import opened Options

  /** sizeof(Header) */
  const HEADER: nat := 16
  /** &base, a static Header below the heap; 0 is the null pointer */
  const BASE: nat := 1

  datatype Hdr = Hdr(ptr: nat, size: nat)

  type Headers = map<nat, Hdr>

  function Nx(h: Headers, a: nat): nat { if a in h then h[a].ptr else 0 }

  function Sz(h: Headers, a: nat): nat { if a in h then h[a].size else 0 }

  function SetPtr(h: Headers, a: nat, p: nat): Headers { h[a := Hdr(p, Sz(h, a))] }

  function SetSize(h: Headers, a: nat, n: nat): Headers { h[a := Hdr(Nx(h, a), n)] }

  // ----- the free list as a sequence of blocks -----

  datatype Blk = Blk(addr: nat, size: nat)

  function Succ(k: nat, n: nat): nat { if k + 1 < n then k + 1 else 0 }

  /** Steps from k around the list to t. */
  function Dist(k: nat, t: nat, n: nat): nat
    requires k < n && t < n
  {
    if k <= t then t - k else n - k + t
  }

  /** A block ends before the next one begins, and not right before it. */
  predicate Gap(fl: seq<Blk>, k: nat) { k + 1 < |fl| ==> fl[k].addr + fl[k].size < fl[k + 1].addr }

  predicate Sized(fl: seq<Blk>, k: nat) { 0 < k < |fl| ==> fl[k].size > 0 }

  /** Address order from base on, no two blocks adjacent. */
  ghost predicate Ordered(fl: seq<Blk>) {
    && |fl| > 0 && fl[0] == Blk(BASE, 0)
    && (forall k: nat :: Gap(fl, k)) && (forall k: nat :: Sized(fl, k))
  }

  predicate LinkOk(h: Headers, fl: seq<Blk>, k: nat) {
    k < |fl| ==> fl[k].addr in h && h[fl[k].addr] == Hdr(fl[Succ(k, |fl|)].addr, fl[k].size)
  }

  /** The headers of the blocks form the circular list. */
  ghost predicate Linked(h: Headers, fl: seq<Blk>) { forall k: nat :: LinkOk(h, fl, k) }

  predicate InBlk(b: Blk, u: nat) { b.addr <= u < b.addr + b.size }

  ghost predicate InFree(fl: seq<Blk>, u: nat) { exists k: nat :: k < |fl| && InBlk(fl[k], u) }

  ghost predicate InLive(live: map<nat, nat>, u: nat) { exists a: nat :: a in live && InBlk(Blk(a, live[a]), u) }

  ghost predicate Apart(live: map<nat, nat>) {
    forall a: nat, b: nat :: a in live && b in live && a < b ==> a + live[a] <= b
  }

  /** Free blocks and live blocks share out exactly the units that came from sbrk. */
  ghost predicate Partition(fl: seq<Blk>, live: map<nat, nat>, got: set<nat>, brk: nat) {
    && (forall u: nat :: u in got <==> InFree(fl, u) || InLive(live, u))
    && (forall u: nat :: !(InFree(fl, u) && InLive(live, u)))
    && Apart(live) && (forall a: nat :: a in live ==> live[a] > 0)
    && (forall u: nat :: u in got ==> BASE < u < brk)
  }

  /** Blocks later in the list lie higher. */
  lemma {:induction false} Higher(fl: seq<Blk>, i: nat, j: nat)
    requires Ordered(fl) && i < j < |fl|
    ensures fl[i].addr + fl[i].size < fl[j].addr
    decreases j - i
  {
    assert Gap(fl, i);
    if i + 1 < j {
      Higher(fl, i + 1, j);
    }
  }

  /** A block outside the free list lies in one gap of it. */
  predicate Between(fl: seq<Blk>, t: nat, b: Blk) {
    && t < |fl| && fl[t].addr + fl[t].size <= b.addr && fl[t].addr < b.addr
    && (t + 1 < |fl| ==> b.addr + b.size <= fl[t + 1].addr)
  }

  lemma {:induction false} FindGap(fl: seq<Blk>, b: Blk) returns (t: nat)
    requires Ordered(fl) && b.size > 0 && b.addr > BASE && forall u: nat :: InBlk(b, u) ==> !InFree(fl, u)
    ensures Between(fl, t, b)
  {
    t := 0;
    while t + 1 < |fl| && fl[t + 1].addr < b.addr
      invariant t < |fl| && fl[t].addr < b.addr
    {
      t := t + 1;
    }
    assert Sized(fl, t);
    if t > 0 && fl[t].addr + fl[t].size > b.addr {
      assert InBlk(fl[t], b.addr);
      assert InBlk(b, b.addr);
      assert false;
    }
    if t + 1 < |fl| && b.addr + b.size > fl[t + 1].addr {
      assert Sized(fl, t + 1);
      assert InBlk(fl[t + 1], fl[t + 1].addr);
      assert InBlk(b, fl[t + 1].addr);
      assert false;
    }
  }

  /** The gap is the only one, so the place where free stops is determined. */
  lemma {:induction false} GapOnly(fl: seq<Blk>, b: Blk, t: nat, k: nat)
    requires Ordered(fl) && Between(fl, t, b) && b.size > 0 && k < |fl|
    ensures k < t ==> fl[k + 1].addr < b.addr
    ensures k > t ==> fl[k].addr > b.addr
  {
    if k + 1 < t { Higher(fl, k + 1, t); }
    if k > t + 1 { Higher(fl, t + 1, k); }
  }

  // ----- free -----

  predicate JoinsUp(fl: seq<Blk>, t: nat, b: Blk) { t + 1 < |fl| && b.addr + b.size == fl[t + 1].addr }

  predicate JoinsDown(fl: seq<Blk>, t: nat, b: Blk) { t < |fl| && fl[t].addr + fl[t].size == b.addr }

  /** b, with the block above it if they touch. */
  function Upper(fl: seq<Blk>, t: nat, b: Blk): Blk {
    if JoinsUp(fl, t, b) then Blk(b.addr, b.size + fl[t + 1].size) else b
  }

  function Above(fl: seq<Blk>, t: nat, b: Blk): seq<Blk>
    requires t < |fl|
  {
    if JoinsUp(fl, t, b) then fl[t + 2..] else fl[t + 1..]
  }

  /** The free list with b returned to the gap after block t. */
  function Insert(fl: seq<Blk>, t: nat, b: Blk): seq<Blk>
    requires t < |fl|
  {
    if JoinsDown(fl, t, b) then fl[..t] + [Blk(fl[t].addr, fl[t].size + Upper(fl, t, b).size)] + Above(fl, t, b)
    else fl[..t + 1] + [Upper(fl, t, b)] + Above(fl, t, b)
  }

  lemma {:induction false} InsertOrdered(fl: seq<Blk>, t: nat, b: Blk)
    requires Ordered(fl) && Between(fl, t, b) && b.size > 0
    ensures Ordered(Insert(fl, t, b))
  {
    var fl' := Insert(fl, t, b);
    assert Gap(fl, t) && Gap(fl, t + 1) && Sized(fl, t) && Sized(fl, t + 1);
    forall k: nat ensures Gap(fl', k) && Sized(fl', k) {
      assert Gap(fl, k) && Sized(fl, k);
      assert k > 0 ==> Gap(fl, k - 1) && Sized(fl, k - 1);
      assert Gap(fl, k + 1) && Sized(fl, k + 1);
    }
  }

  /** Returning a block adds exactly its units to the free ones. */
  lemma {:induction false} InsertCovers(fl: seq<Blk>, t: nat, b: Blk, u: nat)
    requires Ordered(fl) && Between(fl, t, b) && b.size > 0
    ensures InFree(Insert(fl, t, b), u) <==> InFree(fl, u) || InBlk(b, u)
  {
    var fl' := Insert(fl, t, b);
    var d := if JoinsDown(fl, t, b) then t else t + 1;
    var s := if JoinsUp(fl, t, b) then t + 2 else t + 1;
    assert fl' == fl[..d] + [fl'[d]] + fl[s..];
    assert InBlk(fl'[d], u) <==> InBlk(b, u) || (d == t && InBlk(fl[t], u)) || (s == t + 2 && InBlk(fl[t + 1], u));
    assert d <= s <= |fl| && (s == d || s == d + 1 || s == d + 2) &&
      (d == t || d == t + 1) && (s == t + 1 || s == t + 2);
    hide Insert, Ordered, JoinsUp, JoinsDown, Between;
    CoverSplice(fl, fl', d, s, u);
    assert InAt(fl, d, s, u) ==> InBlk(fl'[d], u);
    assert InBlk(fl'[d], u) ==> InBlk(b, u) || InAt(fl, d, s, u);
  }

  ghost predicate InAt(fl: seq<Blk>, d: nat, s: nat, u: nat) {
    exists k: nat :: d <= k < s && k < |fl| && InBlk(fl[k], u)
  }

  /** Replacing blocks d to s by one block changes the free units only there. */
  lemma {:induction false} CoverSplice(fl: seq<Blk>, fl': seq<Blk>, d: nat, s: nat, u: nat)
    requires d <= s <= |fl| && d < |fl'| && fl' == fl[..d] + [fl'[d]] + fl[s..]
    ensures InFree(fl', u) ==> InBlk(fl'[d], u) || InFree(fl, u)
    ensures InFree(fl, u) ==> InFree(fl', u) || InAt(fl, d, s, u)
    ensures InBlk(fl'[d], u) ==> InFree(fl', u)
    ensures InAt(fl, d, s, u) ==> InFree(fl, u)
  {
    if InFree(fl', u) {
      var k: nat :| k < |fl'| && InBlk(fl'[k], u);
      assert k < d ==> fl'[k] == fl[k];
      assert k > d ==> fl'[k] == fl[k - d - 1 + s];
    }
    if InFree(fl, u) {
      var k: nat :| k < |fl| && InBlk(fl[k], u);
      assert k < d ==> fl'[k] == fl[k];
      assert k >= s ==> fl'[k - s + d + 1] == fl[k];
    }
  }

  /** Index of the block that free leaves freep at. */
  lemma {:induction false} InsertKeeps(fl: seq<Blk>, t: nat, b: Blk)
    requires Ordered(fl) && Between(fl, t, b) && b.size > 0
    ensures t < |Insert(fl, t, b)| && Insert(fl, t, b)[t].addr == fl[t].addr
    ensures exists k: nat :: k < |Insert(fl, t, b)| && Insert(fl, t, b)[k].size >= b.size
  {
    var fl' := Insert(fl, t, b);
    var d := if JoinsDown(fl, t, b) then t else t + 1;
    assert fl'[d].size >= b.size;
  }

  /** What free writes, as the code does it: first bp's header, then p's. */
  function FreeWrites(h: Headers, p: nat, bp: nat): Headers {
    var q := Nx(h, p);
    var h1 := if bp + Sz(h, bp) == q then h[bp := Hdr(Nx(h, q), Sz(h, bp) + Sz(h, q))] else SetPtr(h, bp, q);
    if p + Sz(h1, p) == bp then h1[p := Hdr(Nx(h1, bp), Sz(h1, p) + Sz(h1, bp))] else SetPtr(h1, p, bp)
  }

  /** The address of block k, or of base past the end. */
  function AddrAt(fl: seq<Blk>, k: nat): nat { if k < |fl| then fl[k].addr else BASE }

  lemma {:induction false} FreeHeaders(h: Headers, fl: seq<Blk>, t: nat, b: Blk)
    requires Ordered(fl) && Linked(h, fl) && Between(fl, t, b) && b.size > 0 && b.addr > BASE && Sz(h, b.addr) == b.size
    ensures var s := if JoinsUp(fl, t, b) then t + 2 else t + 1;
      var m := Hdr(AddrAt(fl, s), Upper(fl, t, b).size);
      FreeWrites(h, fl[t].addr, b.addr) ==
        if JoinsDown(fl, t, b) then h[b.addr := m][fl[t].addr := Hdr(m.ptr, fl[t].size + m.size)]
        else h[b.addr := m][fl[t].addr := Hdr(b.addr, fl[t].size)]
  {
    assert LinkOk(h, fl, t) && LinkOk(h, fl, t + 1);
    GapOnly(fl, b, t, 0);
  }

  /** The headers of other blocks are not written. */
  lemma {:induction false} OtherAddr(fl: seq<Blk>, t: nat, b: Blk, k: nat)
    requires Ordered(fl) && Between(fl, t, b) && b.size > 0 && k < |fl| && k != t
    ensures fl[k].addr != fl[t].addr && fl[k].addr != b.addr
  {
    GapOnly(fl, b, t, k);
    if k < t { Higher(fl, k, t); } else { Higher(fl, t, k); }
  }

  lemma {:induction false} FreeLinked(h: Headers, fl: seq<Blk>, t: nat, b: Blk)
    requires Ordered(fl) && Linked(h, fl) && Between(fl, t, b) && b.size > 0 && b.addr > BASE && Sz(h, b.addr) == b.size
    ensures Linked(FreeWrites(h, fl[t].addr, b.addr), Insert(fl, t, b))
  {
    var fl', h' := Insert(fl, t, b), FreeWrites(h, fl[t].addr, b.addr);
    var d := if JoinsDown(fl, t, b) then t else t + 1;
    var s := if JoinsUp(fl, t, b) then t + 2 else t + 1;
    assert fl' == fl[..d] + [fl'[d]] + fl[s..];
    FreeHeaders(h, fl, t, b);
    hide FreeWrites, Insert, JoinsUp, JoinsDown, Ordered, Between;
    forall k: nat ensures LinkOk(h', fl', k) {
      if k < |fl'| {
        var j := if k < d then k else if k == d then t else k - d - 1 + s;
        if k < d || k > d {
          assert fl'[k] == fl[j];
          assert LinkOk(h, fl, j);
          if j != t { OtherAddr(fl, t, b, j); }
        }
        assert k + 1 < d ==> fl'[k + 1] == fl[k + 1];
        assert d <= k ==> AddrAt(fl', k + 1) == AddrAt(fl, if k == d then s else j + 1);
      }
    }
  }

  // ----- malloc -----

  /** Where in block i a request for n units is cut: at its end. */
  function Cut(fl: seq<Blk>, i: nat, n: nat): Blk
    requires i < |fl| && n <= fl[i].size
  {
    Blk(fl[i].addr + fl[i].size - n, n)
  }

  /** The free list without the n units cut from block i. */
  function Take(fl: seq<Blk>, i: nat, n: nat): seq<Blk>
    requires i < |fl| && n <= fl[i].size
  {
    if fl[i].size == n then fl[..i] + fl[i + 1..] else fl[i := Blk(fl[i].addr, fl[i].size - n)]
  }

  lemma {:induction false} TakeOrdered(fl: seq<Blk>, i: nat, n: nat)
    requires Ordered(fl) && i < |fl| && 0 < n <= fl[i].size
    ensures i > 0 && Ordered(Take(fl, i, n))
  {
    var fl' := Take(fl, i, n);
    assert Gap(fl, i - 1) && Gap(fl, i) && Sized(fl, i);
    forall k: nat ensures Gap(fl', k) && Sized(fl', k) {
      assert Gap(fl, k) && Sized(fl, k) && Gap(fl, k + 1) && Sized(fl, k + 1);
    }
  }

  /** Cutting removes exactly the units of the cut from the free ones. */
  lemma {:induction false} TakeCovers(fl: seq<Blk>, i: nat, n: nat, u: nat)
    requires Ordered(fl) && i < |fl| && 0 < n <= fl[i].size
    ensures InFree(fl, u) <==> InFree(Take(fl, i, n), u) || InBlk(Cut(fl, i, n), u)
    ensures !(InFree(Take(fl, i, n), u) && InBlk(Cut(fl, i, n), u))
  {
    var fl' := Take(fl, i, n);
    var gone := fl[i].size == n;
    if InFree(fl', u) {
      var k: nat :| k < |fl'| && InBlk(fl'[k], u);
      var j := if gone && k >= i then k + 1 else k;
      assert j != i ==> fl'[k] == fl[j];
      assert InBlk(fl[j], u);
      if j < i { Higher(fl, j, i); }
      if i < j { Higher(fl, i, j); }
    }
    if InFree(fl, u) {
      var k: nat :| k < |fl| && InBlk(fl[k], u);
      var j := if gone && k > i then k - 1 else k;
      assert k != i ==> fl'[j] == fl[k];
      assert k == i && !gone ==> fl'[i] == Blk(fl[i].addr, fl[i].size - n);
    }
    assert InBlk(Cut(fl, i, n), u) ==> InBlk(fl[i], u);
  }

  /** What malloc writes once it has found block p after prevp. */
  function TakeWrites(h: Headers, prevp: nat, p: nat, n: nat): Headers
    requires n <= Sz(h, p)
  {
    if Sz(h, p) == n then SetPtr(h, prevp, Nx(h, p))
    else SetSize(SetSize(h, p, Sz(h, p) - n), p + (Sz(h, p) - n), n)
  }

  lemma {:induction false} UnlinkLinked(h: Headers, fl: seq<Blk>, i: nat)
    requires Ordered(fl) && Linked(h, fl) && 0 < i < |fl|
    ensures Linked(SetPtr(h, fl[i - 1].addr, Nx(h, fl[i].addr)), fl[..i] + fl[i + 1..])
  {
    assert LinkOk(h, fl, i) && LinkOk(h, fl, i - 1);
    var fl', h' := fl[..i] + fl[i + 1..], SetPtr(h, fl[i - 1].addr, Nx(h, fl[i].addr));
    forall k: nat ensures LinkOk(h', fl', k) {
      if k < |fl'| {
        var m := if k >= i then k + 1 else k;
        assert fl'[k] == fl[m] && LinkOk(h, fl, m);
        assert k + 1 < |fl'| ==> fl'[k + 1] == fl[if k + 1 >= i then k + 2 else k + 1];
        if m < i - 1 { Higher(fl, m, i - 1); }
        if m > i { Higher(fl, i - 1, m); }
      }
    }
  }

  lemma {:induction false} ShrinkLinked(h: Headers, fl: seq<Blk>, i: nat, n: nat)
    requires Ordered(fl) && Linked(h, fl) && i < |fl| && 0 < n < fl[i].size
    ensures Linked(SetSize(SetSize(h, fl[i].addr, fl[i].size - n), fl[i].addr + (fl[i].size - n), n),
      fl[i := Blk(fl[i].addr, fl[i].size - n)])
  {
    assert LinkOk(h, fl, i);
    var fl' := fl[i := Blk(fl[i].addr, fl[i].size - n)];
    var h' := SetSize(SetSize(h, fl[i].addr, fl[i].size - n), fl[i].addr + (fl[i].size - n), n);
    forall k: nat ensures LinkOk(h', fl', k) {
      if k < |fl'| {
        assert LinkOk(h, fl, k);
        if k < i { Higher(fl, k, i); }
        if i < k { Higher(fl, i, k); }
      }
    }
  }

  lemma {:induction false} TakeLinked(h: Headers, fl: seq<Blk>, j: nat, i: nat, n: nat)
    requires Ordered(fl) && Linked(h, fl) && j < |fl| && i == Succ(j, |fl|) && 0 < n <= fl[i].size
    ensures n <= Sz(h, fl[i].addr) && Linked(TakeWrites(h, fl[j].addr, fl[i].addr, n), Take(fl, i, n))
    ensures Sz(TakeWrites(h, fl[j].addr, fl[i].addr, n), Cut(fl, i, n).addr) == n
  {
    assert LinkOk(h, fl, i);
    TakeOrdered(fl, i, n);
    Higher(fl, j, i);
    hide Linked;
    if fl[i].size == n {
      UnlinkLinked(h, fl, i);
    } else {
      ShrinkLinked(h, fl, i, n);
    }
  }

  // ----- the partition -----

  lemma {:induction false} FreePartition(fl: seq<Blk>, t: nat, live: map<nat, nat>, a: nat, got: set<nat>, brk: nat)
    requires Ordered(fl) && Partition(fl, live, got, brk) && a in live && Between(fl, t, Blk(a, live[a]))
    ensures Partition(Insert(fl, t, Blk(a, live[a])), live - {a}, got, brk)
  {
    assert t < |fl|;
    hide Insert, Between, Ordered;
    var b, fl', live' := Blk(a, live[a]), Insert(fl, t, Blk(a, live[a])), live - {a};
    forall u: nat
      ensures InFree(fl', u) <==> InFree(fl, u) || InBlk(b, u)
      ensures InLive(live, u) <==> InLive(live', u) || InBlk(b, u)
      ensures !(InLive(live', u) && InBlk(b, u))
    {
      InsertCovers(fl, t, b, u);
      DropLive(live, a, u);
      hide InFree, InLive;
    }
    hide InFree, InLive;
  }

  lemma {:induction false} DropLive(live: map<nat, nat>, a: nat, u: nat)
    requires a in live && Apart(live)
    ensures InLive(live, u) <==> InLive(live - {a}, u) || InBlk(Blk(a, live[a]), u)
    ensures !(InLive(live - {a}, u) && InBlk(Blk(a, live[a]), u))
  {
    var live' := live - {a};
    if InLive(live, u) {
      var c: nat :| c in live && InBlk(Blk(c, live[c]), u);
      assert c != a ==> c in live' && live'[c] == live[c];
    }
    if InLive(live', u) {
      var c: nat :| c in live' && InBlk(Blk(c, live'[c]), u);
      assert c in live && live[c] == live'[c];
    }
  }

  /** A new live block over units that no live block has. */
  lemma {:induction false} AddLive(live: map<nat, nat>, b: Blk, u: nat)
    requires b.addr !in live
    ensures InLive(live[b.addr := b.size], u) <==> InLive(live, u) || InBlk(b, u)
  {
    var live' := live[b.addr := b.size];
    if InLive(live, u) {
      var c: nat :| c in live && InBlk(Blk(c, live[c]), u);
      assert c in live' && live'[c] == live[c];
    }
    assert b.addr in live' && live'[b.addr] == b.size;
  }

  lemma {:induction false} AddApart(live: map<nat, nat>, b: Blk)
    requires Apart(live) && b.size > 0 && (forall a: nat :: a in live ==> live[a] > 0)
    requires forall u: nat :: InBlk(b, u) ==> !InLive(live, u)
    ensures b.addr !in live && Apart(live[b.addr := b.size])
  {
    assert InBlk(b, b.addr);
    assert b.addr in live ==> InBlk(Blk(b.addr, live[b.addr]), b.addr);
    forall c: nat | c in live ensures c + live[c] <= b.addr || b.addr + b.size <= c {
      assert c >= b.addr && c < b.addr + b.size ==> InBlk(b, c) && InBlk(Blk(c, live[c]), c);
      assert c < b.addr && b.addr < c + live[c] ==> InBlk(Blk(c, live[c]), b.addr);
    }
  }

  lemma {:induction false} TakePartition(fl: seq<Blk>, i: nat, n: nat, live: map<nat, nat>, got: set<nat>, brk: nat)
    requires Ordered(fl) && Partition(fl, live, got, brk) && i < |fl| && 0 < n <= fl[i].size
    ensures Cut(fl, i, n).addr !in live && Partition(Take(fl, i, n), live[Cut(fl, i, n).addr := n], got, brk)
  {
    var b, fl' := Cut(fl, i, n), Take(fl, i, n);
    forall u: nat
      ensures InFree(fl, u) <==> InFree(fl', u) || InBlk(b, u)
      ensures !(InFree(fl', u) && InBlk(b, u))
    {
      TakeCovers(fl, i, n, u);
    }
    hide Take, Cut, Ordered, InFree;
    AddApart(live, b);
    forall u: nat ensures InLive(live[b.addr := b.size], u) <==> InLive(live, u) || InBlk(b, u) {
      AddLive(live, b, u);
    }
    hide InLive, Apart;
  }

  ghost function Units(a: nat, n: nat): set<nat> { set u: nat | a <= u < a + n && InBlk(Blk(a, n), u) }

  /** sbrk hands over nu units at or above the break; they are made a live block, to be freed at once. */
  lemma {:induction false} GrowPartition(fl: seq<Blk>, live: map<nat, nat>, got: set<nat>, brk: nat, hp: nat, nu: nat)
    requires Partition(fl, live, got, brk) && BASE < brk <= hp && nu > 0
    ensures hp !in live && Partition(fl, live[hp := nu], got + Units(hp, nu), hp + nu)
  {
    var b := Blk(hp, nu);
    forall u: nat | InBlk(b, u) ensures !InLive(live, u) && !InFree(fl, u) {
      assert u !in got;
    }
    hide InFree;
    AddApart(live, b);
    forall u: nat ensures InLive(live[hp := nu], u) <==> InLive(live, u) || InBlk(b, u) {
      AddLive(live, b, u);
    }
    hide InLive, Apart;
  }

  // ----- the code -----

  ghost predicate Kept(h: Headers, live: map<nat, nat>) { forall a: nat :: a in live ==> Sz(h, a) == live[a] }

  ghost predicate AtList(fl: seq<Blk>, a: nat) { exists k: nat :: k < |fl| && fl[k].addr == a }

  class Heap {
    var hdr: Headers
    var freep: nat
    ghost var fl: seq<Blk>
    /** Blocks handed out and not yet freed: address of the header and size */
    ghost var live: map<nat, nat>
    /** Units obtained from sbrk */
    ghost var got: set<nat>
    ghost var brk: nat

    ghost predicate Valid()
      reads this
    {
      && (freep == 0 ==> fl == [] && live == map[] && got == {})
      && (freep != 0 ==> Ordered(fl) && Linked(hdr, fl) && AtList(fl, freep))
      && Kept(hdr, live) && Partition(fl, live, got, brk) && brk > BASE
    }

    constructor (ghost start: nat)
      requires start > BASE
      ensures Valid() && live == map[] && got == {}
    {
      hdr, freep := map[], 0;
      fl, live, got, brk := [], map[], {}, start;
    }

    /** The loop of free: the block after which bp belongs. */
    method FindPlace(bp: nat) returns (p: nat, ghost t: nat)
      requires Valid() && bp in live
      ensures t < |fl| && p == fl[t].addr && Between(fl, t, Blk(bp, live[bp]))
    {
      ghost var b := Blk(bp, live[bp]);
      LiveOutside(fl, live, got, brk, bp);
      t := FindGap(fl, b);
      ghost var i: nat :| i < |fl| && fl[i].addr == freep;
      p := freep;
      while !(bp > p && bp < Nx(hdr, p))
        invariant i < |fl| && p == fl[i].addr
        decreases Dist(i, t, |fl|)
      {
        SearchStep(hdr, fl, b, t, i);
        if p >= Nx(hdr, p) && (bp > p || bp < Nx(hdr, p)) {
          break;
        }
        p := Nx(hdr, p);
        i := Succ(i, |fl|);
      }
      SearchStep(hdr, fl, b, t, i);
    }

    method Free(ap: nat)
      requires Valid() && ap > 0 && ap - 1 in live
      modifies this
      ensures Valid() && freep != 0 && live == old(live) - {ap - 1} && got == old(got) && brk == old(brk)
      ensures forall u: nat :: InFree(fl, u) <==> old(InFree(fl, u)) || InBlk(Blk(ap - 1, old(live)[ap - 1]), u)
      ensures exists k: nat :: k < |fl| && fl[k].size >= old(live)[ap - 1]
    {
      hide Ordered, Linked, Partition, InFree;
      var bp := ap - 1;
      ghost var b := Blk(bp, live[bp]);
      var p;
      ghost var t;
      p, t := FindPlace(bp);
      LiveOutside(fl, live, got, brk, bp);
      FreeLinked(hdr, fl, t, b);
      FreeKept(hdr, fl, live, got, brk, t, bp);
      InsertOrdered(fl, t, b);
      InsertKeeps(fl, t, b);
      FreePartition(fl, t, live, bp, got, brk);
      forall u: nat ensures InFree(Insert(fl, t, b), u) <==> InFree(fl, u) || InBlk(b, u) {
        InsertCovers(fl, t, b, u);
      }
      hide Insert, Between;
      PlaceNonzero(fl, t);
      var q := Nx(hdr, p);
      if bp + Sz(hdr, bp) == q {
        hdr := hdr[bp := Hdr(Nx(hdr, q), Sz(hdr, bp) + Sz(hdr, q))];
      } else {
        hdr := SetPtr(hdr, bp, q);
      }
      if p + Sz(hdr, p) == bp {
        hdr := hdr[p := Hdr(Nx(hdr, bp), Sz(hdr, p) + Sz(hdr, bp))];
      } else {
        hdr := SetPtr(hdr, p, bp);
      }
      freep := p;
      fl := Insert(fl, t, b);
      live := live - {bp};
    }

    /** sbrk's answer is `grant`: an address at or above the break, or a refusal. */
    method Morecore(n: nat, grant: Option<nat>) returns (p: nat)
      requires Valid() && freep != 0 && n > 0 && (grant.Some? ==> grant.value >= brk)
      modifies this
      ensures Valid() && freep != 0
      ensures grant.None? ==> p == 0 && hdr == old(hdr) && freep == old(freep) && fl == old(fl)
      ensures grant.None? ==> live == old(live) && got == old(got) && brk == old(brk)
      ensures grant.Some? ==> p == freep && live == old(live) && exists k: nat :: k < |fl| && fl[k].size >= n
      ensures grant.Some? ==> got == old(got) + Units(grant.value, if n < 4096 then 4096 else n)
    {
      hide Ordered, Linked, Partition, InFree;
      var nu := if n < 4096 then 4096 else n;
      if grant.None? {
        return 0;
      }
      var hp := grant.value;
      GrowPartition(fl, live, got, brk, hp, nu);
      AboveBreak(hdr, fl, live, got, brk, hp, nu);
      hdr := SetSize(hdr, hp, nu);
      live, got, brk := live[hp := nu], got + Units(hp, nu), hp + nu;
      Free(hp + 1);
      assert live == old(live);
      p := freep;
    }

    /** Cut nunits from the block p after prevp. */
    method Allot(prevp: nat, p: nat, nunits: nat, ghost j: nat, ghost i: nat) returns (r: nat)
      requires Valid() && freep != 0 && j < |fl| && i == Succ(j, |fl|)
      requires prevp == fl[j].addr && p == fl[i].addr && 0 < nunits <= fl[i].size
      modifies this
      ensures Valid() && freep == prevp && r > 1 && r - 1 !in old(live) && live == old(live)[r - 1 := nunits]
      ensures got == old(got) && brk == old(brk)
      ensures forall u: nat :: old(InFree(fl, u)) <==> InFree(fl, u) || InBlk(Blk(r - 1, nunits), u)
    {
      hide Ordered, Linked, Partition, InFree;
      TakeLinked(hdr, fl, j, i, nunits);
      TakeOrdered(fl, i, nunits);
      TakePartition(fl, i, nunits, live, got, brk);
      TakeKept(hdr, fl, live, got, brk, j, i, nunits);
      PlaceNonzero(fl, j);
      PlaceNonzero(fl, i);
      ghost var b := Cut(fl, i, nunits);
      assert AtList(Take(fl, i, nunits), prevp) by {
        assert Take(fl, i, nunits)[j].addr == fl[j].addr;
      }
      forall u: nat ensures InFree(fl, u) <==> InFree(Take(fl, i, nunits), u) || InBlk(b, u) {
        TakeCovers(fl, i, nunits, u);
      }
      BlockSize(hdr, fl, i);
      var a := p;
      if Sz(hdr, p) == nunits {
        hdr := SetPtr(hdr, prevp, Nx(hdr, p));
      } else {
        hdr := SetSize(hdr, p, Sz(hdr, p) - nunits);
        a := p + Sz(hdr, p);
        hdr := SetSize(hdr, a, nunits);
      }
      fl, live := Take(fl, i, nunits), live[b.addr := nunits];
      freep := prevp;
      r := a + 1;
    }

    /**
     `asked` tells whether sbrk was called; there is no second call. It may grant memory only if the number of bytes
     reaches it whole: SbrkExact.
     */
    method Malloc(nbytes: nat, grant: Option<nat>) returns (r: nat, asked: bool)
      requires Valid() && nbytes < 0x1_0000_0000
      requires grant.Some? ==> grant.value >= brk && nbytes + 2 * HEADER <= 0x8000_0000
      modifies this
      ensures Valid()
      ensures r != 0 ==> r - 1 !in old(live) && live == old(live)[r - 1 := NUnits(nbytes)]
      ensures !asked || grant.None? ==> got == old(got)
      ensures asked && grant.Some? ==> r != 0
      ensures asked && grant.Some? ==> got == old(got) + Units(grant.value, Asked(nbytes))
      ensures r == 0 ==> asked && grant.None? && live == old(live) && forall u: nat :: InFree(fl, u) <==>
        old(InFree(fl, u))
      ensures r == 0 ==> forall k: nat :: k < |fl| ==> fl[k].size < NUnits(nbytes)
    {
      hide Ordered, Linked, Partition, InFree, Kept, AtList, NUnits;
      var nunits := (nbytes + HEADER - 1) / HEADER + 1;
      NUnitsIs(nbytes);
      asked := false;
      if freep == 0 {
        BaseOnly(hdr, live, got, brk);
        hdr, freep := hdr[BASE := Hdr(BASE, 0)], BASE;
        fl := [Blk(BASE, 0)];
      }
      ghost var fl0 := fl;
      ghost var f: nat := Index(fl, freep);
      var prevp := freep;
      NextOf(hdr, fl, f);
      var p := Nx(hdr, prevp);
      ghost var j: nat, i: nat := f, Succ(f, |fl|);
      SeenNone(fl, nunits, f);
      while true
        invariant Valid() && freep != 0 && live == old(live)
        invariant f < |fl| && fl[f].addr == freep && j < |fl|
        invariant prevp == fl[j].addr && i == Succ(j, |fl|) && p == fl[i].addr
        invariant !asked ==> got == old(got) && brk == old(brk) && fl == fl0 && Seen(fl, nunits, f, i)
        invariant asked ==> grant.Some? && got == old(got) + Units(grant.value, if nunits < 4096 then 4096 else nunits)
        invariant asked ==> Fits(fl, nunits, i, f)
        decreases if asked then 0 else 1, Dist(i, f, |fl|)
      {
        BlockSize(hdr, fl, i);
        if Sz(hdr, p) >= nunits {
          r := Allot(prevp, p, nunits, j, i);
          return;
        }
        SearchOn(fl, nunits, f, i);
        if p == freep {
          SameBlock(fl, i, f);
          assert !asked;
          asked := true;
          p := Morecore(nunits, grant);
          if p == 0 {
            return 0, true;
          }
          f := Index(fl, freep);
          i := f;
          FitsStart(fl, nunits, f);
        }
        NextOf(hdr, fl, i);
        prevp, p := p, Nx(hdr, p);
        j, i := i, Succ(i, |fl|);
      }
    }
  }

  /** The size of a request in Headers: the data rounded up, and the header. */
  function NUnits(nbytes: nat): (n: nat)
    ensures n > 0 && nbytes <= (n - 1) * HEADER < nbytes + HEADER
  {
    (nbytes + HEADER - 1) / HEADER + 1
  }

  lemma {:induction false} NUnitsIs(nbytes: nat)
    ensures NUnits(nbytes) == (nbytes + HEADER - 1) / HEADER + 1
  {
  }

  /** What remains of x as an int of 32 bits. */
  function AsInt(x: nat): int {
    var r := x % 0x1_0000_0000; if r < 0x8000_0000 then r else r - 0x1_0000_0000
  }

  /** The units that morecore asks sbrk for. */
  function Asked(nbytes: nat): nat { if NUnits(nbytes) < 4096 then 4096 else NUnits(nbytes) }

  /**
   The int parameter of sbrk holds the number of bytes that morecore wants exactly if the request is at most
   0x80000000 - 32 bytes. The largest request of all reaches sbrk as 16 bytes.
   */
  lemma {:induction false} SbrkExact(nbytes: nat)
    requires nbytes < 0x1_0000_0000
    ensures AsInt(Asked(nbytes) * HEADER) == Asked(nbytes) * HEADER <==> nbytes + 2 * HEADER <= 0x8000_0000
    ensures AsInt(Asked(0xffff_ffff) * HEADER) == HEADER
  {
  }

  /** The first call of malloc sets up base. */
  lemma {:induction false} BaseOnly(h: Headers, live: map<nat, nat>, got: set<nat>, brk: nat)
    requires Partition([], live, got, brk) && live == map[] && got == {}
    ensures Ordered([Blk(BASE, 0)]) && Linked(h[BASE := Hdr(BASE, 0)], [Blk(BASE, 0)]) && AtList([Blk(BASE, 0)], BASE)
    ensures Kept(h[BASE := Hdr(BASE, 0)], live) && Partition([Blk(BASE, 0)], live, got, brk)
    ensures forall u: nat :: !InFree([Blk(BASE, 0)], u) && !InFree([], u)
  {
    assert [Blk(BASE, 0)][0].addr == BASE;
  }

  ghost function Index(fl: seq<Blk>, a: nat): (k: nat)
    requires AtList(fl, a)
    ensures k < |fl| && fl[k].addr == a
  {
    var k: nat :| k < |fl| && fl[k].addr == a;
    k
  }

  lemma {:induction false} NextOf(h: Headers, fl: seq<Blk>, k: nat)
    requires Linked(h, fl) && k < |fl|
    ensures Nx(h, fl[k].addr) == fl[Succ(k, |fl|)].addr
  {
    assert LinkOk(h, fl, k);
  }

  lemma {:induction false} BlockSize(h: Headers, fl: seq<Blk>, k: nat)
    requires Linked(h, fl) && k < |fl|
    ensures Sz(h, fl[k].addr) == fl[k].size
  {
    assert LinkOk(h, fl, k);
  }

  lemma {:induction false} SameBlock(fl: seq<Blk>, i: nat, f: nat)
    requires Ordered(fl) && i < |fl| && f < |fl| && fl[i].addr == fl[f].addr
    ensures i == f
  {
    if i < f { Higher(fl, i, f); }
    if f < i { Higher(fl, f, i); }
  }

  /** The blocks from the one after f up to i, i excluded, are too small. */
  ghost predicate Seen(fl: seq<Blk>, n: nat, f: nat, i: nat)
    requires f < |fl| && i < |fl|
  {
    forall k: nat :: k < |fl| && Dist(Succ(f, |fl|), k, |fl|) < Dist(Succ(f, |fl|), i, |fl|) ==> fl[k].size < n
  }

  /** From i on, a block that is large enough comes no later than f. */
  ghost predicate Fits(fl: seq<Blk>, n: nat, i: nat, f: nat)
    requires f < |fl| && i < |fl|
  {
    exists g: nat :: g < |fl| && fl[g].size >= n && Dist(i, g, |fl|) <= Dist(i, f, |fl|)
  }

  lemma {:induction false} SeenNone(fl: seq<Blk>, n: nat, f: nat)
    requires f < |fl|
    ensures Seen(fl, n, f, Succ(f, |fl|))
  {
  }

  lemma {:induction false} FitsStart(fl: seq<Blk>, n: nat, f: nat)
    requires f < |fl| && exists k: nat :: k < |fl| && fl[k].size >= n
    ensures Fits(fl, n, Succ(f, |fl|), f)
  {
  }

  /** Block i is too small: the search goes on, or has been around. */
  lemma {:induction false} SearchOn(fl: seq<Blk>, n: nat, f: nat, i: nat)
    requires f < |fl| && i < |fl| && fl[i].size < n
    ensures i != f && Seen(fl, n, f, i) ==> Seen(fl, n, f, Succ(i, |fl|))
    ensures i == f && Seen(fl, n, f, i) ==> forall k: nat :: k < |fl| ==> fl[k].size < n
    ensures i != f && Fits(fl, n, i, f) ==> Fits(fl, n, Succ(i, |fl|), f)
    ensures i == f ==> !Fits(fl, n, i, f)
    ensures i != f ==> Dist(Succ(i, |fl|), f, |fl|) < Dist(i, f, |fl|)
  {
  }

  /** malloc writes no header of a live block. */
  lemma {:induction false} TakeKept(h: Headers, fl: seq<Blk>, live: map<nat, nat>, got: set<nat>, brk: nat, j: nat,
        i: nat, n: nat)
    requires Ordered(fl) && Linked(h, fl) && Partition(fl, live, got, brk)
    requires Kept(h, live) && j < |fl| && i == Succ(j, |fl|) && 0 < n <= fl[i].size
    ensures n <= Sz(h, fl[i].addr) && Kept(TakeWrites(h, fl[j].addr, fl[i].addr, n), live[Cut(fl, i, n).addr := n])
  {
    BlockSize(h, fl, i);
    TakeLinked(h, fl, j, i, n);
    assert Sized(fl, j) && Sized(fl, i);
    forall c: nat | c in live ensures c != Cut(fl, i, n).addr && c != fl[j].addr && c != fl[i].addr {
      LiveOutside(fl, live, got, brk, c);
      assert InBlk(Blk(c, live[c]), c);
      assert j > 0 ==> InBlk(fl[j], fl[j].addr);
      assert InBlk(fl[i], fl[i].addr) && InBlk(fl[i], Cut(fl, i, n).addr);
    }
  }

  lemma {:induction false} PlaceNonzero(fl: seq<Blk>, t: nat)
    requires Ordered(fl) && t < |fl|
    ensures fl[t].addr > 0
  {
    if t > 0 { Higher(fl, 0, t); }
  }

  /** free writes no header of another live block. */
  lemma {:induction false} FreeKept(h: Headers, fl: seq<Blk>, live: map<nat, nat>, got: set<nat>, brk: nat, t: nat,
        a: nat)
    requires Ordered(fl) && Partition(fl, live, got, brk) && Kept(h, live) && a in live && t < |fl|
    ensures Kept(FreeWrites(h, fl[t].addr, a), live - {a})
  {
    assert Sized(fl, t);
    forall c: nat | c in live - {a} ensures Sz(FreeWrites(h, fl[t].addr, a), c) == (live - {a})[c] {
      LiveOutside(fl, live, got, brk, c);
      assert InBlk(Blk(c, live[c]), c);
      assert t > 0 ==> InBlk(fl[t], fl[t].addr);
      assert c != fl[t].addr;
    }
  }

  /** A header written at the break is in no block. */
  lemma {:induction false} AboveBreak(h: Headers, fl: seq<Blk>, live: map<nat, nat>, got: set<nat>, brk: nat,
        hp: nat, nu: nat)
    requires Ordered(fl) && Linked(h, fl) && Partition(fl, live, got, brk) && Kept(h, live) && BASE < brk <= hp
    ensures Linked(SetSize(h, hp, nu), fl) && Kept(SetSize(h, hp, nu), live[hp := nu])
  {
    forall c: nat | c in live ensures c < hp {
      assert InBlk(Blk(c, live[c]), c);
      assert InLive(live, c);
    }
    forall k: nat ensures LinkOk(SetSize(h, hp, nu), fl, k) {
      assert LinkOk(h, fl, k) && Sized(fl, k);
      if 0 < k < |fl| {
        assert InBlk(fl[k], fl[k].addr);
        assert InFree(fl, fl[k].addr);
      }
    }
  }

  lemma {:induction false} LiveOutside(fl: seq<Blk>, live: map<nat, nat>, got: set<nat>, brk: nat, a: nat)
    requires Partition(fl, live, got, brk) && a in live
    ensures live[a] > 0 && a > BASE && forall u: nat :: InBlk(Blk(a, live[a]), u) ==> !InFree(fl, u)
  {
    assert InBlk(Blk(a, live[a]), a);
    assert forall u: nat :: InBlk(Blk(a, live[a]), u) ==> InLive(live, u);
    assert a in got;
    hide InFree, InLive;
  }

  /** The two conditions under which the loop of free ends at p, q being p->s.ptr. */
  predicate Stops(bp: nat, p: nat, q: nat) { (bp > p && bp < q) || (p >= q && (bp > p || bp < q)) }

  /** The loop of free stops at block t and nowhere else. */
  lemma {:induction false} SearchStep(h: Headers, fl: seq<Blk>, b: Blk, t: nat, i: nat)
    requires Ordered(fl) && Linked(h, fl) && Between(fl, t, b) && b.size > 0 && b.addr > BASE && i < |fl|
    ensures Nx(h, fl[i].addr) == fl[Succ(i, |fl|)].addr
    ensures i == t <==> Stops(b.addr, fl[i].addr, Nx(h, fl[i].addr))
    ensures i != t ==> Dist(Succ(i, |fl|), t, |fl|) < Dist(i, t, |fl|)
  {
    assert LinkOk(h, fl, i);
    GapOnly(fl, b, t, i);
    assert Gap(fl, i);
    if i > 0 { Higher(fl, 0, i); }
  }
}
