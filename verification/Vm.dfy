/**
 The three-level page tables of kernel/vm.c over the page allocator of
 kernel/kalloc.c. Physical pages are named by their page number. A history
 variable gives every page its one owner: the free list, one position in one
 page table, one user page, or the kernel code that holds it.
 */
module Vm {
  import opened Arith

  const PGSIZE: nat := 4096
  /** One beyond the highest virtual page number: MAXVA / PGSIZE */
  const NVPN: nat := 0x400_0000

  datatype Perm = Perm(r: bool, w: bool, x: bool, u: bool)

  /** A page-table entry: PTE_V, the physical page number, and the permission bits. */
  datatype Pte = Pte(v: bool, ppn: nat, perm: Perm)

  const NOPERM: Perm := Perm(false, false, false, false)
  const INVALID: Pte := Pte(false, 0, NOPERM)

  /** An entry that points to a lower page-table page: PTE_V and nothing else. */
  function Pointer(p: nat): Pte { Pte(true, p, NOPERM) }

  predicate IsLeaf(e: Pte) { e.v && (e.perm.r || e.perm.w || e.perm.x) }

  // ----- the bits of an entry (riscv.h) -----

  function Bit(b: bool): nat { if b then 1 else 0 }

  function Word(e: Pte): nat {
    e.ppn * 1024 + Flags(e)
  }

  /** PTE_FLAGS, without the bits that the kernel never sets. */
  function Flags(e: Pte): nat {
    Bit(e.v) + 2 * Bit(e.perm.r) + 4 * Bit(e.perm.w) + 8 * Bit(e.perm.x) + 16 * Bit(e.perm.u)
  }

  /** PTE2PA and the flag tests read back what PA2PTE(pa) | perm | PTE_V put together. */
  lemma {:induction false} WordFields(e: Pte)
    ensures (Word(e) / 1024) * PGSIZE == e.ppn * PGSIZE && Word(e) % 1024 == Flags(e)
    ensures (Word(e) % 2 == 1) == e.v
    ensures (Word(e) / 2 % 2 == 1) == e.perm.r && (Word(e) / 4 % 2 == 1) == e.perm.w
    ensures (Word(e) / 8 % 2 == 1) == e.perm.x && (Word(e) / 16 % 2 == 1) == e.perm.u
  {
    var f := Flags(e);
    assert Word(e) == e.ppn * 1024 + f && 0 <= f < 32;
    LowBits(e.ppn, f);
    hide Word;
    assert f % 2 == Bit(e.v);
    assert f / 2 % 2 == Bit(e.perm.r);
    assert f / 4 % 2 == Bit(e.perm.w);
    assert f / 8 % 2 == Bit(e.perm.x);
    assert f / 16 % 2 == Bit(e.perm.u);
  }

  lemma {:induction false} LowBits(n: nat, f: nat)
    requires f < 32
    ensures (n * 1024 + f) / 1024 == n && (n * 1024 + f) % 1024 == f && (n * 1024 + f) % 2 == f % 2
    ensures (n * 1024 + f) / 2 % 2 == f / 2 % 2 && (n * 1024 + f) / 4 % 2 == f / 4 % 2
    ensures (n * 1024 + f) / 8 % 2 == f / 8 % 2 && (n * 1024 + f) / 16 % 2 == f / 16 % 2
  {
    LowBit2(n, f);
    LowBit4(n, f);
    LowBit8(n, f);
    LowBit16(n, f);
  }

  lemma {:induction false} LowBit2(n: nat, f: nat)
    requires f < 32
    ensures (n * 1024 + f) / 2 % 2 == f / 2 % 2
  {
    Quotient(n * 1024 + f, n * 512 + f / 2, f % 2, 2);
    Quotient(n * 512 + f / 2, n * 256 + f / 4, f / 2 % 2, 2);
  }

  lemma {:induction false} LowBit4(n: nat, f: nat)
    requires f < 32
    ensures (n * 1024 + f) / 4 % 2 == f / 4 % 2
  {
    Quotient(n * 1024 + f, n * 256 + f / 4, f % 4, 4);
    Quotient(n * 256 + f / 4, n * 128 + f / 8, f / 4 % 2, 2);
  }

  lemma {:induction false} LowBit8(n: nat, f: nat)
    requires f < 32
    ensures (n * 1024 + f) / 8 % 2 == f / 8 % 2
  {
    Quotient(n * 1024 + f, n * 128 + f / 8, f % 8, 8);
    Quotient(n * 128 + f / 8, n * 64 + f / 16, f / 8 % 2, 2);
  }

  lemma {:induction false} LowBit16(n: nat, f: nat)
    requires f < 32
    ensures (n * 1024 + f) / 16 % 2 == f / 16 % 2
  {
    Quotient(n * 1024 + f, n * 64 + f / 16, f % 16, 16);
    Quotient(n * 64 + f / 16, n * 32 + f / 32, f / 16 % 2, 2);
  }

  // ----- virtual addresses -----

  /** PX(level, va): the 9-bit index of va at the given level. */
  function PX(level: nat, va: nat): nat {
    if level == 0 then va / 0x1000 % 512
    else if level == 1 then va / 0x20_0000 % 512
    else va / 0x4000_0000 % 512
  }

  function I2(vpn: nat): nat { vpn / 0x4_0000 % 512 }
  function I1(vpn: nat): nat { vpn / 512 % 512 }
  function I0(vpn: nat): nat { vpn % 512 }

  lemma {:induction false} PXByPage(va: nat)
    ensures PX(2, va) == I2(va / PGSIZE) && PX(1, va) == I1(va / PGSIZE) && PX(0, va) == I0(va / PGSIZE)
  {
    assert va / 0x20_0000 == va / PGSIZE / 512;
    assert va / 0x4000_0000 == va / PGSIZE / 0x4_0000;
  }

  /** The page number with the given indices. */
  function Vpn(i: nat, j: nat, k: nat): nat { (i * 512 + j) * 512 + k }

  lemma {:induction false} VpnIndices(i: nat, j: nat, k: nat)
    requires i < 256 && j < 512 && k < 512
    ensures Vpn(i, j, k) < NVPN && I2(Vpn(i, j, k)) == i && I1(Vpn(i, j, k)) == j && I0(Vpn(i, j, k)) == k
  {
    var v := Vpn(i, j, k);
    assert v / 512 == i * 512 + j;
    assert v / 0x4_0000 == v / 512 / 512;
  }

  lemma {:induction false} I2Bound(vpn: nat)
    requires vpn < NVPN
    ensures I2(vpn) < 256 && I1(vpn) < 512 && I0(vpn) < 512
  {
  }

  /** Distinct pages below MAXVA have distinct index triples. */
  lemma {:induction false} IndicesInjective(v: nat, v': nat)
    requires v < NVPN && v' < NVPN && I2(v) == I2(v') && I1(v) == I1(v') && I0(v) == I0(v')
    ensures v == v'
  {
    assert v / 0x4_0000 < 512 && v' / 0x4_0000 < 512;
    assert v == (v / 512) * 512 + I0(v) && v' == (v' / 512) * 512 + I0(v');
    assert v / 512 == (v / 0x4_0000) * 512 + I1(v) && v' / 512 == (v' / 0x4_0000) * 512 + I1(v');
  }

  // ----- memory -----

  datatype Owner =
    | Free
    | Root
    | Mid(root: nat, i: nat)
    | Low(root: nat, i: nat, j: nat)
    | User(root: nat, vpn: nat)
    | Kernel
    | NotRam

  type Tables = map<nat, seq<Pte>>
  type Owners = map<nat, Owner>

  /** Page-table pages by their entries, all pages by their bytes, the free list, and who owns what. */
  datatype Mem = Mem(tables: Tables, bytes: map<nat, seq<nat>>, free: seq<nat>, own: Owners)

  function Own(o: Owners, p: nat): Owner { if p in o then o[p] else NotRam }

  function Entry(t: Tables, p: nat, i: nat): Pte {
    if p in t && i < |t[p]| then t[p][i] else INVALID
  }

  /** The table has a level-0 page for vpn. */
  predicate HasLow(t: Tables, r: nat, vpn: nat) {
    Entry(t, r, I2(vpn)).v && Entry(t, Entry(t, r, I2(vpn)).ppn, I1(vpn)).v
  }

  function LowPage(t: Tables, r: nat, vpn: nat): nat {
    Entry(t, Entry(t, r, I2(vpn)).ppn, I1(vpn)).ppn
  }

  /** The leaf entry of page vpn in table r: what walk(r, va, 0) leads to, INVALID if there is none. */
  function Leaf(t: Tables, r: nat, vpn: nat): Pte {
    if HasLow(t, r, vpn) then Entry(t, LowPage(t, r, vpn), I0(vpn)) else INVALID
  }

  predicate IsTable(o: Owner) { o.Root? || o.Mid? || o.Low? }

  ghost predicate Sizes(t: Tables, bytes: map<nat, seq<nat>>, o: Owners) {
    && (forall p: nat :: p in t <==> IsTable(Own(o, p)))
    && (forall p :: p in t ==> |t[p]| == 512)
    && (forall p :: p in o ==> p in bytes)
    && (forall p :: p in bytes ==> |bytes[p]| == PGSIZE)
  }

  /** Entries lead down to the page that owns the position below. */
  ghost predicate Down(t: Tables, o: Owners) {
    && (forall p: nat, i: nat :: Own(o, p).Root? && Entry(t, p, i).v ==>
          var e := Entry(t, p, i); e == Pointer(e.ppn) && Own(o, e.ppn) == Mid(p, i))
    && (forall p: nat, i: nat :: Own(o, p).Mid? && Entry(t, p, i).v ==>
          var e := Entry(t, p, i); e == Pointer(e.ppn) && Own(o, e.ppn) == Low(Own(o, p).root, Own(o, p).i, i))
    && (forall p: nat, i: nat :: Own(o, p).Low? && Entry(t, p, i).v ==> IsLeaf(Entry(t, p, i)))
  }

  /** The owner of a position is what the entry above it points to. */
  ghost predicate Up(t: Tables, o: Owners) {
    && (forall q: nat :: Own(o, q).Mid? ==> UpMid(t, o, q, Own(o, q)))
    && (forall q: nat :: Own(o, q).Low? ==> UpLow(t, o, q, Own(o, q)))
  }

  predicate UpMid(t: Tables, o: Owners, q: nat, x: Owner)
    requires x.Mid?
  {
    Own(o, x.root).Root? && x.i < 256 && Entry(t, x.root, x.i) == Pointer(q)
  }

  predicate UpLow(t: Tables, o: Owners, q: nat, x: Owner)
    requires x.Low?
  {
    var p := Entry(t, x.root, x.i).ppn;
    && Own(o, x.root).Root? && x.i < 256 && x.j < 512
    && Own(o, p) == Mid(x.root, x.i) && Entry(t, x.root, x.i) == Pointer(p) && Entry(t, p, x.j) == Pointer(q)
  }

  /** A user page is mapped where its owner says. */
  ghost predicate UserOk(t: Tables, o: Owners) {
    forall q: nat :: Own(o, q).User? ==> Mapped(t, o, q, Own(o, q))
  }

  predicate Mapped(t: Tables, o: Owners, q: nat, x: Owner)
    requires x.User?
  {
    x.vpn < NVPN && Own(o, x.root).Root? && Leaf(t, x.root, x.vpn).v && Leaf(t, x.root, x.vpn).ppn == q
  }

  /** The free list holds every free page exactly once. */
  ghost predicate FreeOk(free: seq<nat>, o: Owners) {
    && (forall p: nat :: p in free <==> Own(o, p).Free?)
    && (forall k, l :: 0 <= k < l < |free| ==> free[k] != free[l])
  }

  ghost predicate Tree(t: Tables, o: Owners) { Down(t, o) && Up(t, o) && UserOk(t, o) }

  ghost predicate Good(m: Mem) {
    Sizes(m.tables, m.bytes, m.own) && Tree(m.tables, m.own) && FreeOk(m.free, m.own)
  }

  lemma {:induction false} OwnAt(o: Owners, p: nat, x: Owner)
    ensures forall q: nat :: Own(o[p := x], q) == if q == p then x else Own(o, q)
  {
    forall q: nat ensures Own(o[p := x], q) == if q == p then x else Own(o, q) {
      if q != p { assert q in o[p := x] <==> q in o; }
    }
  }

  // ----- changing the owner of a page that is not a page table -----

  lemma {:induction false} Retag(t: Tables, o: Owners, p: nat, x: Owner)
    requires Tree(t, o) && !IsTable(Own(o, p)) && !IsTable(x) && (x.User? ==> Mapped(t, o, p, x))
    ensures Tree(t, o[p := x])
  {
    hide Leaf, Entry;
    var o' := o[p := x];
    assert forall q: nat :: Own(o', q) == if q == p then x else Own(o, q);
    RetagDown(t, o, p, x);
    RetagUp(t, o, p, x);
    hide Own, Down, Up;
    forall q: nat | Own(o', q).User? ensures Mapped(t, o', q, Own(o', q)) {
      assert q != p ==> Mapped(t, o, q, Own(o, q));
    }
  }

  lemma {:induction false} RetagDown(t: Tables, o: Owners, p: nat, x: Owner)
    requires Down(t, o) && !IsTable(Own(o, p)) && !IsTable(x)
    ensures Down(t, o[p := x])
  {
    hide Entry;
    assert forall q: nat :: Own(o[p := x], q) == if q == p then x else Own(o, q);
    hide Own;
  }

  lemma {:induction false} RetagUp(t: Tables, o: Owners, p: nat, x: Owner)
    requires Up(t, o) && !IsTable(Own(o, p)) && !IsTable(x)
    ensures Up(t, o[p := x])
  {
    hide Entry;
    var o' := o[p := x];
    assert forall q: nat :: Own(o', q) == if q == p then x else Own(o, q);
    hide Own;
    forall q: nat | Own(o', q).Mid? ensures UpMid(t, o', q, Own(o', q)) { assert UpMid(t, o, q, Own(o, q)); }
    forall q: nat | Own(o', q).Low? ensures UpLow(t, o', q, Own(o', q)) { assert UpLow(t, o, q, Own(o, q)); }
  }

  // ----- positions in the tree -----

  /** Where the walk from root r to page v goes: each page on the path owns its position. */
  lemma {:induction false} Path(t: Tables, o: Owners, r: nat, v: nat)
    requires Down(t, o) && Own(o, r).Root?
    ensures Entry(t, r, I2(v)).v ==> Own(o, Entry(t, r, I2(v)).ppn) == Mid(r, I2(v))
    ensures HasLow(t, r, v) ==> Own(o, LowPage(t, r, v)) == Low(r, I2(v), I1(v))
  {
    hide Entry, Own, I2, I1;
  }

  /** The walk of distinct pages, in the same or in different tables, ends in distinct slots. */
  lemma {:induction false} SlotsDistinct(t: Tables, o: Owners, r: nat, v: nat, r': nat, v': nat)
    requires Down(t, o) && Own(o, r).Root? && Own(o, r').Root? && v < NVPN && v' < NVPN
    requires HasLow(t, r, v) && HasLow(t, r', v') && (r != r' || v != v')
    ensures LowPage(t, r, v) != LowPage(t, r', v') || I0(v) != I0(v')
  {
    Path(t, o, r, v);
    Path(t, o, r', v');
    hide Down, Entry, Own, I2, I1, I0, HasLow, LowPage;
    if r == r' && I2(v) == I2(v') && I1(v) == I1(v') && I0(v) == I0(v') {
      IndicesInjective(v, v');
    }
  }

  // ----- storing one entry -----

  function SetEntry(t: Tables, p: nat, i: nat, e: Pte): Tables {
    if p in t && i < |t[p]| then t[p := t[p][i := e]] else t
  }

  lemma {:induction false} SetEntryAt(t: Tables, p: nat, i: nat, e: Pte)
    requires p in t && i < |t[p]|
    ensures forall q: nat, k: nat :: Entry(SetEntry(t, p, i, e), q, k) == if q == p && k == i then e else Entry(t, q, k)
  {
  }

  /** Store e in the slot of page vpn. */
  function SetLeaf(t: Tables, r: nat, vpn: nat, e: Pte): Tables {
    SetEntry(t, LowPage(t, r, vpn), I0(vpn), e)
  }

  ghost predicate SlotReady(t: Tables, o: Owners, r: nat, vpn: nat) {
    && Own(o, r).Root? && vpn < NVPN && HasLow(t, r, vpn)
    && LowPage(t, r, vpn) in t && |t[LowPage(t, r, vpn)]| == 512
  }

  /** Storing a leaf entry changes the translation of that page and of no other page of any table. */
  lemma {:induction false} SetLeafSpec(t: Tables, o: Owners, r: nat, vpn: nat, e: Pte, r': nat, v': nat)
    requires Down(t, o) && SlotReady(t, o, r, vpn) && Own(o, r').Root? && v' < NVPN
    ensures Leaf(SetLeaf(t, r, vpn, e), r', v') == if r' == r && v' == vpn then e else Leaf(t, r', v')
  {
    var q := LowPage(t, r, vpn);
    SetEntryAt(t, q, I0(vpn), e);
    Path(t, o, r, vpn);
    Path(t, o, r', v');
    if HasLow(t, r', v') && (r' != r || v' != vpn) { SlotsDistinct(t, o, r, vpn, r', v'); }
    hide Down, Entry, Own, I2, I1, I0, SetEntry;
    var t' := SetLeaf(t, r, vpn, e);
    assert q != r' && (Entry(t, r', I2(v')).v ==> q != Entry(t, r', I2(v')).ppn);
    assert HasLow(t', r', v') == HasLow(t, r', v');
    assert HasLow(t, r', v') ==> LowPage(t', r', v') == LowPage(t, r', v');
  }

  lemma {:induction false} SetLeafTree(t: Tables, o: Owners, r: nat, vpn: nat, e: Pte)
    requires Tree(t, o) && SlotReady(t, o, r, vpn) && (e.v ==> IsLeaf(e))
    requires forall q: nat :: Own(o, q) != User(r, vpn)
    ensures Tree(SetLeaf(t, r, vpn, e), o)
  {
    var q, t' := LowPage(t, r, vpn), SetLeaf(t, r, vpn, e);
    Path(t, o, r, vpn);
    SetEntryAt(t, q, I0(vpn), e);
    SetLeafDownUp(t, t', o, q, I0(vpn), e);
    hide Entry, Own, Leaf, Down, Up, I2, I1, I0, SetEntry, SetLeaf, LowPage, HasLow;
    forall u: nat | Own(o, u).User? ensures Mapped(t', o, u, Own(o, u)) {
      assert Mapped(t, o, u, Own(o, u));
      SetLeafSpec(t, o, r, vpn, e, Own(o, u).root, Own(o, u).vpn);
    }
  }

  lemma {:induction false} SetLeafDownUp(t: Tables, t': Tables, o: Owners, q: nat, k: nat, e: Pte)
    requires Down(t, o) && Up(t, o) && Own(o, q).Low? && (e.v ==> IsLeaf(e))
    requires forall p: nat, i: nat :: Entry(t', p, i) == if p == q && i == k then e else Entry(t, p, i)
    ensures Down(t', o) && Up(t', o)
  {
    hide Entry, Own;
    forall u: nat | Own(o, u).Mid? ensures UpMid(t', o, u, Own(o, u)) { assert UpMid(t, o, u, Own(o, u)); }
    forall u: nat | Own(o, u).Low? ensures UpLow(t', o, u, Own(o, u)) { assert UpLow(t, o, u, Own(o, u)); }
  }

  // ----- adding a page-table page -----

  function Zeros(): (z: seq<Pte>)
    ensures |z| == 512 && forall k :: 0 <= k < 512 ==> z[k] == INVALID
  {
    seq(512, i => INVALID)
  }

  /** Page p, zeroed, becomes the table below entry i of page q. */
  function AddTable(t: Tables, q: nat, i: nat, p: nat): Tables {
    SetEntry(t[p := Zeros()], q, i, Pointer(p))
  }

  lemma {:induction false} AddTableAt(t: Tables, q: nat, i: nat, p: nat)
    requires q in t && i < |t[q]| && p != q && p !in t
    ensures forall u: nat, k: nat ::
        Entry(AddTable(t, q, i, p), u, k) == if u == q && k == i then Pointer(p) else Entry(t, u, k)
  {
    SetEntryAt(t[p := Zeros()], q, i, Pointer(p));
    assert forall u: nat, k: nat :: Entry(t[p := Zeros()], u, k) == Entry(t, u, k);
    hide SetEntry, Entry;
  }

  /** Entries change only at (q, i), from invalid to a pointer to the new page p owned by x. */
  ghost predicate Added(t: Tables, o: Owners, t': Tables, o': Owners, q: nat, i: nat, p: nat, x: Owner) {
    && (forall u: nat, k: nat :: Entry(t', u, k) == if u == q && k == i then Pointer(p) else Entry(t, u, k))
    && (forall u: nat :: Own(o', u) == if u == p then x else Own(o, u))
    && !Entry(t, q, i).v && !IsTable(Own(o, p)) && !Own(o, p).User? && p != q && i < 512
    && (forall k: nat :: Entry(t, p, k) == INVALID)
    && ((Own(o, q).Root? && x == Mid(q, i) && i < 256) || (Own(o, q).Mid? && x == Low(Own(o, q).root, Own(o, q).i, i)))
  }

  lemma {:induction false} AddedDown(t: Tables, o: Owners, t': Tables, o': Owners, q: nat, i: nat, p: nat, x: Owner)
    requires Down(t, o) && Added(t, o, t', o', q, i, p, x)
    ensures Down(t', o')
  {
    hide Entry, Own;
  }

  lemma {:induction false} AddedUp(t: Tables, o: Owners, t': Tables, o': Owners, q: nat, i: nat, p: nat, x: Owner)
    requires Down(t, o) && Up(t, o) && Added(t, o, t', o', q, i, p, x)
    ensures Up(t', o')
  {
    hide Entry, Own;
    assert Own(o, q).Mid? ==> UpMid(t, o, q, Own(o, q));
    forall u: nat | Own(o', u).Mid? ensures UpMid(t', o', u, Own(o', u)) {
      assert u != p ==> UpMid(t, o, u, Own(o, u));
    }
    forall u: nat | Own(o', u).Low? ensures UpLow(t', o', u, Own(o', u)) {
      assert u != p ==> UpLow(t, o, u, Own(o, u));
    }
  }

  /** A new page-table page is empty, so it changes no translation. */
  lemma {:induction false} AddedLeaf(t: Tables, o: Owners, t': Tables, o': Owners, q: nat, i: nat, p: nat,
        x: Owner, r: nat, v: nat)
    requires Down(t, o) && Added(t, o, t', o', q, i, p, x) && Own(o, r).Root?
    ensures Leaf(t', r, v) == Leaf(t, r, v)
  {
    Path(t, o, r, v);
    hide Entry, Own, I2, I1, I0;
    var a := Entry(t, r, I2(v));
    if q == r && i == I2(v) {
      assert !HasLow(t, r, v) && !HasLow(t', r, v);
    } else {
      assert Entry(t', r, I2(v)) == a;
    }
  }

  lemma {:induction false} AddedTree(t: Tables, o: Owners, t': Tables, o': Owners, q: nat, i: nat, p: nat, x: Owner)
    requires Tree(t, o) && Added(t, o, t', o', q, i, p, x)
    ensures Tree(t', o')
    ensures forall r: nat, v: nat :: Own(o, r).Root? ==> Leaf(t', r, v) == Leaf(t, r, v)
  {
    AddedDown(t, o, t', o', q, i, p, x);
    AddedUp(t, o, t', o', q, i, p, x);
    forall r: nat, v: nat | Own(o, r).Root? ensures Leaf(t', r, v) == Leaf(t, r, v) {
      AddedLeaf(t, o, t', o', q, i, p, x, r, v);
    }
    hide Entry, Own, Leaf, Down, Up;
    forall u: nat | Own(o', u).User? ensures Mapped(t', o', u, Own(o', u)) {
      assert Mapped(t, o, u, Own(o, u));
    }
  }

  // ----- the allocator, on values -----

  function Fill(b: nat): (f: seq<nat>)
    ensures |f| == PGSIZE
  {
    seq(PGSIZE, i => b)
  }

  /** kalloc takes the head of the free list and fills the page with junk. */
  function Alloc(m: Mem): Mem
    requires m.free != []
  {
    var p := m.free[0];
    m.(free := m.free[1..], own := m.own[p := Kernel], bytes := m.bytes[p := Fill(5)])
  }

  /** kfree fills the page with junk and puts it at the head of the free list. */
  function Release(m: Mem, p: nat): Mem {
    Mem(m.tables - {p}, m.bytes[p := Fill(1)], [p] + m.free, m.own[p := Free])
  }

  lemma {:induction false} AllocGood(m: Mem)
    requires Good(m) && m.free != []
    ensures Good(Alloc(m)) && Own(m.own, m.free[0]).Free?
  {
    var p := m.free[0];
    assert p in m.free;
    Retag(m.tables, m.own, p, Kernel);
    hide Tree, Leaf;
    assert FreeOk(Alloc(m).free, Alloc(m).own) by { AllocFree(m.free, m.own); }
  }

  lemma {:induction false} AllocFree(free: seq<nat>, o: Owners)
    requires FreeOk(free, o) && free != []
    ensures FreeOk(free[1..], o[free[0] := Kernel])
  {
    assert free == [free[0]] + free[1..];
    assert forall p: nat :: p in free <==> p == free[0] || p in free[1..];
  }

  lemma {:induction false} ReleaseFree(free: seq<nat>, o: Owners, p: nat)
    requires FreeOk(free, o) && !Own(o, p).Free?
    ensures FreeOk([p] + free, o[p := Free])
  {
    assert p !in free;
  }

  lemma {:induction false} ReleaseGood(m: Mem, p: nat)
    requires Good(m) && p in m.own && !Own(m.own, p).Free? && !IsTable(Own(m.own, p))
    ensures Good(Release(m, p)) && Release(m, p).tables == m.tables
  {
    assert p !in m.tables;
    assert m.tables - {p} == m.tables;
    Retag(m.tables, m.own, p, Free);
    ReleaseFree(m.free, m.own, p);
    hide Tree, FreeOk;
  }

  // ----- frames -----

  predicate TableOf(x: Owner, r: nat) { (x.Mid? || x.Low?) && x.root == r }

  /** Between m and m' some free pages have become page-table pages of r; nothing else changed hands or contents. */
  ghost predicate OnlyTables(m: Mem, m': Mem, r: nat) {
    && (forall p: nat :: Own(m'.own, p) == Own(m.own, p) || (Own(m.own, p).Free? && TableOf(Own(m'.own, p), r)))
    && (forall p :: p in m.bytes && !Own(m.own, p).Free? ==> p in m'.bytes && m'.bytes[p] == m.bytes[p])
    && m'.own.Keys == m.own.Keys
  }

  ghost predicate SameLeaves(t: Tables, t': Tables, o: Owners) {
    forall r: nat, v: nat :: Own(o, r).Root? && v < NVPN ==> Leaf(t', r, v) == Leaf(t, r, v)
  }

  /** A page fresh from kalloc, zeroed, becomes the table below entry i of page q. */
  function NewTable(m: Mem, q: nat, i: nat, x: Owner): Mem
    requires m.free != []
  {
    var p := m.free[0];
    Mem(AddTable(m.tables, q, i, p), m.bytes[p := Fill(0)], m.free[1..], m.own[p := x])
  }

  lemma {:induction false} NewTableGood(m: Mem, q: nat, i: nat, x: Owner)
    requires Good(m) && m.free != [] && i < 512 && !Entry(m.tables, q, i).v
    requires (Own(m.own, q).Root? && x == Mid(q, i) && i < 256) ||
      (Own(m.own, q).Mid? && x == Low(Own(m.own, q).root, Own(m.own, q).i, i))
    ensures var m' := NewTable(m, q, i, x);
      && Good(m') && OnlyTables(m, m', x.root) && SameLeaves(m.tables, m'.tables, m.own)
      && Entry(m'.tables, q, i) == Pointer(m.free[0]) && Own(m'.own, m.free[0]) == x
      && forall u: nat, k: nat :: (u != q || k != i) ==> Entry(m'.tables, u, k) == Entry(m.tables, u, k)
  {
    var p, m' := m.free[0], NewTable(m, q, i, x);
    assert p in m.free && Own(m.own, p).Free? && p in m.own;
    AddTableAt(m.tables, q, i, p);
    hide Leaf, Down, Up, UserOk;
    assert forall u: nat :: Own(m'.own, u) == if u == p then x else Own(m.own, u);
    assert forall k: nat :: Entry(m.tables, p, k) == INVALID;
    AddedTree(m.tables, m.own, m'.tables, m'.own, q, i, p, x);
    hide Tree;
    NewTableSizes(m, q, i, x);
    AllocFree(m.free, m.own);
    NewTableFree(m.free, m.own, x);
    hide FreeOk, Sizes;
  }

  lemma {:induction false} NewTableFree(free: seq<nat>, o: Owners, x: Owner)
    requires free != [] && FreeOk(free[1..], o[free[0] := Kernel]) && !x.Free?
    ensures FreeOk(free[1..], o[free[0] := x])
  {
    var p := free[0];
    OwnAt(o, p, x);
    OwnAt(o, p, Kernel);
    hide Own;
  }

  lemma {:induction false} NewTableSizes(m: Mem, q: nat, i: nat, x: Owner)
    requires Sizes(m.tables, m.bytes, m.own) && m.free != [] && m.free[0] in m.own
    requires q in m.tables && i < 512 && q != m.free[0] && IsTable(x)
    ensures var m' := NewTable(m, q, i, x); Sizes(m'.tables, m'.bytes, m'.own)
  {
    var p, m' := m.free[0], NewTable(m, q, i, x);
    assert forall u: nat :: u in m'.tables <==> u == p || u in m.tables;
    assert forall u: nat :: Own(m'.own, u) == if u == p then x else Own(m.own, u);
    assert forall u :: u in m'.tables ==> |m'.tables[u]| == 512;
  }

  lemma {:induction false} OnlyTablesTrans(a: Mem, b: Mem, c: Mem, r: nat)
    requires OnlyTables(a, b, r) && OnlyTables(b, c, r)
    ensures OnlyTables(a, c, r)
  {
    forall p: nat ensures Own(c.own, p) == Own(a.own, p) || (Own(a.own, p).Free? && TableOf(Own(c.own, p), r)) {
      assert Own(b.own, p) == Own(a.own, p) || (Own(a.own, p).Free? && TableOf(Own(b.own, p), r));
    }
    hide Own, TableOf;
  }

  lemma {:induction false} SameLeavesTrans(a: Mem, b: Mem, c: Mem, r: nat)
    requires OnlyTables(a, b, r) && SameLeaves(a.tables, b.tables, a.own) && SameLeaves(b.tables, c.tables, b.own)
    ensures SameLeaves(a.tables, c.tables, a.own)
  {
    hide Own, Leaf, TableOf;
    forall q: nat, v: nat | Own(a.own, q).Root? && v < NVPN ensures Leaf(c.tables, q, v) == Leaf(a.tables, q, v) {
      assert Own(b.own, q) == Own(a.own, q);
      assert Leaf(b.tables, q, v) == Leaf(a.tables, q, v);
    }
  }

  // ----- effects on translations -----

  /** Every table translates as before, but for page vpn of table r, which translates as e. */
  ghost predicate LeafSet(t: Tables, t': Tables, o: Owners, r: nat, vpn: nat, e: Pte) {
    forall q: nat, v: nat :: Own(o, q).Root? && v < NVPN ==>
      Leaf(t', q, v) == if q == r && v == vpn then e else Leaf(t, q, v)
  }

  /** Pages first..k-1 of table r translate to consecutive pages from ppn, all else is as before. */
  ghost predicate MapsRange(t: Tables, t': Tables, o: Owners, r: nat, first: nat, k: nat, ppn: nat, perm: Perm) {
    forall q: nat, v: nat :: Own(o, q).Root? && v < NVPN ==>
      Leaf(t', q, v) == if q == r && first <= v < k then Pte(true, ppn + (v - first), perm) else Leaf(t, q, v)
  }

  lemma {:induction false} SetLeafGood(m: Mem, r: nat, vpn: nat, e: Pte)
    requires Good(m) && SlotReady(m.tables, m.own, r, vpn) && (e.v ==> IsLeaf(e))
    requires forall q: nat :: Own(m.own, q) != User(r, vpn)
    ensures Good(m.(tables := SetLeaf(m.tables, r, vpn, e)))
    ensures LeafSet(m.tables, SetLeaf(m.tables, r, vpn, e), m.own, r, vpn, e)
  {
    hide FreeOk, Leaf, HasLow, LowPage, I0;
    SetLeafTree(m.tables, m.own, r, vpn, e);
    SetEntrySizes(m, LowPage(m.tables, r, vpn), I0(vpn), e);
    forall q: nat, v: nat | Own(m.own, q).Root? && v < NVPN
      ensures Leaf(SetLeaf(m.tables, r, vpn, e), q, v) == if q == r && v == vpn then e else Leaf(m.tables, q, v)
    {
      SetLeafSpec(m.tables, m.own, r, vpn, e, q, v);
    }
    hide Tree, Sizes, Own;
  }

  lemma {:induction false} SetEntrySizes(m: Mem, p: nat, i: nat, e: Pte)
    requires Sizes(m.tables, m.bytes, m.own)
    ensures Sizes(SetEntry(m.tables, p, i, e), m.bytes, m.own)
  {
    hide Own;
    var t' := SetEntry(m.tables, p, i, e);
    assert forall u: nat :: u in t' <==> u in m.tables;
  }

  /** No user page is owned by a page of the table that is not mapped. */
  lemma {:induction false} UnmappedUnowned(t: Tables, o: Owners, r: nat, vpn: nat)
    requires UserOk(t, o) && !Leaf(t, r, vpn).v
    ensures forall q: nat :: Own(o, q) != User(r, vpn)
  {
    hide Own, Leaf;
    forall q: nat ensures Own(o, q) != User(r, vpn) {
      assert Own(o, q).User? ==> Mapped(t, o, q, Own(o, q));
    }
  }

  lemma {:induction false} PathReady(m: Mem, r: nat, vpn: nat)
    requires Good(m) && Own(m.own, r).Root? && vpn < NVPN && HasLow(m.tables, r, vpn)
    ensures SlotReady(m.tables, m.own, r, vpn) && Own(m.own, LowPage(m.tables, r, vpn)).Low?
  {
    Path(m.tables, m.own, r, vpn);
    hide Tree, FreeOk, HasLow, LowPage, Own;
  }

  /** walk made room, then one more entry was stored. */
  lemma {:induction false} MapStep(m: Mem, m1: Mem, m2: Mem, t3: Tables, r: nat, first: nat, a: nat, ppn: nat,
        perm: Perm)
    requires MapsRange(m.tables, m1.tables, m.own, r, first, a, ppn, perm)
    requires OnlyTables(m, m1, r) && OnlyTables(m1, m2, r)
    requires SameLeaves(m1.tables, m2.tables, m1.own) && first <= a && Own(m.own, r).Root?
    requires LeafSet(m2.tables, t3, m2.own, r, a, Pte(true, ppn + (a - first), perm))
    ensures MapsRange(m.tables, t3, m.own, r, first, a + 1, ppn, perm)
  {
    hide Leaf, Own, TableOf;
    forall q: nat, v: nat | Own(m.own, q).Root? && v < NVPN
      ensures Leaf(t3, q, v) == if q == r && first <= v < a + 1 then Pte(true, ppn + (v - first), perm)
        else Leaf(m.tables, q, v)
    {
      assert Own(m1.own, q) == Own(m.own, q) && Own(m2.own, q) == Own(m1.own, q);
      assert Leaf(m2.tables, q, v) == Leaf(m1.tables, q, v);
    }
  }

  predicate InRange(x: Owner, r: nat, first: nat, end: nat) {
    x.User? && x.root == r && first <= x.vpn < end
  }

  /** Pages first..end-1 of table r have been unmapped and the user pages they owned freed; all else is as before. */
  ghost predicate Unmapped(m: Mem, m': Mem, r: nat, first: nat, end: nat) {
    && (forall q: nat, v: nat :: Own(m.own, q).Root? && v < NVPN ==>
          Leaf(m'.tables, q, v) == if q == r && first <= v < end then INVALID else Leaf(m.tables, q, v))
    && (forall p: nat :: Own(m'.own, p) == if InRange(Own(m.own, p), r, first, end) then Free else Own(m.own, p))
    && (forall p :: p in m.bytes && !InRange(Own(m.own, p), r, first, end) ==>
          p in m'.bytes && m'.bytes[p] == m.bytes[p])
    && m'.own.Keys == m.own.Keys
  }

  lemma {:induction false} UnmappedNone(m: Mem, r: nat, first: nat)
    ensures Unmapped(m, m, r, first, first)
  {
    hide Leaf, Own;
  }

  lemma {:induction false} UnmappedTrans(m: Mem, m1: Mem, m2: Mem, r: nat, first: nat, a: nat, end: nat)
    requires first <= a <= end && Unmapped(m, m1, r, first, a) && Unmapped(m1, m2, r, a, end)
    ensures Unmapped(m, m2, r, first, end)
  {
    hide Leaf, Own;
    forall p: nat ensures Own(m2.own, p) == if InRange(Own(m.own, p), r, first, end) then Free else Own(m.own, p) {
      assert Own(m1.own, p) == if InRange(Own(m.own, p), r, first, a) then Free else Own(m.own, p);
    }
    forall q: nat, v: nat | Own(m.own, q).Root? && v < NVPN
      ensures Leaf(m2.tables, q, v) == if q == r && first <= v < end then INVALID else Leaf(m.tables, q, v)
    {
      assert Own(m1.own, q) == Own(m.own, q);
      assert Leaf(m1.tables, q, v) == if q == r && first <= v < a then INVALID else Leaf(m.tables, q, v);
    }
    forall p | p in m.bytes && !InRange(Own(m.own, p), r, first, end)
      ensures p in m2.bytes && m2.bytes[p] == m.bytes[p]
    {
      assert Own(m1.own, p) == Own(m.own, p);
    }
  }

  /** Unmapping one page: free its user page if it has one, then clear the entry. */
  lemma {:induction false} UnmapOneSpec(m: Mem, m1: Mem, t2: Tables, r: nat, vpn: nat)
    requires Good(m) && Own(m.own, r).Root?
    requires m1 == m || (Own(m.own, Leaf(m.tables, r, vpn).ppn) == User(r, vpn) &&
      m1 == Release(m, Leaf(m.tables, r, vpn).ppn))
    requires m1 == m ==> forall p: nat :: Own(m.own, p) != User(r, vpn)
    requires m1.tables == m.tables && LeafSet(m1.tables, t2, m1.own, r, vpn, INVALID)
    ensures Unmapped(m, m1.(tables := t2), r, vpn, vpn + 1)
  {
    var m2 := m1.(tables := t2);
    hide Leaf, HasLow, Sizes, Down, Up;
    var p := Leaf(m.tables, r, vpn).ppn;
    if m1 != m {
      OwnAt(m.own, p, Free);
      assert p in m.own;
      hide Own;
      forall q: nat ensures Own(m2.own, q) == if InRange(Own(m.own, q), r, vpn, vpn + 1) then Free else Own(m.own, q) {
        assert Own(m.own, q).User? ==> Mapped(m.tables, m.own, q, Own(m.own, q));
      }
    } else {
      hide Own;
      forall q: nat ensures !InRange(Own(m.own, q), r, vpn, vpn + 1) {
        assert Own(m.own, q) != User(r, vpn);
      }
    }
  }

  // ----- growing an address space -----

  /** What a user page is to contain. */
  datatype Image = Image(perm: Perm, data: seq<nat>)

  /** PGROUNDUP(sz) / PGSIZE */
  function PagesOf(sz: nat): nat { (sz + PGSIZE - 1) / PGSIZE }

  /** Page v of table r has its own user page, free in m, with the wanted permissions and contents. */
  predicate HasPage(m: Mem, m': Mem, r: nat, v: nat, want: Image) {
    var e := Leaf(m'.tables, r, v);
    && e == Pte(true, e.ppn, want.perm) && Own(m'.own, e.ppn) == User(r, v)
    && Own(m.own, e.ppn).Free? && e.ppn in m'.bytes && m'.bytes[e.ppn] == want.data
  }

  /** Some free pages have become page-table pages of r or user pages first..end-1 of r; no other page changed hands. */
  ghost predicate Taken(o: Owners, o': Owners, r: nat, first: nat, end: nat) {
    forall p: nat ::
      Own(o', p) == Own(o, p) || (Own(o, p).Free? && (TableOf(Own(o', p), r) || InRange(Own(o', p), r, first, end)))
  }

  /**
   Pages first, first + 1, ... of table r have been given new user pages as wanted; free
   pages may have become tables of r.
   */
  ghost predicate Grown(m: Mem, m': Mem, r: nat, first: nat, want: seq<Image>) {
    && (forall i :: 0 <= i < |want| ==> HasPage(m, m', r, first + i, want[i]))
    && (forall q: nat, v: nat :: Own(m.own, q).Root? && v < NVPN && !(q == r && first <= v < first + |want|) ==>
          Leaf(m'.tables, q, v) == Leaf(m.tables, q, v))
    && Taken(m.own, m'.own, r, first, first + |want|)
    && (forall p :: p in m.bytes && !Own(m.own, p).Free? ==> p in m'.bytes && m'.bytes[p] == m.bytes[p])
    && m'.own.Keys == m.own.Keys
  }

  lemma {:induction false} GrownNone(m: Mem, r: nat, first: nat)
    ensures Grown(m, m, r, first, [])
  {
    hide Leaf, Own;
  }

  /** A user page fresh from kalloc, filled with data, is mapped at page a and handed over to the table. */
  lemma {:induction false} GrowStep(m: Mem, m1: Mem, m2: Mem, m3: Mem, r: nat, first: nat, want: seq<Image>,
        img: Image, p: nat)
    requires Grown(m, m1, r, first, want) && Own(m.own, r).Root? && first + |want| < NVPN
    requires Own(m1.own, p).Free? && p in m1.own && p in m3.bytes && m3.bytes[p] == img.data
    requires m2.own == m1.own[p := Kernel] && m2.tables == m1.tables && OnlyTables(m2, m3, r)
    requires forall q :: q in m1.bytes && q != p ==> q in m2.bytes && m2.bytes[q] == m1.bytes[q]
    requires MapsRange(m2.tables, m3.tables, m2.own, r, first + |want|, first + |want| + 1, p, img.perm)
    ensures Grown(m, m3.(own := m3.own[p := User(r, first + |want|)]), r, first, want + [img])
  {
    var a := first + |want|;
    var o2, o4 := m1.own[p := Kernel], m3.own[p := User(r, a)];
    var m4 := m3.(own := o4);
    OwnAt(m1.own, p, Kernel);
    OwnAt(m3.own, p, User(r, a));
    hide Leaf, Own;
    assert Own(m.own, p).Free?;
    assert forall q: nat ::
      q != p ==> Own(m3.own, q) == Own(m1.own, q) || (Own(m1.own, q).Free? && TableOf(Own(m3.own, q), r));
    GrowOwn(m, m1, m3, m4, r, first, want, p);
    forall q: nat, v: nat | Own(m.own, q).Root? && v < NVPN && !(q == r && first <= v < a + 1)
      ensures Leaf(m4.tables, q, v) == Leaf(m.tables, q, v)
    {
      assert Own(o2, q).Root?;
      assert Leaf(m3.tables, q, v) == Leaf(m1.tables, q, v);
    }
    forall i | 0 <= i < |want| + 1 ensures HasPage(m, m4, r, first + i, (want + [img])[i]) {
      assert Own(o2, r).Root?;
      if i < |want| {
        assert HasPage(m, m1, r, first + i, want[i]);
        var e := Leaf(m1.tables, r, first + i);
        assert Leaf(m3.tables, r, first + i) == e && e.ppn != p;
        assert Own(o2, e.ppn).User?;
      }
    }
    assert p in m3.own;
    assert m4.own.Keys == m.own.Keys;
    assert forall q :: q in m.bytes && !Own(m.own, q).Free? ==> q in m4.bytes && m4.bytes[q] == m.bytes[q] by {
      forall q | q in m.bytes && !Own(m.own, q).Free? ensures q in m4.bytes && m4.bytes[q] == m.bytes[q] {
        assert Own(m1.own, q) == Own(m.own, q) && q != p;
        assert Own(o2, q) == Own(m1.own, q) && q in m1.bytes && q in m2.bytes;
      }
    }
  }

  lemma {:induction false} GrowOwn(m: Mem, m1: Mem, m3: Mem, m4: Mem, r: nat, first: nat, want: seq<Image>, p: nat)
    requires Taken(m.own, m1.own, r, first, first + |want|)
    requires forall q: nat ::
      q != p ==> Own(m3.own, q) == Own(m1.own, q) || (Own(m1.own, q).Free? && TableOf(Own(m3.own, q), r))
    requires forall q: nat :: Own(m4.own, q) == if q == p then User(r, first + |want|) else Own(m3.own, q)
    requires Own(m.own, p).Free?
    ensures Taken(m.own, m4.own, r, first, first + |want| + 1)
  {
    hide Own;
    forall q: nat ensures Own(m4.own, q) == Own(m.own, q)
          || (Own(m.own, q).Free? &&
            (TableOf(Own(m4.own, q), r) || InRange(Own(m4.own, q), r, first, first + |want| + 1)))
    {
      assert q != p ==> Own(m3.own, q) == Own(m1.own, q) || (Own(m1.own, q).Free? && TableOf(Own(m3.own, q), r));
    }
  }

  /** Unmapping what was grown restores every translation and every page, but for new page-table pages of r. */
  lemma {:induction false} Rollback(m: Mem, m1: Mem, m2: Mem, r: nat, first: nat, want: seq<Image>)
    requires Good(m) && Grown(m, m1, r, first, want) && Unmapped(m1, m2, r, first, first + |want|)
    requires forall v :: first <= v < first + |want| ==> Leaf(m.tables, r, v) == INVALID
    ensures OnlyTables(m, m2, r) && SameLeaves(m.tables, m2.tables, m.own)
  {
    hide Leaf, Own, Sizes, Down, Up, FreeOk;
    assert UserOk(m.tables, m.own);
    forall p: nat ensures Own(m2.own, p) == Own(m.own, p) || (Own(m.own, p).Free? && TableOf(Own(m2.own, p), r)) {
      assert Own(m.own, p).User? ==> Mapped(m.tables, m.own, p, Own(m.own, p));
      assert Own(m1.own, p) == Own(m.own, p)
          || (Own(m.own, p).Free? && (TableOf(Own(m1.own, p), r) || InRange(Own(m1.own, p), r, first, first + |want|)));
      assert Own(m2.own, p) == if InRange(Own(m1.own, p), r, first, first + |want|) then Free else Own(m1.own, p);
    }
    forall q: nat, v: nat | Own(m.own, q).Root? && v < NVPN ensures Leaf(m2.tables, q, v) == Leaf(m.tables, q, v) {
      assert Own(m1.own, q) == Own(m.own, q);
    }
    forall p | p in m.bytes && !Own(m.own, p).Free? ensures p in m2.bytes && m2.bytes[p] == m.bytes[p] {
      assert Own(m1.own, p) == Own(m.own, p);
      assert Own(m.own, p).User? ==> Mapped(m.tables, m.own, p, Own(m.own, p));
    }
  }

  /** Handing a kernel page over to the page of the table that maps it. */
  lemma {:induction false} HandOver(m: Mem, p: nat, r: nat, vpn: nat)
    requires Good(m) && Own(m.own, p).Kernel? && Own(m.own, r).Root? && vpn < NVPN
    requires Leaf(m.tables, r, vpn).v && Leaf(m.tables, r, vpn).ppn == p
    ensures Good(m.(own := m.own[p := User(r, vpn)]))
  {
    Retag(m.tables, m.own, p, User(r, vpn));
    OwnAt(m.own, p, User(r, vpn));
    hide Leaf, Tree;
    assert p in m.own;
    RetagFree(m.free, m.own, p, User(r, vpn));
    hide FreeOk;
    assert forall q: nat :: q in m.own[p := User(r, vpn)] <==> q in m.own;
    hide Own;
  }

  lemma {:induction false} RetagFree(free: seq<nat>, o: Owners, p: nat, x: Owner)
    requires FreeOk(free, o) && !Own(o, p).Free? && !x.Free?
    ensures FreeOk(free, o[p := x])
  {
    OwnAt(o, p, x);
    hide Own;
  }

  /** A page fresh from kalloc, zeroed, becomes the root of an empty page table. */
  lemma {:induction false} NewRootGood(m: Mem)
    requires Good(m) && m.free != []
    ensures var p := m.free[0];
      var m' := Mem(m.tables[p := Zeros()], m.bytes[p := Fill(0)], m.free[1..], m.own[p := Root]);
      && Good(m') && Own(m.own, p).Free?
      && (forall v: nat :: Leaf(m'.tables, p, v) == INVALID) && SameLeaves(m.tables, m'.tables, m.own)
  {
    var p := m.free[0];
    var t', o' := m.tables[p := Zeros()], m.own[p := Root];
    assert p in m.free && Own(m.own, p).Free? && p in m.own && p !in m.tables;
    OwnAt(m.own, p, Root);
    assert forall u: nat, k: nat :: Entry(t', u, k) == Entry(m.tables, u, k);
    assert forall k: nat :: Entry(t', p, k) == INVALID;
    assert forall u: nat :: u in t' <==> u == p || u in m.tables;
    assert Sizes(t', m.bytes[p := Fill(0)], o') by { hide Tree, FreeOk, Entry; }
    AllocFree(m.free, m.own);
    NewTableFree(m.free, m.own, Root);
    hide FreeOk, Sizes, Own, Entry;
    NewRootTree(m.tables, m.own, t', o', p);
    hide Tree;
  }

  lemma {:induction false} NewRootTree(t: Tables, o: Owners, t': Tables, o': Owners, p: nat)
    requires Tree(t, o) && Own(o, p).Free?
    requires forall u: nat, k: nat :: Entry(t', u, k) == Entry(t, u, k)
    requires forall k: nat :: Entry(t, p, k) == INVALID
    requires forall u: nat :: Own(o', u) == if u == p then Root else Own(o, u)
    ensures Tree(t', o') && SameLeaves(t, t', o) && forall v: nat :: Leaf(t', p, v) == INVALID
  {
    hide Entry, Own, I2, I1, I0;
    assert forall r: nat, v: nat :: Leaf(t', r, v) == Leaf(t, r, v);
    assert Down(t', o');
    forall u: nat | Own(o', u).Mid? ensures UpMid(t', o', u, Own(o', u)) { assert UpMid(t, o, u, Own(o, u)); }
    forall u: nat | Own(o', u).Low? ensures UpLow(t', o', u, Own(o', u)) { assert UpLow(t, o, u, Own(o, u)); }
    forall u: nat | Own(o', u).User? ensures Mapped(t', o', u, Own(o', u)) { assert Mapped(t, o, u, Own(o, u)); }
  }

  /** Making page tables for r does not disturb what was grown. */
  lemma {:induction false} GrownKept(m: Mem, m1: Mem, m2: Mem, r: nat, first: nat, want: seq<Image>)
    requires Grown(m, m1, r, first, want) && OnlyTables(m1, m2, r) && SameLeaves(m1.tables, m2.tables, m1.own)
    requires Own(m.own, r).Root? && first + |want| <= NVPN
    ensures Grown(m, m2, r, first, want)
  {
    hide Leaf, Own;
    assert Own(m1.own, r).Root?;
    forall i | 0 <= i < |want| ensures HasPage(m, m2, r, first + i, want[i]) {
      assert HasPage(m, m1, r, first + i, want[i]);
      assert Leaf(m2.tables, r, first + i) == Leaf(m1.tables, r, first + i);
    }
    forall q: nat, v: nat | Own(m.own, q).Root? && v < NVPN && !(q == r && first <= v < first + |want|)
      ensures Leaf(m2.tables, q, v) == Leaf(m.tables, q, v)
    {
      assert Own(m1.own, q) == Own(m.own, q);
      assert Leaf(m2.tables, q, v) == Leaf(m1.tables, q, v);
    }
    forall p: nat ensures Own(m2.own, p) == Own(m.own, p)
      || (Own(m.own, p).Free? && (TableOf(Own(m2.own, p), r) || InRange(Own(m2.own, p), r, first, first + |want|))) {
      assert Own(m2.own, p) == Own(m1.own, p) || (Own(m1.own, p).Free? && TableOf(Own(m2.own, p), r));
    }
    forall p | p in m.bytes && !Own(m.own, p).Free? ensures p in m2.bytes && m2.bytes[p] == m.bytes[p] {
      assert Own(m1.own, p) == Own(m.own, p) && p in m1.bytes;
    }
  }

  /** The pages that were grown can be unmapped and freed. */
  lemma {:induction false} GrownUnmappable(m: Mem, m1: Mem, r: nat, first: nat, want: seq<Image>)
    requires Grown(m, m1, r, first, want) && Own(m.own, r).Root?
    requires forall i :: 0 <= i < |want| ==> want[i].perm.r || want[i].perm.w || want[i].perm.x
    ensures Own(m1.own, r).Root?
    ensures forall v :: first <= v < first + |want| ==>
      IsLeaf(Leaf(m1.tables, r, v)) && Own(m1.own, Leaf(m1.tables, r, v).ppn) == User(r, v)
  {
    hide Leaf, Own;
    forall v | first <= v < first + |want|
      ensures IsLeaf(Leaf(m1.tables, r, v)) && Own(m1.own, Leaf(m1.tables, r, v).ppn) == User(r, v)
    {
      assert HasPage(m, m1, r, first + (v - first), want[v - first]);
    }
  }

  /** The next page to grow is still unmapped. */
  lemma {:induction false} GrownNext(m: Mem, m1: Mem, r: nat, first: nat, want: seq<Image>)
    requires Grown(m, m1, r, first, want) && Own(m.own, r).Root? && first + |want| < NVPN
    ensures Own(m1.own, r).Root? && Leaf(m1.tables, r, first + |want|) == Leaf(m.tables, r, first + |want|)
  {
    hide Leaf, Own;
  }

  /** Other tables and their user pages are not touched by growing r. */
  lemma {:induction false} GrownOther(m: Mem, m1: Mem, r: nat, first: nat, want: seq<Image>, q: nat, v: nat)
    requires Grown(m, m1, r, first, want) && Own(m.own, q).Root? && q != r && v < NVPN
    requires Own(m.own, Leaf(m.tables, q, v).ppn) == User(q, v) && Leaf(m.tables, q, v).ppn in m.bytes
    ensures var e := Leaf(m.tables, q, v);
      Leaf(m1.tables, q, v) == e && Own(m1.own, q).Root? && e.ppn in m1.bytes && m1.bytes[e.ppn] == m.bytes[e.ppn]
  {
    hide Leaf, Own;
  }

  // ----- freeing a page table -----

  /** Owner of the page below entry i of page p, which is owned by x. */
  function Child(x: Owner, p: nat, i: nat): Owner
    requires x.Root? || x.Mid?
  {
    if x.Root? then Mid(p, i) else Low(x.root, x.i, i)
  }

  /** y is the owner of a page below one of the first n entries of page p, which is owned by x. */
  predicate Below(y: Owner, x: Owner, p: nat, n: nat) {
    match x
    case Root => (y.Mid? || y.Low?) && y.root == p && y.i < n
    case Mid(r, i) => y.Low? && y.root == r && y.i == i && y.j < n
    case _ => false
  }

  /** Page q is p itself or belongs to the subtree below p. */
  predicate InSubtree(y: Owner, q: nat, x: Owner, p: nat) { q == p || Below(y, x, p, 512) }

  /** The subtree of p has been freed; every other page keeps its owner, entries and bytes. */
  ghost predicate Freed(m: Mem, m': Mem, x: Owner, p: nat) {
    && (forall q: nat :: Own(m'.own, q) == if InSubtree(Own(m.own, q), q, x, p) then Free else Own(m.own, q))
    && (forall q: nat :: q in m'.tables <==> q in m.tables && !InSubtree(Own(m.own, q), q, x, p))
    && (forall q :: q in m'.tables ==> m'.tables[q] == m.tables[q])
    && (forall q :: q in m.bytes && !InSubtree(Own(m.own, q), q, x, p) ==> q in m'.bytes && m'.bytes[q] == m.bytes[q])
    && (forall q :: q in m'.bytes ==> |m'.bytes[q]| == PGSIZE)
    && m'.own.Keys == m.own.Keys && (forall q :: q in m.bytes ==> q in m'.bytes)
  }

  /** The first n entries of page p are invalid, the others as before. */
  ghost predicate Emptied(t: Tables, t': Tables, p: nat, n: nat) {
    forall k: nat :: k < 512 ==> if k < n then !Entry(t', p, k).v else Entry(t', p, k) == Entry(t, p, k)
  }

  /** The loop of freewalk on page p has done its first n entries. */
  ghost predicate Swept(m: Mem, m': Mem, x: Owner, p: nat, n: nat) {
    && (forall q: nat :: Own(m'.own, q) == if Below(Own(m.own, q), x, p, n) then Free else Own(m.own, q))
    && (forall q: nat :: q in m'.tables <==> q in m.tables && !Below(Own(m.own, q), x, p, n))
    && (forall q :: q in m'.tables && q != p ==> m'.tables[q] == m.tables[q])
    && p in m'.tables && |m'.tables[p]| == 512 && Emptied(m.tables, m'.tables, p, n)
    && (forall q :: q in m.bytes && !Below(Own(m.own, q), x, p, n) ==> q in m'.bytes && m'.bytes[q] == m.bytes[q])
    && m'.own.Keys == m.own.Keys && (forall q :: q in m.bytes ==> q in m'.bytes)
  }

  /** What freewalk relies on: a well-formed forest in which the subtree of p holds no leaf. */
  ghost predicate Walkable(m: Mem, x: Owner, p: nat) {
    && Sizes(m.tables, m.bytes, m.own) && Down(m.tables, m.own) && Up(m.tables, m.own)
    && Own(m.own, p) == x && IsTable(x)
    && (forall q: nat, k: nat :: Own(m.own, q).Low? && InSubtree(Own(m.own, q), q, x, p) ==> !Entry(m.tables, q, k).v)
  }

  lemma {:induction false} SweptNone(m: Mem, x: Owner, p: nat)
    requires Walkable(m, x, p)
    ensures Swept(m, m, x, p, 0)
  {
    hide Down, Up, Own;
  }

  /** An entry that is invalid has nothing below it. */
  lemma {:induction false} NothingBelow(m: Mem, x: Owner, p: nat, n: nat, q: nat)
    requires Walkable(m, x, p) && n < 512 && !Entry(m.tables, p, n).v
    ensures Below(Own(m.own, q), x, p, n + 1) == Below(Own(m.own, q), x, p, n)
  {
    hide Own, Down, Sizes, Entry;
    assert Own(m.own, q).Mid? ==> UpMid(m.tables, m.own, q, Own(m.own, q));
    assert Own(m.own, q).Low? ==> UpLow(m.tables, m.own, q, Own(m.own, q));
    assert x.Mid? ==> UpMid(m.tables, m.own, p, x);
  }

  lemma {:induction false} SweptSkip(m: Mem, m': Mem, x: Owner, p: nat, n: nat)
    requires Walkable(m, x, p) && Swept(m, m', x, p, n) && n < 512 && !Entry(m.tables, p, n).v
    ensures Swept(m, m', x, p, n + 1)
  {
    hide Own, Below, Walkable, Entry;
    forall q: nat ensures Below(Own(m.own, q), x, p, n + 1) == Below(Own(m.own, q), x, p, n) {
      NothingBelow(m, x, p, n, q);
    }
    assert Emptied(m.tables, m'.tables, p, n + 1);
    hide Emptied;
  }

  /** The table below a valid entry can be freed first. */
  lemma {:induction false} ChildWalkable(m: Mem, x: Owner, p: nat, n: nat)
    requires Walkable(m, x, p) && n < 512 && Entry(m.tables, p, n).v
    ensures (x.Root? || x.Mid?) && Entry(m.tables, p, n) == Pointer(Entry(m.tables, p, n).ppn)
    ensures Walkable(m, Child(x, p, n), Entry(m.tables, p, n).ppn) && Entry(m.tables, p, n).ppn != p
  {
    hide Own, Sizes, Entry, Up;
    assert !x.Low?;
    var q := Entry(m.tables, p, n).ppn;
    assert Own(m.own, q) == Child(x, p, n);
    forall u: nat, k: nat | Own(m.own, u).Low? && InSubtree(Own(m.own, u), u, Child(x, p, n), q)
      ensures !Entry(m.tables, u, k).v
    {
      assert InSubtree(Own(m.own, u), u, x, p);
    }
  }

  /** Position n below p has one owner, the page that the entry points to. */
  lemma {:induction false} OneChild(m: Mem, x: Owner, p: nat, n: nat, u: nat)
    requires Walkable(m, x, p) && n < 512 && Entry(m.tables, p, n).v
    ensures (x.Root? || x.Mid?) && (Own(m.own, u) == Child(x, p, n) ==> u == Entry(m.tables, p, n).ppn)
  {
    hide Own, Sizes, Entry;
    ChildWalkable(m, x, p, n);
    assert x.Mid? ==> UpMid(m.tables, m.own, p, x);
    assert Own(m.own, u).Mid? ==> UpMid(m.tables, m.own, u, Own(m.own, u));
    assert Own(m.own, u).Low? ==> UpLow(m.tables, m.own, u, Own(m.own, u));
  }

  /** The state after the subtree below entry n of p was freed and the entry cleared. */
  ghost predicate Cleared(m: Mem, m': Mem, y: Owner, q: nat, p: nat, n: nat) {
    && (forall u: nat :: Own(m'.own, u) == if InSubtree(Own(m.own, u), u, y, q) then Free else Own(m.own, u))
    && (forall u: nat, k: nat :: Entry(m'.tables, u, k) ==
          if InSubtree(Own(m.own, u), u, y, q) || (u == p && k == n) then INVALID else Entry(m.tables, u, k))
  }

  lemma {:induction false} ClearedDown(m: Mem, m': Mem, x: Owner, p: nat, n: nat)
    requires Walkable(m, x, p) && n < 512 && Entry(m.tables, p, n).v && (x.Root? || x.Mid?)
    requires Cleared(m, m', Child(x, p, n), Entry(m.tables, p, n).ppn, p, n)
    ensures Down(m'.tables, m'.own)
  {
    var q, y := Entry(m.tables, p, n).ppn, Child(x, p, n);
    ChildWalkable(m, x, p, n);
    forall u: nat ensures Own(m.own, u) == y ==> u == q { OneChild(m, x, p, n, u); }
    forall u: nat ensures Own(m.own, u).Mid? ==> UpMid(m.tables, m.own, u, Own(m.own, u)) {
      assert Up(m.tables, m.own);
    }
    hide Own, Entry, Sizes, Up;
    forall u: nat, k: nat | Own(m'.own, u).Root? && Entry(m'.tables, u, k).v
      ensures var e := Entry(m'.tables, u, k); e == Pointer(e.ppn) && Own(m'.own, e.ppn) == Mid(u, k)
    {
      var e := Entry(m.tables, u, k);
      assert Entry(m'.tables, u, k) == e && Own(m.own, u).Root?;
      assert Own(m.own, e.ppn) == Mid(u, k);
      assert !InSubtree(Own(m.own, e.ppn), e.ppn, y, q);
    }
    forall u: nat, k: nat | Own(m'.own, u).Mid? && Entry(m'.tables, u, k).v
      ensures var e := Entry(m'.tables, u, k);
        e == Pointer(e.ppn) && Own(m'.own, e.ppn) == Low(Own(m'.own, u).root, Own(m'.own, u).i, k)
    {
      var e := Entry(m.tables, u, k);
      assert Entry(m'.tables, u, k) == e && Own(m'.own, u) == Own(m.own, u);
      assert Own(m.own, e.ppn) == Low(Own(m.own, u).root, Own(m.own, u).i, k);
      assert UpMid(m.tables, m.own, u, Own(m.own, u));
      assert x.Mid? ==> UpMid(m.tables, m.own, p, x);
      assert !InSubtree(Own(m.own, e.ppn), e.ppn, y, q);
    }
  }

  lemma {:induction false} ClearedUp(m: Mem, m': Mem, x: Owner, p: nat, n: nat)
    requires Walkable(m, x, p) && n < 512 && Entry(m.tables, p, n).v && (x.Root? || x.Mid?)
    requires Cleared(m, m', Child(x, p, n), Entry(m.tables, p, n).ppn, p, n)
    ensures Up(m'.tables, m'.own)
  {
    var q, y := Entry(m.tables, p, n).ppn, Child(x, p, n);
    ChildWalkable(m, x, p, n);
    assert Own(m.own, q) == y;
    hide Own, Entry, Sizes, Down;
    forall u: nat | Own(m'.own, u).Mid? ensures UpMid(m'.tables, m'.own, u, Own(m'.own, u)) {
      assert UpMid(m.tables, m.own, u, Own(m.own, u));
    }
    forall u: nat | Own(m'.own, u).Low? ensures UpLow(m'.tables, m'.own, u, Own(m'.own, u)) {
      assert UpLow(m.tables, m.own, u, Own(m.own, u));
    }
  }

  /** Freed, then the parent's entry cleared. */
  lemma {:induction false} FreedCleared(m: Mem, m2: Mem, x: Owner, p: nat, n: nat)
    requires Walkable(m, x, p) && n < 512 && Entry(m.tables, p, n).v && (x.Root? || x.Mid?)
    requires Freed(m, m2, Child(x, p, n), Entry(m.tables, p, n).ppn)
    ensures p in m2.tables && m2.tables[p] == m.tables[p] && |m2.tables[p]| == 512
    ensures Cleared(m, m2.(tables := m2.tables[p := m2.tables[p][n := INVALID]]),
      Child(x, p, n), Entry(m.tables, p, n).ppn, p, n)
    ensures !InSubtree(Own(m.own, p), p, Child(x, p, n), Entry(m.tables, p, n).ppn)
  {
    var q, y := Entry(m.tables, p, n).ppn, Child(x, p, n);
    ChildWalkable(m, x, p, n);
    assert p in m.tables && |m.tables[p]| == 512;
    assert !InSubtree(x, p, y, q);
    hide Own, Down, Up;
    var m3 := m2.(tables := m2.tables[p := m2.tables[p][n := INVALID]]);
    forall u: nat, k: nat ensures Entry(m3.tables, u, k) ==
          if InSubtree(Own(m.own, u), u, y, q) || (u == p && k == n) then INVALID else Entry(m.tables, u, k)
    {
      assert u in m2.tables <==> u in m.tables && !InSubtree(Own(m.own, u), u, y, q);
    }
  }

  lemma {:induction false} ClearedWalkable(m: Mem, m2: Mem, x: Owner, p: nat, n: nat)
    requires Walkable(m, x, p) && n < 512 && Entry(m.tables, p, n).v && (x.Root? || x.Mid?)
    requires Freed(m, m2, Child(x, p, n), Entry(m.tables, p, n).ppn)
    ensures p in m2.tables && |m2.tables[p]| == 512
    ensures Walkable(m2.(tables := m2.tables[p := m2.tables[p][n := INVALID]]), x, p)
  {
    FreedCleared(m, m2, x, p, n);
    var q, y := Entry(m.tables, p, n).ppn, Child(x, p, n);
    var m3 := m2.(tables := m2.tables[p := m2.tables[p][n := INVALID]]);
    ClearedDown(m, m3, x, p, n);
    ClearedUp(m, m3, x, p, n);
    ChildWalkable(m, x, p, n);
    hide Entry, Down, Up;
    ClearedSizes(m, m2, x, p, n);
    hide Sizes;
    assert Own(m3.own, p) == x;
    forall u: nat, k: nat | Own(m3.own, u).Low? && InSubtree(Own(m3.own, u), u, x, p)
      ensures !Entry(m3.tables, u, k).v
    {
      assert Own(m3.own, u) == Own(m.own, u);
    }
  }

  lemma {:induction false} ClearedSizes(m: Mem, m2: Mem, x: Owner, p: nat, n: nat)
    requires Walkable(m, x, p) && n < 512 && Entry(m.tables, p, n).v && (x.Root? || x.Mid?)
    requires Freed(m, m2, Child(x, p, n), Entry(m.tables, p, n).ppn) && p in m2.tables && |m2.tables[p]| == 512
    ensures Sizes(m2.tables[p := m2.tables[p][n := INVALID]], m2.bytes, m2.own)
  {
    hide Down, Up, Entry;
    var t3 := m2.tables[p := m2.tables[p][n := INVALID]];
    assert forall u: nat :: u in t3 <==> u in m2.tables;
    forall u: nat ensures u in t3 <==> IsTable(Own(m2.own, u)) {
      assert u in m2.tables <==>
        u in m.tables && !InSubtree(Own(m.own, u), u, Child(x, p, n), Entry(m.tables, p, n).ppn);
      ChildWalkable(m, x, p, n);
    }
    assert forall u :: u in m2.own ==> u in m2.bytes;
  }

  /** What is below the first n + 1 entries: what is below the first n, and the subtree below entry n. */
  lemma {:induction false} BelowNext(m: Mem, x: Owner, p: nat, n: nat, u: nat)
    requires Walkable(m, x, p) && n < 512 && Entry(m.tables, p, n).v && (x.Root? || x.Mid?)
    ensures var q := Entry(m.tables, p, n).ppn;
      Below(Own(m.own, u), x, p, n + 1) <==>
        Below(Own(m.own, u), x, p, n) || InSubtree(Own(m.own, u), u, Child(x, p, n), q)
  {
    ChildWalkable(m, x, p, n);
    OneChild(m, x, p, n, u);
    assert Own(m.own, Entry(m.tables, p, n).ppn) == Child(x, p, n);
    hide Own, Entry, Down, Sizes;
    assert Own(m.own, u).Low? ==> UpLow(m.tables, m.own, u, Own(m.own, u));
  }

  /** Sweeping entry n: the child's subtree was freed (m2) and the entry cleared. */
  lemma {:induction false} SweptStep(m: Mem, m1: Mem, m2: Mem, x: Owner, p: nat, n: nat)
    requires Walkable(m, x, p) && Walkable(m1, x, p) && Swept(m, m1, x, p, n) && n < 512 && (x.Root? || x.Mid?)
    requires Entry(m1.tables, p, n).v && Freed(m1, m2, Child(x, p, n), Entry(m1.tables, p, n).ppn)
    ensures p in m2.tables && |m2.tables[p]| == 512
    ensures Swept(m, m2.(tables := m2.tables[p := m2.tables[p][n := INVALID]]), x, p, n + 1)
  {
    hide Own, Walkable, Below, InSubtree, Freed, Cleared;
    assert Entry(m1.tables, p, n) == Entry(m.tables, p, n);
    var q, y := Entry(m.tables, p, n).ppn, Child(x, p, n);
    FreedCleared(m1, m2, x, p, n);
    var m3 := m2.(tables := m2.tables[p := m2.tables[p][n := INVALID]]);
    AllBelowNext(m, x, p, n);
    SweptOwn(m, m1, m3, x, p, n, y, q);
    SweptTables(m, m1, m2, m3, x, p, n, y, q);
    SweptBytes(m, m1, m2, x, p, n, y, q);
    SweptEntries(m, m1, m3, p, n, y, q);
    FreedKeys(m1, m2, y, q);
    hide Emptied, Entry;
  }

  lemma {:induction false} AllBelowNext(m: Mem, x: Owner, p: nat, n: nat)
    requires Walkable(m, x, p) && n < 512 && Entry(m.tables, p, n).v && (x.Root? || x.Mid?)
    ensures NextBelow(m, x, p, n, Child(x, p, n), Entry(m.tables, p, n).ppn)
  {
    hide Own, Walkable, Below, InSubtree, Entry;
    var q, y := Entry(m.tables, p, n).ppn, Child(x, p, n);
    forall u: nat
      ensures Below(Own(m.own, u), x, p, n + 1) <==> Below(Own(m.own, u), x, p, n) || InSubtree(Own(m.own, u), u, y, q)
    {
      BelowNext(m, x, p, n, u);
    }
  }

  lemma {:induction false} SweptEntries(m: Mem, m1: Mem, m3: Mem, p: nat, n: nat, y: Owner, q: nat)
    requires Emptied(m.tables, m1.tables, p, n) && Cleared(m1, m3, y, q, p, n) && !InSubtree(Own(m1.own, p), p, y, q)
    ensures Emptied(m.tables, m3.tables, p, n + 1)
  {
    hide Own, Entry, InSubtree;
    forall k: nat | k < 512
      ensures if k < n + 1 then !Entry(m3.tables, p, k).v else Entry(m3.tables, p, k) == Entry(m.tables, p, k)
    {
      assert Entry(m3.tables, p, k) == if k == n then INVALID else Entry(m1.tables, p, k);
    }
  }

  lemma {:induction false} FreedKeys(m1: Mem, m2: Mem, y: Owner, q: nat)
    requires Freed(m1, m2, y, q)
    ensures m2.own.Keys == m1.own.Keys && forall u :: u in m1.bytes ==> u in m2.bytes
  {
    hide Own, InSubtree;
  }

  ghost predicate NextBelow(m: Mem, x: Owner, p: nat, n: nat, y: Owner, q: nat) {
    forall u: nat ::
      Below(Own(m.own, u), x, p, n + 1) <==> Below(Own(m.own, u), x, p, n) || InSubtree(Own(m.own, u), u, y, q)
  }

  lemma {:induction false} SweptOwn(m: Mem, m1: Mem, m3: Mem, x: Owner, p: nat, n: nat, y: Owner, q: nat)
    requires Swept(m, m1, x, p, n) && NextBelow(m, x, p, n, y, q) && Cleared(m1, m3, y, q, p, n)
    ensures forall u: nat :: Own(m3.own, u) == if Below(Own(m.own, u), x, p, n + 1) then Free else Own(m.own, u)
  {
    hide Own, Entry;
    forall u: nat ensures Own(m3.own, u) == if Below(Own(m.own, u), x, p, n + 1) then Free else Own(m.own, u) {
      assert Own(m1.own, u) == if Below(Own(m.own, u), x, p, n) then Free else Own(m.own, u);
      assert Own(m3.own, u) == if InSubtree(Own(m1.own, u), u, y, q) then Free else Own(m1.own, u);
    }
  }

  lemma {:induction false} SweptTables(m: Mem, m1: Mem, m2: Mem, m3: Mem, x: Owner, p: nat, n: nat, y: Owner, q: nat)
    requires Swept(m, m1, x, p, n) && NextBelow(m, x, p, n, y, q) && Freed(m1, m2, y, q)
    requires p in m2.tables && n < |m2.tables[p]| && m3.tables == m2.tables[p := m2.tables[p][n := INVALID]]
    ensures forall u: nat :: u in m3.tables <==> u in m.tables && !Below(Own(m.own, u), x, p, n + 1)
    ensures forall u :: u in m3.tables && u != p ==> m3.tables[u] == m.tables[u]
  {
    hide Own, Entry;
    forall u: nat ensures u in m3.tables <==> u in m.tables && !Below(Own(m.own, u), x, p, n + 1) {
      assert Own(m1.own, u) == if Below(Own(m.own, u), x, p, n) then Free else Own(m.own, u);
      assert u in m1.tables <==> u in m.tables && !Below(Own(m.own, u), x, p, n);
      assert u in m2.tables <==> u in m1.tables && !InSubtree(Own(m1.own, u), u, y, q);
    }
  }

  lemma {:induction false} SweptBytes(m: Mem, m1: Mem, m2: Mem, x: Owner, p: nat, n: nat, y: Owner, q: nat)
    requires Swept(m, m1, x, p, n) && NextBelow(m, x, p, n, y, q) && Freed(m1, m2, y, q)
    ensures forall u ::
      u in m.bytes && !Below(Own(m.own, u), x, p, n + 1) ==> u in m2.bytes && m2.bytes[u] == m.bytes[u]
  {
    hide Own, Entry;
    forall u | u in m.bytes && !Below(Own(m.own, u), x, p, n + 1) ensures u in m2.bytes && m2.bytes[u] == m.bytes[u] {
      assert Own(m1.own, u) == Own(m.own, u) && u in m1.bytes && m1.bytes[u] == m.bytes[u];
      assert !InSubtree(Own(m1.own, u), u, y, q);
    }
  }

  /** All entries swept, p itself goes. */
  lemma {:induction false} SweptDone(m: Mem, m1: Mem, x: Owner, p: nat)
    requires Walkable(m1, x, p) && Swept(m, m1, x, p, 512) && Own(m.own, p) == x && p in m.own
    ensures Freed(m, Release(m1, p), x, p)
  {
    hide Down, Up, Below, Entry, Emptied;
    var m2 := Release(m1, p);
    OwnAt(m1.own, p, Free);
    assert m2.own == m1.own[p := Free];
    hide Own;
    SweptDoneOwn(m, m1, m2, x, p);
    assert forall u: nat :: u in m2.tables <==> u in m1.tables && u != p;
    assert forall u :: u in m2.bytes ==> |m2.bytes[u]| == PGSIZE;
    hide Sizes;
  }

  lemma {:induction false} SweptDoneOwn(m: Mem, m1: Mem, m2: Mem, x: Owner, p: nat)
    requires Swept(m, m1, x, p, 512) && forall u: nat :: Own(m2.own, u) == if u == p then Free else Own(m1.own, u)
    ensures forall u: nat :: Own(m2.own, u) == if InSubtree(Own(m.own, u), u, x, p) then Free else Own(m.own, u)
  {
    hide Own, Below, Entry;
    forall u: nat ensures Own(m2.own, u) == if InSubtree(Own(m.own, u), u, x, p) then Free else Own(m.own, u) {
      assert Own(m1.own, u) == if Below(Own(m.own, u), x, p, 512) then Free else Own(m.own, u);
    }
  }

  /** A table without leaves can be walked by freewalk. */
  lemma {:induction false} NoLeavesWalkable(m: Mem, r: nat)
    requires Good(m) && Own(m.own, r).Root? && forall v: nat :: v < NVPN ==> !Leaf(m.tables, r, v).v
    ensures Walkable(m, Root, r)
  {
    hide FreeOk, Sizes, Entry, Own, UserOk;
    forall q: nat, k: nat | Own(m.own, q).Low? && InSubtree(Own(m.own, q), q, Root, r)
      ensures !Entry(m.tables, q, k).v
    {
      var o := Own(m.own, q);
      assert UpLow(m.tables, m.own, q, o);
      EntryBound(m, q, k);
      if k < 512 {
        VpnIndices(o.i, o.j, k);
        hide I2, I1, I0, Vpn;
        assert Leaf(m.tables, r, Vpn(o.i, o.j, k)) == Entry(m.tables, q, k);
      }
    }
  }

  lemma {:induction false} EntryBound(m: Mem, q: nat, k: nat)
    requires Good(m)
    ensures k >= 512 ==> Entry(m.tables, q, k) == INVALID
  {
    hide Tree, FreeOk;
  }

  predicate BelongsTo(x: Owner, r: nat) { TableOf(x, r) || (x.User? && x.root == r) }

  /** Table r is gone: its page, its page tables and its user pages are free, all else is as before. */
  ghost predicate Gone(m: Mem, m': Mem, r: nat) {
    && (forall p: nat :: Own(m'.own, p) == if p == r || BelongsTo(Own(m.own, p), r) then Free else Own(m.own, p))
    && (forall q: nat, v: nat :: Own(m.own, q).Root? && q != r && v < NVPN ==>
          Leaf(m'.tables, q, v) == Leaf(m.tables, q, v))
    && (forall p :: p in m.bytes && p != r && !BelongsTo(Own(m.own, p), r) ==>
          p in m'.bytes && m'.bytes[p] == m.bytes[p])
    && m'.own.Keys == m.own.Keys
  }

  lemma {:induction false} NoUserLeft(m: Mem, r: nat, q: nat)
    requires Good(m) && forall v: nat :: v < NVPN ==> !Leaf(m.tables, r, v).v
    ensures !(Own(m.own, q).User? && Own(m.own, q).root == r)
  {
    hide FreeOk, Sizes, Down, Up, Leaf, Own;
    assert Own(m.own, q).User? ==> Mapped(m.tables, m.own, q, Own(m.own, q));
  }

  /** Freeing the subtree of a root leaves every other table's translations. */
  lemma {:induction false} FreedLeaf(m: Mem, m': Mem, r: nat, q: nat, v: nat)
    requires Good(m) && Freed(m, m', Root, r) && Own(m.own, r).Root? && Own(m.own, q).Root? && q != r
    ensures Leaf(m'.tables, q, v) == Leaf(m.tables, q, v)
  {
    Path(m.tables, m.own, q, v);
    FreedEntries(m, m', r);
    hide Own, Entry, Good, I2, I1, I0;
  }

  lemma {:induction false} FreedEntries(m: Mem, m': Mem, r: nat)
    requires Good(m) && Freed(m, m', Root, r)
    ensures forall u: nat, k: nat ::
      Entry(m'.tables, u, k) == if InSubtree(Own(m.own, u), u, Root, r) then INVALID else Entry(m.tables, u, k)
  {
    hide Own, Good, InSubtree;
    forall u: nat, k: nat
      ensures Entry(m'.tables, u, k) == if InSubtree(Own(m.own, u), u, Root, r) then INVALID else Entry(m.tables, u, k)
    {
      assert u in m'.tables <==> u in m.tables && !InSubtree(Own(m.own, u), u, Root, r);
    }
  }

  /** After a table without leaves was freed, what remains is well-formed. */
  lemma {:induction false} FreedGood(m: Mem, m': Mem, r: nat)
    requires Good(m) && Own(m.own, r).Root? && Freed(m, m', Root, r) && FreeOk(m'.free, m'.own)
    requires forall v: nat :: v < NVPN ==> !Leaf(m.tables, r, v).v
    ensures Good(m') && Gone(m, m', r)
  {
    hide Leaf, Own, Entry, FreeOk, InSubtree, Tree, Sizes, Down, Up;
    FreedEntries(m, m', r);
    FreedDown(m, m', r);
    FreedUp(m, m', r);
    FreedSizes(m, m', r);
    forall q: nat, v: nat | Own(m.own, q).Root? && q != r ensures Leaf(m'.tables, q, v) == Leaf(m.tables, q, v) {
      FreedLeaf(m, m', r, q, v);
    }
    FreedUser(m, m', r);
    FreedGone(m, m', r);
    hide Freed;
    assert Tree(m'.tables, m'.own) by { FormTree(m'.tables, m'.own); }
  }

  lemma {:induction false} FormTree(t: Tables, o: Owners)
    requires Down(t, o) && Up(t, o) && UserOk(t, o)
    ensures Tree(t, o)
  {
  }

  lemma {:induction false} FreedDown(m: Mem, m': Mem, r: nat)
    requires Good(m) && Own(m.own, r).Root? && Freed(m, m', Root, r)
    requires forall u: nat, k: nat ::
      Entry(m'.tables, u, k) == if InSubtree(Own(m.own, u), u, Root, r) then INVALID else Entry(m.tables, u, k)
    ensures Down(m'.tables, m'.own)
  {
    hide Own, Entry, Sizes, Up, UserOk, FreeOk;
    var t, o, t', o' := m.tables, m.own, m'.tables, m'.own;
    forall u: nat, k: nat | Own(o', u).Root? && Entry(t', u, k).v
      ensures var e := Entry(t', u, k); e == Pointer(e.ppn) && Own(o', e.ppn) == Mid(u, k)
    {
      assert Own(o, u).Root? && u != r && Entry(t', u, k) == Entry(t, u, k);
    }
    forall u: nat, k: nat | Own(o', u).Mid? && Entry(t', u, k).v
      ensures var e := Entry(t', u, k); e == Pointer(e.ppn) && Own(o', e.ppn) == Low(Own(o', u).root, Own(o', u).i, k)
    {
      assert Own(o', u) == Own(o, u) && Entry(t', u, k) == Entry(t, u, k);
    }
  }

  lemma {:induction false} FreedUp(m: Mem, m': Mem, r: nat)
    requires Good(m) && Own(m.own, r).Root? && Freed(m, m', Root, r)
    requires forall u: nat, k: nat ::
      Entry(m'.tables, u, k) == if InSubtree(Own(m.own, u), u, Root, r) then INVALID else Entry(m.tables, u, k)
    ensures Up(m'.tables, m'.own)
  {
    hide Own, Entry, Sizes, Down, UserOk, FreeOk;
    var t, o, t', o' := m.tables, m.own, m'.tables, m'.own;
    forall u: nat | Own(o', u).Mid? ensures UpMid(t', o', u, Own(o', u)) { assert UpMid(t, o, u, Own(o, u)); }
    forall u: nat | Own(o', u).Low? ensures UpLow(t', o', u, Own(o', u)) { assert UpLow(t, o, u, Own(o, u)); }
  }

  lemma {:induction false} FreedUser(m: Mem, m': Mem, r: nat)
    requires Good(m) && Own(m.own, r).Root? && Freed(m, m', Root, r)
    requires forall v: nat :: v < NVPN ==> !Leaf(m.tables, r, v).v
    requires forall q: nat, v: nat :: Own(m.own, q).Root? && q != r ==> Leaf(m'.tables, q, v) == Leaf(m.tables, q, v)
    ensures UserOk(m'.tables, m'.own)
  {
    hide Own, Leaf, Sizes, Down, Up, FreeOk;
    forall u: nat | Own(m'.own, u).User? ensures Mapped(m'.tables, m'.own, u, Own(m'.own, u)) {
      assert Mapped(m.tables, m.own, u, Own(m.own, u));
    }
  }

  lemma {:induction false} FreedSizes(m: Mem, m': Mem, r: nat)
    requires Good(m) && Own(m.own, r).Root? && Freed(m, m', Root, r)
    ensures Sizes(m'.tables, m'.bytes, m'.own)
  {
    hide Tree, FreeOk, Own;
    forall u: nat ensures u in m'.tables <==> IsTable(Own(m'.own, u)) {
      assert u in m'.tables <==> u in m.tables && !InSubtree(Own(m.own, u), u, Root, r);
    }
  }

  lemma {:induction false} FreedGone(m: Mem, m': Mem, r: nat)
    requires Good(m) && Own(m.own, r).Root? && Freed(m, m', Root, r)
    requires forall v: nat :: v < NVPN ==> !Leaf(m.tables, r, v).v
    requires forall q: nat, v: nat :: Own(m.own, q).Root? && q != r ==> Leaf(m'.tables, q, v) == Leaf(m.tables, q, v)
    ensures Gone(m, m', r)
  {
    hide Leaf, Own, Good;
    forall p: nat ensures InSubtree(Own(m.own, p), p, Root, r) <==> p == r || BelongsTo(Own(m.own, p), r) {
      NoUserLeft(m, r, p);
      SubtreeBounds(m, p);
    }
  }

  lemma {:induction false} SubtreeBounds(m: Mem, p: nat)
    requires Good(m)
    ensures var o := Own(m.own, p); (o.Mid? ==> o.i < 512) && (o.Low? ==> o.i < 512 && o.j < 512)
  {
    hide Down, UserOk, Sizes, FreeOk, Own, Entry;
    var o := Own(m.own, p);
    assert o.Mid? ==> UpMid(m.tables, m.own, p, o);
    assert o.Low? ==> UpLow(m.tables, m.own, p, o);
  }

  /** Unmapping all user pages and then freeing the tables makes the table go. */
  lemma {:induction false} UnmapThenGone(m: Mem, m1: Mem, m2: Mem, r: nat, n: nat)
    requires Good(m) && Own(m.own, r).Root? && Unmapped(m, m1, r, 0, n) && Gone(m1, m2, r)
    ensures Gone(m, m2, r)
  {
    hide Leaf, Own, Good, TableOf;
    forall p: nat ensures Own(m2.own, p) == if p == r || BelongsTo(Own(m.own, p), r) then Free else Own(m.own, p) {
      assert Own(m1.own, p) == if InRange(Own(m.own, p), r, 0, n) then Free else Own(m.own, p);
      assert Own(m2.own, p) == if p == r || BelongsTo(Own(m1.own, p), r) then Free else Own(m1.own, p);
    }
    forall q: nat, v: nat | Own(m.own, q).Root? && q != r && v < NVPN
      ensures Leaf(m2.tables, q, v) == Leaf(m.tables, q, v)
    {
      assert Own(m1.own, q) == Own(m.own, q);
    }
    forall p | p in m.bytes && p != r && !BelongsTo(Own(m.own, p), r)
      ensures p in m2.bytes && m2.bytes[p] == m.bytes[p]
    {
      assert Own(m1.own, p) == Own(m.own, p) && p in m1.bytes;
    }
  }

  // ----- building a process image and giving it up -----

  /** Every table but r translates as before. */
  ghost predicate OthersSame(t: Tables, t': Tables, o: Owners, r: nat) {
    forall q: nat, v: nat :: Own(o, q).Root? && q != r && v < NVPN ==> Leaf(t', q, v) == Leaf(t, q, v)
  }

  /** Bytes of pages that were in use are as before. */
  ghost predicate BytesKept(m: Mem, m': Mem) {
    m'.own.Keys == m.own.Keys && forall p :: p in m.bytes && !Own(m.own, p).Free? ==>
      p in m'.bytes && m'.bytes[p] == m.bytes[p]
  }

  /**
   Since m, table r was made from a free page; whatever else changed hands was
   free in m and now belongs to r, or is page k. Older tables translate as before.
   */
  ghost predicate Started(m: Mem, m': Mem, r: nat, k: nat) {
    && Own(m.own, r).Free? && Own(m'.own, r).Root?
    && (forall p: nat :: Own(m'.own, p) == Own(m.own, p)
          || (Own(m.own, p).Free? && (p == r || p == k || BelongsTo(Own(m'.own, p), r))))
    && SameLeaves(m.tables, m'.tables, m.own) && BytesKept(m, m')
  }

  /** Nothing changed hands, no translation and no page in use changed. */
  ghost predicate Restored(m: Mem, m': Mem) {
    (forall p: nat :: Own(m'.own, p) == Own(m.own, p)) && SameLeaves(m.tables, m'.tables, m.own) && BytesKept(m, m')
  }

  lemma {:induction false} StartedTables(m: Mem, m1: Mem, m2: Mem, r: nat, k: nat)
    requires Started(m, m1, r, k) && OnlyTables(m1, m2, r) && OthersSame(m1.tables, m2.tables, m1.own, r)
    ensures Started(m, m2, r, k)
  {
    hide Leaf, Own;
    forall p: nat ensures Own(m2.own, p) == Own(m.own, p)
      || (Own(m.own, p).Free? && (p == r || p == k || BelongsTo(Own(m2.own, p), r))) {
      assert Own(m2.own, p) == Own(m1.own, p) || (Own(m1.own, p).Free? && TableOf(Own(m2.own, p), r));
    }
    forall q: nat, v: nat | Own(m.own, q).Root? && v < NVPN ensures Leaf(m2.tables, q, v) == Leaf(m.tables, q, v) {
      assert Own(m1.own, q) == Own(m.own, q) && Leaf(m1.tables, q, v) == Leaf(m.tables, q, v);
    }
    forall p | p in m.bytes && !Own(m.own, p).Free? ensures p in m2.bytes && m2.bytes[p] == m.bytes[p] {
      assert Own(m1.own, p) == Own(m.own, p) && p in m1.bytes;
    }
  }

  lemma {:induction false} StartedUnmap(m: Mem, m1: Mem, m2: Mem, r: nat, k: nat, first: nat, end: nat)
    requires Started(m, m1, r, k) && Unmapped(m1, m2, r, first, end) && Good(m)
    ensures Started(m, m2, r, k)
  {
    hide Leaf, Own, Sizes, Down, Up, FreeOk;
    assert UserOk(m.tables, m.own);
    forall p: nat ensures Own(m2.own, p) == Own(m.own, p)
      || (Own(m.own, p).Free? && (p == r || p == k || BelongsTo(Own(m2.own, p), r))) {
      assert Own(m.own, p).User? ==> Mapped(m.tables, m.own, p, Own(m.own, p));
      assert Own(m2.own, p) == if InRange(Own(m1.own, p), r, first, end) then Free else Own(m1.own, p);
    }
    forall q: nat, v: nat | Own(m.own, q).Root? && v < NVPN ensures Leaf(m2.tables, q, v) == Leaf(m.tables, q, v) {
      assert Own(m1.own, q) == Own(m.own, q) && Leaf(m1.tables, q, v) == Leaf(m.tables, q, v);
    }
    forall p | p in m.bytes && !Own(m.own, p).Free? ensures p in m2.bytes && m2.bytes[p] == m.bytes[p] {
      assert Own(m1.own, p) == Own(m.own, p) && p in m1.bytes;
      assert Own(m.own, p).User? ==> Mapped(m.tables, m.own, p, Own(m.own, p));
    }
  }

  lemma {:induction false} StartedGrown(m: Mem, m1: Mem, m2: Mem, r: nat, k: nat, want: seq<Image>)
    requires Started(m, m1, r, k) && Grown(m1, m2, r, 0, want)
    ensures Started(m, m2, r, k)
  {
    hide Leaf, Own, HasPage;
    forall p: nat ensures Own(m2.own, p) == Own(m.own, p)
      || (Own(m.own, p).Free? && (p == r || p == k || BelongsTo(Own(m2.own, p), r))) {
      assert Own(m1.own, p) == Own(m.own, p)
        || (Own(m.own, p).Free? && (p == r || p == k || BelongsTo(Own(m1.own, p), r)));
      assert Own(m2.own, p) == Own(m1.own, p)
        || (Own(m1.own, p).Free? && (TableOf(Own(m2.own, p), r) || InRange(Own(m2.own, p), r, 0, |want|)));
    }
    forall q: nat, v: nat | Own(m.own, q).Root? && v < NVPN ensures Leaf(m2.tables, q, v) == Leaf(m.tables, q, v) {
      assert Own(m1.own, q) == Own(m.own, q) && Leaf(m1.tables, q, v) == Leaf(m.tables, q, v) && q != r;
    }
    forall p | p in m.bytes && !Own(m.own, p).Free? ensures p in m2.bytes && m2.bytes[p] == m.bytes[p] {
      assert Own(m1.own, p) == Own(m.own, p) && p in m1.bytes;
    }
  }

  /** Freeing table r undoes all that was done for it. */
  lemma {:induction false} StartedGone(m: Mem, m1: Mem, m2: Mem, r: nat)
    requires Good(m) && Started(m, m1, r, r) && Gone(m1, m2, r)
    ensures Restored(m, m2)
  {
    hide Leaf, Own, Sizes, Down, FreeOk;
    forall p: nat
      ensures Own(m2.own, p) == Own(m.own, p) && (!Own(m.own, p).Free? ==> p != r && !BelongsTo(Own(m.own, p), r))
    {
      NotYetOwned(m, r, p);
      assert Own(m2.own, p) == if p == r || BelongsTo(Own(m1.own, p), r) then Free else Own(m1.own, p);
    }
    forall q: nat, v: nat | Own(m.own, q).Root? && v < NVPN ensures Leaf(m2.tables, q, v) == Leaf(m.tables, q, v) {
      assert Own(m1.own, q) == Own(m.own, q) && Leaf(m1.tables, q, v) == Leaf(m.tables, q, v);
    }
    forall p | p in m.bytes && !Own(m.own, p).Free? ensures p in m2.bytes && m2.bytes[p] == m.bytes[p] {
      assert Own(m1.own, p) == Own(m.own, p) && p in m1.bytes;
    }
  }

  /** No page belongs to a table that does not exist. */
  lemma {:induction false} NotYetOwned(m: Mem, r: nat, p: nat)
    requires Good(m) && Own(m.own, r).Free?
    ensures !BelongsTo(Own(m.own, p), r)
  {
    hide Leaf, Own, Entry, Sizes, Down, FreeOk;
    assert Own(m.own, p).Mid? ==> UpMid(m.tables, m.own, p, Own(m.own, p));
    assert Own(m.own, p).Low? ==> UpLow(m.tables, m.own, p, Own(m.own, p));
    assert Own(m.own, p).User? ==> Mapped(m.tables, m.own, p, Own(m.own, p));
  }

  // ----- user memory -----

  /** Page v of table r is mapped and accessible to the user. */
  predicate Accessible(m: Mem, r: nat, v: nat) {
    v < NVPN && Leaf(m.tables, r, v).v && Leaf(m.tables, r, v).perm.u
  }

  /** What entry e, for page v of table r, may map: a page of the user's own, or, without PTE_U, one of the kernel's. */
  predicate LeafOk(o: Owners, r: nat, v: nat, e: Pte) {
    var x := Own(o, e.ppn);
    e.v ==> x == User(r, v) || (!e.perm.u && (x.Kernel? || x.NotRam?))
  }

  /** No leaf maps a free page, a page-table page or a user page that belongs elsewhere. */
  ghost predicate LeavesOk(m: Mem) {
    forall r: nat, v: nat :: Own(m.own, r).Root? && v < NVPN ==> LeafOk(m.own, r, v, Leaf(m.tables, r, v))
  }

  /** The same, except perhaps for pages first..end-1 of table t. */
  ghost predicate LeavesBut(m: Mem, t: nat, first: nat, end: nat) {
    forall r: nat, v: nat :: Own(m.own, r).Root? && v < NVPN && !(r == t && first <= v < end) ==>
      LeafOk(m.own, r, v, Leaf(m.tables, r, v))
  }

  function Byte(bytes: map<nat, seq<nat>>, p: nat, i: nat): nat {
    if p in bytes && i < |bytes[p]| then bytes[p][i] else 0
  }

  /** The byte at user address a, when it is accessible. */
  function UByte(m: Mem, r: nat, a: nat): nat {
    Byte(m.bytes, Leaf(m.tables, r, a / PGSIZE).ppn, a % PGSIZE)
  }

  /** Byte i of a page with owner x is the byte at a user address of r from va up to, not including, end. */
  predicate Covered(x: Owner, i: nat, r: nat, va: nat, end: nat) {
    x.User? && x.root == r && va <= x.vpn * PGSIZE + i < end
  }

  /** Byte i of page p once data is stored at user address va of table r. */
  function ByteAfter(m: Mem, p: nat, i: nat, r: nat, va: nat, data: seq<nat>): nat {
    var x := Own(m.own, p);
    if Covered(x, i, r, va, va + |data|) then data[x.vpn * PGSIZE + i - va] else Byte(m.bytes, p, i)
  }

  /** The first k bytes of data were stored at user address va of table r, and nothing else changed. */
  ghost predicate Written(m: Mem, m': Mem, r: nat, va: nat, data: seq<nat>, k: nat) {
    && k <= |data| && m'.tables == m.tables && m'.own == m.own && m'.free == m.free && m'.bytes.Keys == m.bytes.Keys
    && (forall p :: p in m.bytes ==> |m'.bytes[p]| == |m.bytes[p]|)
    && (forall p: nat, i: nat :: i < PGSIZE ==> Byte(m'.bytes, p, i) == ByteAfter(m, p, i, r, va, data[..k]))
  }

  lemma {:induction false} WrittenNone(m: Mem, r: nat, va: nat, data: seq<nat>)
    ensures Written(m, m, r, va, data, 0)
  {
    hide Own;
  }

  function Splice(page: seq<nat>, off: nat, data: seq<nat>): (s: seq<nat>)
    requires off + |data| <= |page|
    ensures |s| == |page|
    ensures forall i :: 0 <= i < |page| ==> s[i] == if off <= i < off + |data| then data[i - off] else page[i]
  {
    page[..off] + data + page[off + |data|..]
  }

  /** The piece of data that falls into one page. */
  lemma {:induction false} WriteStep(m: Mem, m1: Mem, m2: Mem, r: nat, va: nat, data: seq<nat>, k: nat, n: nat, p: nat)
    requires Good(m) && Written(m, m1, r, va, data, k) && k + n <= |data|
    requires p in m1.bytes && Own(m.own, p) == User(r, (va + k) / PGSIZE) && (va + k) % PGSIZE + n <= PGSIZE
    requires |m1.bytes[p]| == PGSIZE
    requires m2 == m1.(bytes := m1.bytes[p := Splice(m1.bytes[p], (va + k) % PGSIZE, data[k..k + n])])
    ensures Written(m, m2, r, va, data, k + n)
  {
    hide Leaf, Sizes, Down, Up, FreeOk, Own;
    var v, off := (va + k) / PGSIZE, (va + k) % PGSIZE;
    assert va + k == v * PGSIZE + off;
    forall q: nat, i: nat | i < PGSIZE
      ensures Byte(m2.bytes, q, i) == if q == p && off <= i < off + n then data[k + (i - off)] else Byte(m1.bytes, q, i)
    {
    }
    hide Splice, Byte;
    forall q: nat, i: nat | i < PGSIZE
      ensures Byte(m2.bytes, q, i) == ByteAfter(m, q, i, r, va, data[..k + n])
    {
      if q != p && Own(m.own, q).User? && Own(m.own, q).root == r {
        assert Mapped(m.tables, m.own, q, Own(m.own, q)) && Mapped(m.tables, m.own, p, Own(m.own, p));
        OtherPage(v, off, n, Own(m.own, q).vpn, i);
      }
    }
  }

  /** Addresses of another page do not fall into the piece. */
  lemma {:induction false} OtherPage(v: nat, off: nat, n: nat, v': nat, i: nat)
    requires v' != v && off + n <= PGSIZE && i < PGSIZE
    ensures v' * PGSIZE + i < v * PGSIZE + off || v * PGSIZE + off + n <= v' * PGSIZE + i
  {
  }

  /**
   After the store, user addresses in range read back data, and all other user addresses
   of all tables what they did.
   */
  lemma {:induction false} WrittenReads(m: Mem, m': Mem, r: nat, va: nat, data: seq<nat>, k: nat, q: nat, a: nat)
    requires LeavesOk(m) && Written(m, m', r, va, data, k) && Own(m.own, q).Root? && Accessible(m, q, a / PGSIZE)
    ensures UByte(m', q, a) == if q == r && va <= a < va + k then data[a - va] else UByte(m, q, a)
  {
    hide Leaf, Byte, Own;
    assert (a / PGSIZE) * PGSIZE + a % PGSIZE == a;
    assert LeafOk(m.own, q, a / PGSIZE, Leaf(m.tables, q, a / PGSIZE));
  }

  lemma {:induction false} WrittenGood(m: Mem, m': Mem, r: nat, va: nat, data: seq<nat>, k: nat)
    requires Good(m) && Written(m, m', r, va, data, k)
    ensures Good(m')
  {
    hide Tree, FreeOk, Own, Byte;
    assert forall p :: p in m'.bytes <==> p in m.bytes;
  }

  // ----- memory is partitioned -----

  lemma {:induction false} LeavesAlloc(m: Mem, p: nat, x: Owner)
    requires LeavesOk(m) && Own(m.own, p).Free? && !x.Root?
    ensures LeavesOk(m.(own := m.own[p := x]))
  {
    OwnAt(m.own, p, x);
    hide Leaf, Own;
    forall r: nat, v: nat | Own(m.own[p := x], r).Root? && v < NVPN
      ensures LeafOk(m.own[p := x], r, v, Leaf(m.tables, r, v))
    {
      assert LeafOk(m.own, r, v, Leaf(m.tables, r, v));
    }
  }

  lemma {:induction false} LeavesFresh(m: Mem, m': Mem, p: nat)
    requires LeavesOk(m) && Own(m.own, p).Free? && m'.own == m.own[p := Root]
    requires SameLeaves(m.tables, m'.tables, m.own) && forall v: nat :: Leaf(m'.tables, p, v) == INVALID
    ensures LeavesOk(m')
  {
    OwnAt(m.own, p, Root);
    hide Leaf, Own;
    forall r: nat, v: nat | Own(m'.own, r).Root? && v < NVPN ensures LeafOk(m'.own, r, v, Leaf(m'.tables, r, v)) {
      assert r != p ==> LeafOk(m.own, r, v, Leaf(m.tables, r, v));
    }
  }

  lemma {:induction false} LeavesTables(m: Mem, m': Mem, t: nat)
    requires LeavesOk(m) && OnlyTables(m, m', t) && SameLeaves(m.tables, m'.tables, m.own)
    ensures LeavesOk(m')
  {
    hide Leaf, Own;
    forall r: nat, v: nat | Own(m'.own, r).Root? && v < NVPN ensures LeafOk(m'.own, r, v, Leaf(m'.tables, r, v)) {
      assert LeafOk(m.own, r, v, Leaf(m.tables, r, v));
    }
  }

  /** The pages that mappages maps from ppn on belong to the kernel; those outside memory are not for the user. */
  ghost predicate Mappable(o: Owners, ppn: nat, n: nat, perm: Perm) {
    forall p: nat :: ppn <= p < ppn + n ==> Own(o, p).Kernel? || (Own(o, p).NotRam? && !perm.u)
  }

  lemma {:induction false} LeavesMapped(m: Mem, m': Mem, t: nat, first: nat, k: nat, ppn: nat, perm: Perm)
    requires LeavesOk(m) && OnlyTables(m, m', t) && MapsRange(m.tables, m'.tables, m.own, t, first, k, ppn, perm)
    requires first <= k && Mappable(m.own, ppn, k - first, perm)
    ensures LeavesBut(m', t, first, k) && (!perm.u ==> LeavesOk(m'))
  {
    hide Leaf, Own;
    forall r: nat, v: nat | Own(m'.own, r).Root? && v < NVPN
      ensures !(perm.u && r == t && first <= v < k) ==> LeafOk(m'.own, r, v, Leaf(m'.tables, r, v))
    {
      assert LeafOk(m.own, r, v, Leaf(m.tables, r, v));
      if r == t && first <= v < k { assert Own(m.own, ppn + (v - first)) == Own(m'.own, ppn + (v - first)); }
    }
  }

  lemma {:induction false} LeavesUnmapped(m: Mem, m': Mem, t: nat, first: nat, end: nat)
    requires LeavesOk(m) && Unmapped(m, m', t, first, end)
    ensures LeavesOk(m')
  {
    hide Leaf, Own;
    forall r: nat, v: nat | Own(m'.own, r).Root? && v < NVPN ensures LeafOk(m'.own, r, v, Leaf(m'.tables, r, v)) {
      assert LeafOk(m.own, r, v, Leaf(m.tables, r, v));
    }
  }

  lemma {:induction false} LeavesGrown(m: Mem, m': Mem, t: nat, first: nat, want: seq<Image>)
    requires LeavesOk(m) && Grown(m, m', t, first, want)
    ensures LeavesOk(m')
  {
    hide Leaf, Own;
    forall r: nat, v: nat | Own(m'.own, r).Root? && v < NVPN ensures LeafOk(m'.own, r, v, Leaf(m'.tables, r, v)) {
      assert LeafOk(m.own, r, v, Leaf(m.tables, r, v));
      if r == t && first <= v < first + |want| { assert HasPage(m, m', t, first + (v - first), want[v - first]); }
    }
  }

  lemma {:induction false} LeavesGone(m: Mem, m': Mem, t: nat)
    requires LeavesOk(m) && Own(m.own, t).Root? && Gone(m, m', t)
    ensures LeavesOk(m')
  {
    hide Leaf, Own;
    forall r: nat, v: nat | Own(m'.own, r).Root? && v < NVPN ensures LeafOk(m'.own, r, v, Leaf(m'.tables, r, v)) {
      assert LeafOk(m.own, r, v, Leaf(m.tables, r, v));
    }
  }

  lemma {:induction false} LeavesRestored(m: Mem, m': Mem)
    requires LeavesOk(m) && Restored(m, m')
    ensures LeavesOk(m')
  {
    hide Leaf, Own;
    forall r: nat, v: nat | Own(m'.own, r).Root? && v < NVPN ensures LeafOk(m'.own, r, v, Leaf(m'.tables, r, v)) {
      assert LeafOk(m.own, r, v, Leaf(m.tables, r, v));
    }
  }

  /** Page v of table r is mapped to physical page p. */
  predicate Maps(m: Mem, r: nat, v: nat, p: nat) {
    Own(m.own, r).Root? && v < NVPN && Leaf(m.tables, r, v).v && Leaf(m.tables, r, v).ppn == p
  }

  /** Entry i of page-table page q points to page p. */
  predicate PointsTo(m: Mem, q: nat, i: nat, p: nat) {
    (Own(m.own, q).Root? || Own(m.own, q).Mid?) && Entry(m.tables, q, i) == Pointer(p)
  }

  /** Exactly one entry of one page-table page points to p. */
  ghost predicate HangsOnce(m: Mem, p: nat) {
    exists q: nat, i: nat :: PointsTo(m, q, i, p) && forall q': nat, i': nat ::
      PointsTo(m, q', i', p) ==> q' == q && i' == i
  }

  lemma {:induction false} Hangs(m: Mem, p: nat)
    requires Good(m) && (Own(m.own, p).Mid? || Own(m.own, p).Low?)
    ensures HangsOnce(m, p)
  {
    hide Leaf, Sizes, FreeOk, UserOk, Entry, Own;
    var x := Own(m.own, p);
    if x.Mid? {
      assert UpMid(m.tables, m.own, p, x);
      assert PointsTo(m, x.root, x.i, p);
    } else {
      assert UpLow(m.tables, m.own, p, x);
      var q := Entry(m.tables, x.root, x.i).ppn;
      assert PointsTo(m, q, x.j, p);
      forall q': nat, i': nat | PointsTo(m, q', i', p) ensures q' == q && i' == x.j {
        assert Own(m.own, q').Mid? ==> UpMid(m.tables, m.own, q', Own(m.own, q'));
      }
    }
  }

  /**
   Every page is in one of five classes. A page of the free list is mapped
   nowhere and is no page table. A page-table page below a root hangs at
   exactly one entry and is mapped nowhere. A user page is mapped at exactly
   one page of one table. A page the kernel holds is not mapped for the user.
   */
  lemma {:induction false} Partition(m: Mem, p: nat)
    requires Good(m) && LeavesOk(m)
    ensures p in m.free <==> Own(m.own, p).Free?
    ensures p in m.tables <==> IsTable(Own(m.own, p))
    ensures Own(m.own, p).Free? || IsTable(Own(m.own, p)) ==> forall r: nat, v: nat :: !Maps(m, r, v, p)
    ensures !Own(m.own, p).Mid? && !Own(m.own, p).Low? ==> forall q: nat, i: nat :: !PointsTo(m, q, i, p)
    ensures Own(m.own, p).Mid? || Own(m.own, p).Low? ==> HangsOnce(m, p)
    ensures Own(m.own, p).User? ==> forall r: nat, v: nat :: Maps(m, r, v, p) <==> Own(m.own, p) == User(r, v)
    ensures Own(m.own, p).Kernel? || Own(m.own, p).NotRam? ==>
      forall r: nat, v: nat :: Maps(m, r, v, p) ==> !Leaf(m.tables, r, v).perm.u
  {
    hide Leaf, HangsOnce;
    if Own(m.own, p).Mid? || Own(m.own, p).Low? { Hangs(m, p); }
    hide Entry;
    forall r: nat, v: nat | Maps(m, r, v, p) ensures LeafOk(m.own, r, v, Leaf(m.tables, r, v)) {
    }
    assert Own(m.own, p).User? ==> Mapped(m.tables, m.own, p, Own(m.own, p));
  }
}
