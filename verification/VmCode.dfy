/**
 The code of kernel/kalloc.c and kernel/vm.c on one machine: the linked free
 list, page-table pages changed entry by entry, and the loops over pages.
 Virtual addresses are handled by page number, va / PGSIZE.
 */
module VmCode {
  import opened Vm

  /** freelist and next lead through the pages of free, ending in 0. */
  ghost predicate Linked(free: seq<nat>, freelist: nat, next: map<nat, nat>) {
    if free == [] then freelist == 0
    else freelist == free[0] && freelist in next && Linked(free[1..], next[freelist], next)
  }

  lemma {:induction false} LinkedFrame(free: seq<nat>, freelist: nat, next: map<nat, nat>, p: nat, x: nat)
    requires Linked(free, freelist, next) && p !in free
    ensures Linked(free, freelist, next[p := x])
  {
    if free != [] { LinkedFrame(free[1..], next[freelist], next, p, x); }
  }

  lemma {:induction false} LinkedPush(free: seq<nat>, freelist: nat, next: map<nat, nat>, p: nat)
    requires Linked(free, freelist, next) && p !in free
    ensures Linked([p] + free, p, next[p := freelist])
  {
    LinkedFrame(free, freelist, next, p, freelist);
    assert ([p] + free)[1..] == free;
  }

  /** How mappages ends */
  datatype MapEnd = Done | NoMemory | Panic

  class Machine {
    const lo: nat
    const hi: nat
    var freelist: nat
    var next: map<nat, nat>
    var tables: Tables
    var bytes: map<nat, seq<nat>>
    ghost var free: seq<nat>
    ghost var own: Owners

    ghost function M(): Mem
      reads this
    {
      Mem(tables, bytes, free, own)
    }

    /** The allocator's own invariant: every page of RAM has an owner, the free list is linked and exact. */
    ghost predicate Phys()
      reads this
    {
      && 0 < lo && (forall p: nat :: p in own <==> lo <= p < hi)
      && Linked(free, freelist, next) && FreeOk(free, own)
    }

    /** The page tables are trees and the free list is exact; leaves may still map pages that have been given up. */
    ghost predicate Sound()
      reads this
    {
      Phys() && Good(M())
    }

    /** Moreover every leaf maps a page that it may map, so that physical memory is partitioned. */
    ghost predicate Valid()
      reads this
    {
      Sound() && LeavesOk(M())
    }

    method Kalloc() returns (p: nat)
      requires Sound()
      modifies this
      ensures Sound() && (old(Valid()) ==> Valid())
      ensures old(free) == [] ==> p == 0 && M() == old(M())
      ensures old(free) != [] ==> p == old(free)[0] && p in own && p != 0 && M() == Alloc(old(M()))
    {
      if freelist != 0 {
        AllocGood(M());
        assert free[0] in free;
        hide Good, Leaf;
        if LeavesOk(M()) { LeavesAlloc(M(), free[0], Kernel); }
        hide LeavesOk;
        p := freelist;
        freelist := next[p];
        bytes := bytes[p := Fill(5)];
        free, own := free[1..], own[p := Kernel];
        AllocFree(old(free), old(own));
        hide FreeOk;
      } else {
        assert forall k :: 0 <= k < |free| ==> free[k] in free && free[k] in own;
        p := 0;
      }
    }

    method Kfree(p: nat)
      requires Phys() && p in own && !own[p].Free?
      modifies this
      ensures Phys() && M() == Release(old(M()), p)
    {
      ReleaseFree(free, own, p);
      LinkedPush(free, freelist, next, p);
      hide Linked;
      tables := tables - {p};
      bytes := bytes[p := Fill(1)];
      next := next[p := freelist];
      freelist := p;
      free, own := [p] + free, own[p := Free];
      hide FreeOk;
    }

    /** kinit: every page from lo to hi goes to the free list. */
    constructor (first: nat, end: nat)
      requires 0 < first <= end
      ensures Valid() && lo == first && hi == end
      ensures forall p: nat :: first <= p < end ==> Own(own, p).Free?
    {
      lo, hi, freelist, next, tables, bytes := first, end, 0, map[], map[], map[];
      free, own := [], map[];
      new;
      var p := first;
      while p < end
        invariant first <= p <= end && tables == map[]
        invariant forall q: nat :: q in own <==> first <= q < p
        invariant forall q :: q in own ==> own[q] == Free
        invariant forall q: nat :: q in bytes <==> first <= q < p
        invariant forall q :: q in bytes ==> |bytes[q]| == PGSIZE
        invariant Linked(free, freelist, next) && FreeOk(free, own)
      {
        ReleaseFree(free, own, p);
        LinkedPush(free, freelist, next, p);
        hide Linked;
        bytes := bytes[p := Fill(1)];
        next := next[p := freelist];
        freelist := p;
        free, own := [p] + free, own[p := Free];
        p := p + 1;
      }
      assert forall q: nat :: !IsTable(Own(own, q)) && !Own(own, q).User?;
    }

    method GetFreeMem() returns (n: nat)
      requires Valid()
      ensures n == PGSIZE * |set p | p in own && own[p].Free?|
    {
      n := 0;
      var r := freelist;
      ghost var k := 0;
      while r != 0
        invariant 0 <= k <= |free| && n == PGSIZE * k
        invariant Linked(free[k..], r, next)
        decreases |free| - k
      {
        assert free[k..][1..] == free[k + 1..];
        r := next[r];
        n := n + PGSIZE;
        k := k + 1;
      }
      assert forall i :: 0 <= i < |free| ==> free[i] in free && free[i] in own;
      FreeCount(free, own);
    }

    // ----- walking the tree -----

    /** One level of walk: follow entry i of page q, making the table below it if asked to. */
    method Descend(q: nat, i: nat, alloc: bool, ghost x: Owner) returns (ok: bool, p: nat)
      requires Sound() && i < 512
      requires (Own(own, q).Root? && x == Mid(q, i) && i < 256) ||
        (Own(own, q).Mid? && x == Low(Own(own, q).root, Own(own, q).i, i))
      modifies this
      ensures Sound() && OnlyTables(old(M()), M(), x.root) && SameLeaves(old(tables), tables, old(own))
      ensures ok ==> Entry(tables, q, i) == Pointer(p) && Own(own, p) == x
      ensures forall u: nat, k: nat :: (u != q || k != i) ==> Entry(tables, u, k) == old(Entry(tables, u, k))
      ensures !ok || !alloc || old(Entry(tables, q, i).v) ==> M() == old(M())
      ensures ok == (old(Entry(tables, q, i).v) || (alloc && old(free) != []))
    {
      hide Linked, Leaf, FreeOk, Up, UserOk;
      assert q in tables && |tables[q]| == 512;
      var e := tables[q][i];
      if e.v {
        return true, e.ppn;
      }
      hide Down, Sizes, Tree;
      if !alloc {
        return false, 0;
      }
      ok, p := MakeTable(q, i, x);
    }

    /** kalloc a page, zero it and hang it below entry i of page q. */
    method MakeTable(q: nat, i: nat, ghost x: Owner) returns (ok: bool, p: nat)
      requires Sound() && i < 512 && q in tables && |tables[q]| == 512 && !Entry(tables, q, i).v
      requires (Own(own, q).Root? && x == Mid(q, i) && i < 256) ||
        (Own(own, q).Mid? && x == Low(Own(own, q).root, Own(own, q).i, i))
      modifies this
      ensures Sound() && OnlyTables(old(M()), M(), x.root) && SameLeaves(old(tables), tables, old(own))
      ensures ok ==> Entry(tables, q, i) == Pointer(p) && Own(own, p) == x
      ensures forall u: nat, k: nat :: (u != q || k != i) ==> Entry(tables, u, k) == old(Entry(tables, u, k))
      ensures !ok ==> M() == old(M())
      ensures ok == (old(free) != [])
    {
      hide Linked, Leaf, FreeOk, Tree, Sizes, Entry, OnlyTables, SameLeaves;
      SameLeavesRefl(M(), x.root);
      if free != [] {
        NewTableGood(M(), q, i, x);
        AllocGood(M());
        HeadNot(M(), q);
      }
      p := Kalloc();
      if p == 0 {
        return false, 0;
      }
      Hang(p, q, i, x);
      assert bytes == old(bytes)[p := Fill(0)] && own == old(own)[p := x];
      assert M() == NewTable(old(M()), q, i, x);
      hide NewTable;
      ok := true;
    }

    /** Zero page p and point entry i of page q to it. */
    method Hang(p: nat, q: nat, i: nat, ghost x: Owner)
      requires Sound() && i < 512 && q in tables && |tables[q]| == 512 && p != q && Own(own, p).Kernel? && !x.Free?
      modifies this
      ensures Phys() && free == old(free) && tables == AddTable(old(tables), q, i, p)
      ensures bytes == old(bytes)[p := Fill(0)] && own == old(own)[p := x]
    {
      hide Linked, Tree, Sizes;
      RetagFree(free, own, p, x);
      hide FreeOk;
      bytes := bytes[p := Fill(0)];
      tables := tables[p := Zeros()];
      tables := tables[q := tables[q][i := Pointer(p)]];
      own := own[p := x];
    }

    lemma StillValid(was: bool, m: Mem, r: nat)
      requires Sound() && (was ==> LeavesOk(m)) && OnlyTables(m, M(), r) && SameLeaves(m.tables, tables, m.own)
      ensures was ==> Valid()
    {
      hide Good, Phys, Leaf, SameLeaves, OnlyTables, LeavesOk;
      if was { LeavesTables(m, M(), r); }
    }

    method Walk(r: nat, va: nat, alloc: bool) returns (ok: bool, q: nat)
      requires Sound() && Own(own, r).Root? && va / PGSIZE < NVPN
      modifies this
      ensures Sound() && (old(Valid()) ==> Valid())
      ensures OnlyTables(old(M()), M(), r) && SameLeaves(old(tables), tables, old(own))
      ensures ok ==> SlotReady(tables, own, r, va / PGSIZE) && q == LowPage(tables, r, va / PGSIZE)
      ensures !alloc ==> M() == old(M()) && ok == HasLow(tables, r, va / PGSIZE)
      ensures alloc && !ok ==> free == [] && !HasLow(tables, r, va / PGSIZE)
    {
      ghost var vpn := va / PGSIZE;
      PXByPage(va);
      I2Bound(vpn);
      hide Good, Phys, LeavesOk, Leaf, PX, I2, I1, I0, SameLeaves, OnlyTables;
      SameLeavesRefl(M(), r);
      q := r;
      var level := 2;
      while level > 0
        invariant 0 <= level <= 2 && Sound()
        invariant OnlyTables(old(M()), M(), r) && SameLeaves(old(tables), tables, old(own))
        invariant !alloc ==> M() == old(M())
        invariant level == 2 ==> q == r
        invariant level == 1 ==> Entry(tables, r, I2(vpn)) == Pointer(q) && Own(own, q) == Mid(r, I2(vpn))
        invariant level == 0 ==> HasLow(tables, r, vpn) && q == LowPage(tables, r, vpn)
        invariant Own(own, r).Root?
      {
        ghost var was, p := M(), q;
        if level == 2 {
          ok, q := Descend(q, PX(2, va), alloc, Mid(r, I2(vpn)));
        } else {
          ok, q := Descend(q, PX(1, va), alloc, Low(r, I2(vpn), I1(vpn)));
        }
        OnlyTablesTrans(old(M()), was, M(), r);
        SameLeavesTrans(old(M()), was, M(), r);
        RootStays(was, M(), r, r);
        if !ok {
          StillValid(old(Valid()), old(M()), r);
          return;
        }
        level := level - 1;
      }
      StillValid(old(Valid()), old(M()), r);
      PathReady(M(), r, vpn);
      ok := true;
    }

    /** *pte = e, where pte is the slot of page vpn, in page-table page q. */
    method StoreLeaf(ghost r: nat, vpn: nat, q: nat, e: Pte)
      requires Sound() && SlotReady(tables, own, r, vpn) && q == LowPage(tables, r, vpn) && (e.v ==> IsLeaf(e))
      requires forall p: nat :: Own(own, p) != User(r, vpn)
      modifies `tables
      ensures Sound() && LeafSet(old(tables), tables, own, r, vpn, e)
    {
      SetLeafGood(M(), r, vpn, e);
      hide Good, LeafSet, HasLow, LowPage, Own, Linked, FreeOk;
      tables := tables[q := tables[q][I0(vpn) := e]];
    }

    /**
     Map the pages that hold [va, va + size) to consecutive physical pages from
     pa. If memory runs out a prefix of the range, up to page k, stays mapped. The
     panics are for an empty range, a page beyond MAXVA and a page already mapped.
     */
    method Mappages(r: nat, va: nat, size: nat, pa: nat, perm: Perm) returns (end: MapEnd, ghost k: nat)
      requires Sound() && Own(own, r).Root? && (perm.r || perm.w || perm.x)
      modifies this
      ensures Sound() && OnlyTables(old(M()), M(), r) && va / PGSIZE <= k
      ensures MapsRange(old(tables), tables, old(own), r, va / PGSIZE, k, pa / PGSIZE, perm)
      ensures Vacant(old(tables), r, va / PGSIZE, k)
      ensures end.Done? <==> size > 0 && k == (va + size - 1) / PGSIZE + 1
      ensures !end.Done? && size > 0 ==> k <= (va + size - 1) / PGSIZE
      ensures end.NoMemory? ==> free == [] && k < NVPN && !Leaf(old(tables), r, k).v
      ensures end.Panic? ==> size == 0 || k >= NVPN || Leaf(old(tables), r, k).v
      ensures old(Valid()) && Mappable(old(own), pa / PGSIZE, k - va / PGSIZE, perm) ==>
        LeavesBut(M(), r, va / PGSIZE, k) && (!perm.u ==> Valid())
    {
      hide Good, Phys, LeavesOk, LeavesBut, Leaf, MapsRange, OnlyTables, SameLeaves, LeafSet, SlotReady, Mappable,
        Vacant;
      var a, ppn := va / PGSIZE, pa / PGSIZE;
      VacantNone(tables, r, a);
      MapsNone(M(), r, a, ppn, perm);
      MapsValid(old(Valid()), old(M()), r, va / PGSIZE, a, pa / PGSIZE, perm);
      if size == 0 {
        return Panic, a;
      }
      var last := (va + size - 1) / PGSIZE;
      while true
        invariant va / PGSIZE <= a <= last && ppn == pa / PGSIZE + (a - va / PGSIZE)
        invariant Sound() && OnlyTables(old(M()), M(), r) && Own(own, r).Root?
        invariant MapsRange(old(tables), tables, old(own), r, va / PGSIZE, a, pa / PGSIZE, perm)
        invariant Vacant(old(tables), r, va / PGSIZE, a)
        decreases last - a
      {
        ghost var m1 := M();
        MapsValid(old(Valid()), old(M()), r, va / PGSIZE, a, pa / PGSIZE, perm);
        if a >= NVPN {
          return Panic, a;
        }
        var ok, q := Walk(r, a * PGSIZE, true);
        OnlyTablesTrans(old(M()), m1, M(), r);
        RootStays(old(M()), M(), r, r);
        MapsKept(old(M()), m1, M(), r, va / PGSIZE, a, pa / PGSIZE, perm);
        MapsValid(old(Valid()), old(M()), r, va / PGSIZE, a, pa / PGSIZE, perm);
        ghost var m2 := M();
        StillLeaf(old(M()), m2, r, va / PGSIZE, a, pa / PGSIZE, perm);
        if !ok {
          NoLeaf(tables, r, a);
          return NoMemory, a;
        }
        ReadyEntry(m2, r, a);
        if tables[q][I0(a)].v {
          return Panic, a;
        }
        StillUnmapped(old(M()), m1, m2, r, va / PGSIZE, a, pa / PGSIZE, perm);
        StoreLeaf(r, a, q, Pte(true, ppn, perm));
        MapStep(old(M()), m1, m2, tables, r, va / PGSIZE, a, pa / PGSIZE, perm);
        TablesOnly(old(M()), m2, tables, r);
        VacantStep(old(tables), r, va / PGSIZE, a);
        if a == last {
          MapsValid(old(Valid()), old(M()), r, va / PGSIZE, a + 1, pa / PGSIZE, perm);
          return Done, a + 1;
        }
        a, ppn := a + 1, ppn + 1;
      }
    }

    lemma MapsValid(was: bool, m: Mem, r: nat, first: nat, k: nat, ppn: nat, perm: Perm)
      requires Sound() && (was ==> LeavesOk(m)) && OnlyTables(m, M(), r) && first <= k
      requires MapsRange(m.tables, tables, m.own, r, first, k, ppn, perm)
      ensures was && Mappable(m.own, ppn, k - first, perm) ==> LeavesBut(M(), r, first, k) && (!perm.u ==> Valid())
    {
      hide Good, Phys, Leaf, MapsRange, OnlyTables, LeavesOk, LeavesBut, Mappable;
      if was && Mappable(m.own, ppn, k - first, perm) { LeavesMapped(m, M(), r, first, k, ppn, perm); }
    }

    /** The body of uvmunmap's loop. */
    method UnmapOne(r: nat, vpn: nat, doFree: bool)
      requires Sound() && Own(own, r).Root? && vpn < NVPN && IsLeaf(Leaf(tables, r, vpn))
      requires if doFree then Own(own, Leaf(tables, r, vpn).ppn) == User(r, vpn) else forall p: nat ::
        Own(own, p) != User(r, vpn)
      modifies this
      ensures Sound() && Unmapped(old(M()), M(), r, vpn, vpn + 1)
    {
      hide FreeOk, Linked, Unmapped, LeafSet, Up, Down, UserOk, Release;
      var ok, q := Walk(r, vpn * PGSIZE, false);
      assert q in tables && |tables[q]| == 512;
      var e := tables[q][I0(vpn)];
      assert e == Leaf(tables, r, vpn);
      hide Leaf, HasLow, LowPage;
      if doFree {
        assert e.ppn in own;
        ReleaseGood(M(), e.ppn);
        OwnerGone(M(), r, vpn);
        Kfree(e.ppn);
      }
      hide Sizes, Tree;
      ghost var m1 := M();
      StoreLeaf(r, vpn, q, INVALID);
      UnmapOneSpec(old(M()), m1, tables, r, vpn);
    }

    method Uvmunmap(r: nat, va: nat, npages: nat, doFree: bool)
      requires Sound() && Own(own, r).Root? && va % PGSIZE == 0 && va / PGSIZE + npages <= NVPN
      requires forall v :: va / PGSIZE <= v < va / PGSIZE + npages ==> IsLeaf(Leaf(tables, r, v))
      requires forall v :: va / PGSIZE <= v < va / PGSIZE + npages ==>
        if doFree then Own(own, Leaf(tables, r, v).ppn) == User(r, v) else forall p: nat :: Own(own, p) != User(r, v)
      modifies this
      ensures Sound() && (old(Valid()) ==> Valid())
      ensures Unmapped(old(M()), M(), r, va / PGSIZE, va / PGSIZE + npages)
    {
      hide Good, Phys, LeavesOk, Unmapped, Leaf;
      var first, a := va / PGSIZE, va / PGSIZE;
      UnmappedNone(M(), r, first);
      while a < first + npages
        invariant first <= a <= first + npages
        invariant Sound() && Unmapped(old(M()), M(), r, first, a)
      {
        ghost var m1 := M();
        UnmapNext(old(M()), M(), r, first, a);
        UnmapOne(r, a, doFree);
        UnmappedTrans(old(M()), m1, M(), r, first, a, a + 1);
        a := a + 1;
      }
      if old(Valid()) { LeavesUnmapped(old(M()), M(), r, first, a); }
    }

    // ----- address spaces -----

    /** An empty page table, or 0 when memory is out. */
    method Uvmcreate() returns (p: nat)
      requires Valid()
      modifies this
      ensures Valid() && (p == 0 <==> old(free) == [])
      ensures p == 0 ==> M() == old(M())
      ensures p != 0 ==> p in old(own) && old(own[p].Free?) && own == old(own)[p := Root]
      ensures p != 0 ==> bytes == old(bytes)[p := Fill(0)]
      ensures p != 0 ==> (forall v: nat :: Leaf(tables, p, v) == INVALID) && SameLeaves(old(tables), tables, old(own))
    {
      hide Linked, LeavesOk, Leaf, FreeOk, Tree, Sizes, SameLeaves;
      if free != [] { NewRootGood(M()); }
      p := Kalloc();
      if p != 0 {
        bytes := bytes[p := Fill(0)];
        tables := tables[p := Zeros()];
        own := own[p := Root];
        assert old(own)[p := Kernel][p := Root] == old(own)[p := Root];
        LeavesFresh(old(M()), M(), p);
        assert bytes == old(bytes)[p := Fill(0)] && own == old(own)[p := Root];
      }
    }

    /** Deallocate user pages to bring the process size from oldsz to newsz. */
    method Uvmdealloc(r: nat, oldsz: nat, newsz: nat) returns (sz: nat)
      requires Sound() && Own(own, r).Root? && PagesOf(oldsz) <= NVPN
      requires forall v :: PagesOf(newsz) <= v < PagesOf(oldsz) ==>
        IsLeaf(Leaf(tables, r, v)) && Own(own, Leaf(tables, r, v).ppn) == User(r, v)
      modifies this
      ensures Sound() && (old(Valid()) ==> Valid())
      ensures sz == (if newsz >= oldsz then oldsz else newsz)
      ensures newsz >= oldsz ==> M() == old(M())
      ensures newsz < oldsz ==> Unmapped(old(M()), M(), r, PagesOf(newsz), PagesOf(oldsz))
    {
      hide Good, Phys, LeavesOk, Unmapped, Leaf;
      if newsz >= oldsz {
        return oldsz;
      }
      assert PagesOf(newsz) <= PagesOf(oldsz);
      if PagesOf(newsz) < PagesOf(oldsz) {
        var npages := PagesOf(oldsz) - PagesOf(newsz);
        Uvmunmap(r, PagesOf(newsz) * PGSIZE, npages, true);
      } else {
        UnmappedNone(M(), r, PagesOf(newsz));
      }
      return newsz;
    }

    /** One new user page at page a of table r: kalloc, fill, mappages; on failure nothing is kept but page tables. */
    method AddPage(r: nat, a: nat, img: Image, ghost m: Mem, ghost first: nat, ghost want: seq<Image>)
      returns (ok: bool)
      requires Valid() && Own(own, r).Root? && a < NVPN && !Leaf(tables, r, a).v
      requires (img.perm.r || img.perm.w || img.perm.x) && |img.data| == PGSIZE
      requires Grown(m, M(), r, first, want) && a == first + |want| && Own(m.own, r).Root? && LeavesOk(m)
      modifies this
      ensures Valid() && Own(own, r).Root?
      ensures ok ==> Grown(m, M(), r, first, want + [img])
      ensures !ok ==> OnlyTables(old(M()), M(), r) && SameLeaves(old(tables), tables, old(own))
    {
      hide Linked, LeavesOk, LeavesBut, Leaf, FreeOk, Tree, Sizes, Grown, MapsRange, SameLeaves, OnlyTables;
      SameLeavesRefl(M(), r);
      var mem := Kalloc();
      if mem == 0 {
        return false;
      }
      assert Own(old(own), mem).Free? by { AllocGood(old(M())); }
      ghost var m1 := M();
      bytes := bytes[mem := img.data];
      LeavesSame(m1, M());
      FilledGood(old(M()), mem, img.data);
      assert bytes == old(bytes)[mem := img.data];
      OwnAt(old(own), mem, Kernel);
      ghost var m2 := M();
      ghost var k;
      var end;
      end, k := Mappages(r, a * PGSIZE, PGSIZE, mem * PGSIZE, img.perm);
      ok := end.Done?;
      RootStays(m2, M(), r, r);
      MappedHere(m2, M(), r, a, k, mem, img.perm);
      if !ok {
        AddPageUndo(old(M()), m2, M(), r, a, mem, img.perm);
        ReleaseGood(M(), mem);
        OwnAt(own, mem, Free);
        Kfree(mem);
        LeavesTables(old(M()), M(), r);
        return false;
      }
      GrowStep(m, old(M()), m2, M(), r, first, want, img, mem);
      HandOver(M(), mem, r, a);
      OwnAt(own, mem, User(r, a));
      own := own[mem := User(r, a)];
      LeavesGrown(m, M(), r, first, want + [img]);
    }

    /**
     Grow from oldsz to newsz bytes with zeroed pages. On failure 0 is returned,
     every translation is as before and every user page is back on the free list.
     */
    method Uvmalloc(r: nat, oldsz: nat, newsz: nat, xperm: Perm) returns (sz: nat, ghost ok: bool)
      requires Valid() && Own(own, r).Root? && PagesOf(newsz) <= NVPN
      requires forall v :: PagesOf(oldsz) <= v < PagesOf(newsz) ==> Leaf(tables, r, v) == INVALID
      modifies this
      ensures Valid()
      ensures newsz < oldsz ==> ok && sz == oldsz && M() == old(M())
      ensures newsz >= oldsz && ok ==> sz == newsz
      ensures newsz >= oldsz && ok ==>
        Grown(old(M()), M(), r, PagesOf(oldsz), Blank(xperm, PagesOf(newsz) - PagesOf(oldsz)))
      ensures !ok ==> sz == 0 && OnlyTables(old(M()), M(), r) && SameLeaves(old(tables), tables, old(own))
    {
      hide Good, Phys, LeavesOk, Leaf, Grown, OnlyTables, SameLeaves;
      if newsz < oldsz {
        return oldsz, true;
      }
      var first, a := PagesOf(oldsz), PagesOf(oldsz);
      GrownNone(M(), r, first);
      assert Blank(xperm, 0) == [];
      while a * PGSIZE < newsz
        invariant first <= a <= PagesOf(newsz)
        invariant Valid() && Grown(old(M()), M(), r, first, Blank(xperm, a - first))
      {
        GrownNext(old(M()), M(), r, first, Blank(xperm, a - first));
        ghost var m1 := M();
        var done := AddPage(r, a, Image(xperm.(r := true, u := true), Fill(0)),
          old(M()), first, Blank(xperm, a - first));
        if !done {
          GrownKept(old(M()), m1, M(), r, first, Blank(xperm, a - first));
          UndoGrow(r, first, a, old(M()), Blank(xperm, a - first));
          return 0, false;
        }
        assert Blank(xperm, a - first) + [Image(xperm.(r := true, u := true), Fill(0))] == Blank(xperm, a + 1 - first);
        a := a + 1;
      }
      assert a == PagesOf(newsz);
      return newsz, true;
    }

    /** uvmdealloc(pagetable, a, oldsz) on the error path. */
    method UndoGrow(r: nat, first: nat, a: nat, ghost m: Mem, ghost want: seq<Image>)
      requires Valid() && Good(m) && Own(m.own, r).Root? && first <= a <= NVPN
      requires Grown(m, M(), r, first, want) && a == first + |want|
      requires forall i :: 0 <= i < |want| ==> want[i].perm.r
      requires forall v :: first <= v < a ==> Leaf(m.tables, r, v) == INVALID
      modifies this
      ensures Valid() && OnlyTables(m, M(), r) && SameLeaves(m.tables, tables, m.own)
    {
      hide Good, Phys, LeavesOk, Leaf, Grown, OnlyTables, SameLeaves, Unmapped;
      GrownUnmappable(m, M(), r, first, want);
      ghost var m1 := M();
      UnmappedNone(M(), r, first);
      assert PagesOf(a * PGSIZE) == a && PagesOf(first * PGSIZE) == first;
      var _ := Uvmdealloc(r, a * PGSIZE, first * PGSIZE);
      Rollback(m, m1, M(), r, first, want);
    }

    /**
     Copy the parent's pages below sz into the child's table. On failure every
     translation is as before and every copied page is back on the free list.
     */
    method Uvmcopy(parent: nat, child: nat, sz: nat) returns (ok: bool)
      requires Valid() && Own(own, parent).Root? && Own(own, child).Root? && parent != child && PagesOf(sz) <= NVPN
      requires forall v :: 0 <= v < PagesOf(sz) ==> UserPage(M(), parent, v) && Leaf(tables, child, v) == INVALID
      modifies this
      ensures Valid()
      ensures ok ==> Grown(old(M()), M(), child, 0, Copies(old(M()), parent, PagesOf(sz)))
      ensures !ok ==> OnlyTables(old(M()), M(), child) && SameLeaves(old(tables), tables, old(own))
    {
      hide Good, Phys, LeavesOk, Leaf, Grown, OnlyTables, SameLeaves, Unmapped;
      ghost var m := M();
      GrownNone(m, child, 0);
      var a := 0;
      while a * PGSIZE < sz
        invariant 0 <= a <= PagesOf(sz)
        invariant Valid() && Grown(m, M(), child, 0, Copies(m, parent, a))
      {
        GrownNext(m, M(), child, 0, Copies(m, parent, a));
        GrownOther(m, M(), child, 0, Copies(m, parent, a), parent, a);
        CopyPerm(m, parent, a);
        var e := ReadPte(parent, a);
        PageSize(M(), e.ppn);
        var img := Image(e.perm, bytes[e.ppn]);
        ghost var m1 := M();
        ok := AddPage(child, a, img, m, 0, Copies(m, parent, a));
        if !ok {
          GrownKept(m, m1, M(), child, 0, Copies(m, parent, a));
          GrownUnmappable(m, M(), child, 0, Copies(m, parent, a));
          ghost var m2 := M();
          Uvmunmap(child, 0, a, true);
          Rollback(m, m2, M(), child, 0, Copies(m, parent, a));
          return;
        }
        assert Copies(m, parent, a) + [img] == Copies(m, parent, a + 1);
        a := a + 1;
      }
      assert a == PagesOf(sz);
      ok := true;
    }

    /** walk(pagetable, va, 0) and read the entry of a page that is mapped. */
    method ReadPte(r: nat, vpn: nat) returns (e: Pte)
      requires Valid() && Own(own, r).Root? && vpn < NVPN && Leaf(tables, r, vpn).v
      modifies this
      ensures M() == old(M()) && Valid() && e == Leaf(tables, r, vpn)
    {
      hide Linked, LeavesOk, FreeOk, Tree, Sizes, OnlyTables, SameLeaves;
      var ok, q := Walk(r, vpn * PGSIZE, false);
      e := tables[q][I0(vpn)];
    }

    /**
     Free page p and all page-table pages below it; no leaf may be left. The panic
     "freewalk: leaf" is unreachable.
     */
    method Freewalk(p: nat, ghost x: Owner)
      requires Phys() && Walkable(M(), x, p)
      modifies this
      ensures Phys() && Freed(old(M()), M(), x, p)
      decreases if x.Root? then 2 else if x.Mid? then 1 else 0
    {
      hide FreeOk, Linked, Down, Up, Swept, Freed;
      SweptNone(M(), x, p);
      var i := 0;
      while i < 512
        invariant 0 <= i <= 512 && Phys() && Walkable(M(), x, p) && Swept(old(M()), M(), x, p, i)
      {
        assert p in tables && |tables[p]| == 512;
        var pte := tables[p][i];
        SweptEntry(old(M()), M(), x, p, i);
        if pte.v && !pte.perm.r && !pte.perm.w && !pte.perm.x {
          ChildWalkable(M(), x, p, i);
          ghost var m1 := M();
          Freewalk(pte.ppn, Child(x, p, i));
          SweptStep(old(M()), m1, M(), x, p, i);
          ClearedWalkable(m1, M(), x, p, i);
          tables := tables[p := tables[p][i := INVALID]];
        } else {
          NoLeafHere(M(), x, p, i);
          SweptSkip(old(M()), M(), x, p, i);
        }
        i := i + 1;
      }
      SweptDone(old(M()), M(), x, p);
      assert p in own;
      hide Walkable, Release;
      Kfree(p);
    }

    /** Free the user pages below sz, then the page-table pages. Nothing else may be mapped. */
    method Uvmfree(r: nat, sz: nat)
      requires Sound() && Own(own, r).Root? && PagesOf(sz) <= NVPN
      requires forall v :: 0 <= v < PagesOf(sz) ==> UserPage(M(), r, v)
      requires forall v :: PagesOf(sz) <= v < NVPN ==> !Leaf(tables, r, v).v
      modifies this
      ensures Sound() && (old(Valid()) ==> Valid())
      ensures Gone(old(M()), M(), r)
    {
      hide Good, Phys, LeavesOk, Leaf, Unmapped, Gone, Freed;
      UnmappedNone(M(), r, 0);
      if sz > 0 {
        UserLeaves(M(), r, PagesOf(sz));
        Uvmunmap(r, 0, PagesOf(sz), true);
      }
      ghost var m1 := M();
      AllUnmapped(old(M()), m1, r, PagesOf(sz));
      NoLeavesWalkable(m1, r);
      Freewalk(r, Root);
      PhysFree();
      FreedGood(m1, M(), r);
      UnmapThenGone(old(M()), m1, M(), r, PagesOf(sz));
      if old(Valid()) { LeavesGone(old(M()), M(), r); }
    }

    lemma FormSound()
      requires Phys() && Good(M())
      ensures Sound()
    {
    }

    /** freeproc when proc_pagetable failed: the trapframe page goes back. */
    method GiveBack(trapframe: nat, ghost m: Mem, ghost m1: Mem)
      requires Sound() && Took(m, m1, trapframe) && Restored(m1, M())
      modifies this
      ensures Sound() && Restored(m, M())
    {
      hide Good, LeavesOk, Leaf, SameLeaves;
      assert Own(own, trapframe).Kernel? && trapframe in own;
      ReleaseGood(M(), trapframe);
      TookBack(m, m1, M(), trapframe);
      hide Phys, Restored, Own, Took, Release;
      Kfree(trapframe);
      FormSound();
    }

    lemma PhysFree()
      requires Phys()
      ensures FreeOk(M().free, M().own)
    {
    }

    // ----- the memory side of fork -----

    /** A page table with the trampoline and the trapframe mapped; 0, with everything undone, when memory is out. */
    method ProcPagetable(trampoline: nat, trapframe: nat) returns (pt: nat)
      requires Valid() && trampoline !in own && Own(own, trapframe).Kernel?
      modifies this
      ensures Valid()
      ensures pt == 0 ==> Restored(old(M()), M())
      ensures pt != 0 ==> Started(old(M()), M(), pt, pt) && OnlyFrames(tables, pt, trampoline, trapframe)
    {
      hide Good, LeavesOk, LeavesBut, Phys, Leaf, Started, Restored, OnlyTables, MapsRange, SameLeaves, Unmapped,
        Gone, OthersSame;
      ghost var m := M();
      RestoredRefl(m);
      pt := Uvmcreate();
      if pt == 0 {
        return;
      }
      StartedFresh(m, M(), pt);
      StartedFacts(m, M(), pt, pt);
      ghost var m1, k := M(), 0;
      var end;
      end, k := Mappages(pt, TRAMPOLINE, PGSIZE, trampoline * PGSIZE, Perm(true, false, true, false));
      MapsOthers(m1, M(), pt, NVPN - 1, k, trampoline, Perm(true, false, true, false));
      StartedTables(m, m1, M(), pt, pt);
      StartedFacts(m, M(), pt, pt);
      if !end.Done? {
        Discard(pt, m);
        LeavesRestored(m, M());
        return 0;
      }
      ghost var m2 := M();
      StartedKeeps(m, m2, pt, trapframe);
      end, k := Mappages(pt, TRAPFRAME, PGSIZE, trapframe * PGSIZE, Perm(true, true, false, false));
      MapsOthers(m2, M(), pt, NVPN - 2, k, trapframe, Perm(true, true, false, false));
      StartedTables(m, m2, M(), pt, pt);
      StartedFacts(m, M(), pt, pt);
      if !end.Done? {
        ghost var m3 := M();
        UnownedFrame(m3, pt, NVPN - 1);
        Uvmunmap(pt, TRAMPOLINE, 1, false);
        StartedUnmap(m, m3, M(), pt, pt, NVPN - 1, NVPN);
        UnmapLast(m3, M(), pt);
        Discard(pt, m);
        LeavesRestored(m, M());
        return 0;
      }
    }

    /** uvmfree(pagetable, 0) of a table under construction that maps nothing. */
    method Discard(pt: nat, ghost m: Mem)
      requires Sound() && Good(m) && Started(m, M(), pt, pt) && forall v: nat :: v < NVPN ==> !Leaf(tables, pt, v).v
      modifies this
      ensures Sound() && Restored(m, M())
    {
      hide Good, LeavesOk, Phys, Leaf, Restored, Gone, SameLeaves, Own;
      ghost var m1 := M();
      assert Own(own, pt).Root?;
      hide Started;
      Uvmfree(pt, 0);
      StartedGone(m, m1, M(), pt);
    }

    /**
     The memory that fork takes: a trapframe page, a page table, and a copy of
     the parent's pages. When any allocation fails, freeproc returns every page
     taken so far: each page of memory is back with the owner it had.
     */
    method ForkMemory(parent: nat, sz: nat, trampoline: nat) returns (ok: bool, child: nat, trapframe: nat)
      requires Valid() && Own(own, parent).Root? && PagesOf(sz) <= NVPN - 2 && trampoline !in own
      requires forall v :: 0 <= v < PagesOf(sz) ==> UserPage(M(), parent, v)
      modifies this
      ensures Valid()
      ensures !ok ==> Restored(old(M()), M())
      ensures ok ==> Started(old(M()), M(), child, trapframe) && Space(M(), child, PagesOf(sz), trampoline, trapframe)
      ensures ok ==> Own(old(own), trapframe).Free? && Own(own, trapframe).Kernel?
      ensures ok ==> forall r: nat, v: nat :: Maps(M(), r, v, trapframe) ==> r == child
      ensures ok ==> forall v :: 0 <= v < PagesOf(sz) ==> HasPage(old(M()), M(), child, v, CopyOf(old(M()), parent, v))
    {
      hide Good, LeavesOk, Phys, Leaf, Started, Restored, OnlyTables, SameLeaves, Grown, HasPage;
      ghost var m := M();
      RestoredRefl(m);
      trapframe := Kalloc();
      if trapframe == 0 {
        return false, 0, 0;
      }
      ghost var m1 := M();
      TookOne(m, m1);
      child := ProcPagetable(trampoline, trapframe);
      if child == 0 {
        GiveBack(trapframe, m, m1);
        LeavesRestored(m, M());
        return false, 0, 0;
      }
      ghost var m2 := M();
      StartedMore(m, m1, m2, child, trapframe);
      ForkReady(m, m1, m2, parent, child, trapframe, trampoline, PagesOf(sz));
      ok := Uvmcopy(parent, child, sz);
      if !ok {
        SameOthers(m2, M(), child);
        StartedTables(m, m2, M(), child, trapframe);
        StartedFacts(m, M(), child, trapframe);
        FramesKept(m2, M(), child, trampoline, trapframe);
        ghost var m3 := M();
        StartedAlone(m, m3, child, trapframe);
        Freeproc(child, 0, trapframe, trampoline);
        StartedReaped(m, m3, M(), child, trapframe);
        return false, 0, 0;
      }
      StartedGrown(m, m2, M(), child, trapframe, Copies(m2, parent, PagesOf(sz)));
      ForkCopies(m, m1, m2, M(), parent, child, trapframe, PagesOf(sz));
      StartedAlone(m, M(), child, trapframe);
      ForkSpace(m, m2, M(), parent, child, trampoline, trapframe, PagesOf(sz));
    }

    /**
     freeproc with proc_freepagetable: the trapframe, the user pages and the page
     tables of a process all go back, in this order, so that for a while the
     table maps a free page.
     */
    method Freeproc(pt: nat, sz: nat, trapframe: nat, ghost trampoline: nat)
      requires Valid() && Space(M(), pt, PagesOf(sz), trampoline, trapframe) && trampoline !in own
      requires Own(own, trapframe).Kernel? && forall r: nat, v: nat :: Maps(M(), r, v, trapframe) ==> r == pt
      modifies this
      ensures Valid() && Reaped(old(M()), M(), pt, trapframe)
    {
      ghost var m := M();
      hide Good, Phys, LeavesOk, Leaf, Unmapped, Gone, Reaped, Maps, UserPage;
      assert trapframe in own;
      ReleaseGood(M(), trapframe);
      Kfree(trapframe);
      FormSound();
      ghost var m1 := M();
      FrameFreed(m, pt, PagesOf(sz), trampoline, trapframe);
      hide Release;
      UnownedFrame(m1, pt, NVPN - 1);
      Uvmunmap(pt, TRAMPOLINE, 1, false);
      ghost var m2 := M();
      FrameLeft(m1, m2, pt, trampoline, trapframe);
      UnownedFrame(m2, pt, NVPN - 2);
      Uvmunmap(pt, TRAPFRAME, 1, false);
      ghost var m3 := M();
      Stripped(m, m1, m2, m3, pt, PagesOf(sz), trampoline, trapframe);
      Uvmfree(pt, sz);
      ReapedAll(m, m1, m2, m3, M(), pt, PagesOf(sz), trampoline, trapframe);
      LeavesReaped(m, M(), pt, trapframe);
    }

    // ----- copying between kernel and user memory -----

    /** walkaddr: the physical page of a user page, or 0. */
    method Walkaddr(r: nat, vpn: nat) returns (p: nat)
      requires Valid() && Own(own, r).Root?
      modifies this
      ensures M() == old(M()) && Valid()
      ensures p == if Accessible(M(), r, vpn) then Leaf(tables, r, vpn).ppn else 0
      ensures p != 0 <==> Accessible(M(), r, vpn)
    {
      hide Linked, LeavesOk, FreeOk, Tree, SameLeaves, OnlyTables, I2, I1;
      if Accessible(M(), r, vpn) { OwnedPage(M(), r, vpn); }
      if vpn >= NVPN {
        return 0;
      }
      var ok, q := Walk(r, vpn * PGSIZE, false);
      if !ok {
        return 0;
      }
      assert q in tables && |tables[q]| == 512;
      var e := tables[q][I0(vpn)];
      assert e == Leaf(tables, r, vpn);
      if !e.v || !e.perm.u {
        return 0;
      }
      p := e.ppn;
    }

    /**
     Copy src to user address dstva. It succeeds exactly when the whole range is
     accessible; otherwise the bytes up to the first bad page are copied.
     */
    method Copyout(r: nat, dstva: nat, src: seq<nat>) returns (ok: bool, ghost k: nat)
      requires Valid() && Own(own, r).Root?
      modifies this
      ensures Valid() && Written(old(M()), M(), r, dstva, src, k)
      ensures ok <==> forall a: nat :: dstva <= a < dstva + |src| ==> Accessible(old(M()), r, a / PGSIZE)
      ensures ok ==> k == |src|
      ensures !ok ==> k < |src| && !Accessible(old(M()), r, (dstva + k) / PGSIZE)
    {
      hide Good, Phys, Leaf, Written, Own, Accessible, LeavesOk;
      ghost var m := M();
      WrittenNone(m, r, dstva, src);
      var done := 0;
      while done < |src|
        invariant 0 <= done <= |src| && Valid() && Written(m, M(), r, dstva, src, done)
        invariant tables == m.tables && own == m.own
        invariant forall a: nat :: dstva <= a < dstva + done ==> Accessible(m, r, a / PGSIZE)
      {
        var va := dstva + done;
        var p := Walkaddr(r, va / PGSIZE);
        AccessSame(m, M(), r, va / PGSIZE);
        if p == 0 {
          return false, done;
        }
        var n := PGSIZE - va % PGSIZE;
        if n > |src| - done {
          n := |src| - done;
        }
        OwnedPage(M(), r, va / PGSIZE);
        ghost var m1 := M();
        StoreBytes(p, va % PGSIZE, src[done..done + n]);
        WriteStep(m, m1, M(), r, dstva, src, done, n, p);
        WrittenGood(m, M(), r, dstva, src, done + n);
        FormSound();
        LeavesSame(m1, M());
        SamePage(va, n);
        done := done + n;
      }
      return true, done;
    }

    /** memmove to physical page p. */
    method StoreBytes(p: nat, off: nat, data: seq<nat>)
      requires Phys() && p in bytes && off + |data| <= |bytes[p]|
      modifies `bytes
      ensures Phys() && bytes == old(bytes)[p := Splice(old(bytes)[p], off, data)]
    {
      bytes := bytes[p := Splice(bytes[p], off, data)];
    }

    /** Copy len bytes from user address srcva; the exact counterpart of Copyout. */
    method Copyin(r: nat, srcva: nat, len: nat) returns (ok: bool, dst: seq<nat>)
      requires Valid() && Own(own, r).Root?
      modifies this
      ensures M() == old(M()) && Valid()
      ensures ok <==> forall a: nat :: srcva <= a < srcva + len ==> Accessible(M(), r, a / PGSIZE)
      ensures ok ==> |dst| == len && forall j :: 0 <= j < len ==> dst[j] == UByte(M(), r, srcva + j)
    {
      hide Good, Phys, Leaf, Own, Accessible, LeavesOk;
      dst := [];
      while |dst| < len
        invariant |dst| <= len && M() == old(M()) && Valid()
        invariant forall j :: 0 <= j < |dst| ==> dst[j] == UByte(M(), r, srcva + j)
        invariant forall a: nat :: srcva <= a < srcva + |dst| ==> Accessible(M(), r, a / PGSIZE)
      {
        var va := srcva + |dst|;
        var p := Walkaddr(r, va / PGSIZE);
        if p == 0 {
          return false, [];
        }
        var n := PGSIZE - va % PGSIZE;
        if n > len - |dst| {
          n := len - |dst|;
        }
        OwnedPage(M(), r, va / PGSIZE);
        SamePage(va, n);
        dst := dst + bytes[p][va % PGSIZE..va % PGSIZE + n];
      }
      ok := true;
    }
  }

  lemma {:induction false} AccessSame(m: Mem, m': Mem, r: nat, v: nat)
    requires m'.tables == m.tables
    ensures Accessible(m', r, v) == Accessible(m, r, v)
  {
  }

  lemma {:induction false} LeavesSame(m: Mem, m': Mem)
    requires LeavesOk(m) && m'.tables == m.tables && m'.own == m.own
    ensures LeavesOk(m')
  {
    hide Leaf, Own;
  }

  lemma {:induction false} OwnedPage(m: Mem, r: nat, v: nat)
    requires Good(m) && LeavesOk(m) && Own(m.own, r).Root? && Accessible(m, r, v)
    ensures var p := Leaf(m.tables, r, v).ppn; p in m.bytes && |m.bytes[p]| == PGSIZE && Own(m.own, p) == User(r, v)
  {
    hide Tree, FreeOk, Leaf;
    assert LeafOk(m.own, r, v, Leaf(m.tables, r, v));
  }

  /** Addresses from va to the end of its page lie in one page. */
  lemma {:induction false} SamePage(va: nat, n: nat)
    requires n <= PGSIZE - va % PGSIZE
    ensures forall a: nat :: va <= a < va + n ==> a / PGSIZE == va / PGSIZE && a % PGSIZE == va % PGSIZE + (a - va)
  {
    forall a: nat | va <= a < va + n ensures a / PGSIZE == va / PGSIZE && a % PGSIZE == va % PGSIZE + (a - va) {
      var q, o := va / PGSIZE, va % PGSIZE + (a - va);
      assert a == q * PGSIZE + o && 0 <= o < PGSIZE;
    }
  }

  /** copyout, then copyin of the same range, returns the bytes. */
  lemma {:induction false} CopyRoundTrip(m: Mem, m': Mem, r: nat, va: nat, data: seq<nat>, j: nat)
    requires LeavesOk(m) && Own(m.own, r).Root? && Written(m, m', r, va, data, |data|) && j < |data|
    requires Accessible(m, r, (va + j) / PGSIZE)
    ensures UByte(m', r, va + j) == data[j]
  {
    WrittenReads(m, m', r, va, data, |data|, r, va + j);
  }

  /** MAXVA - PGSIZE and the page below it */
  const TRAMPOLINE: nat := (NVPN - 1) * PGSIZE
  const TRAPFRAME: nat := (NVPN - 2) * PGSIZE

  /** Table pt maps the trampoline, the trapframe and nothing else. */
  ghost predicate OnlyFrames(t: Tables, pt: nat, trampoline: nat, trapframe: nat) {
    forall v: nat :: v < NVPN ==> Leaf(t, pt, v) == FrameAt(v, trampoline, trapframe)
  }

  function FrameAt(v: nat, trampoline: nat, trapframe: nat): Pte {
    if v == NVPN - 1 then Pte(true, trampoline, Perm(true, false, true, false))
    else if v == NVPN - 2 then Pte(true, trapframe, Perm(true, true, false, false))
    else INVALID
  }

  lemma {:induction false} RestoredRefl(m: Mem)
    ensures Restored(m, m)
  {
    hide Leaf, Own;
  }

  lemma {:induction false} StartedFresh(m: Mem, m': Mem, r: nat)
    requires r in m.own && Own(m.own, r).Free? && m'.own == m.own[r := Root] && SameLeaves(m.tables, m'.tables, m.own)
    requires m'.bytes == m.bytes[r := Fill(0)]
    ensures Started(m, m', r, r)
  {
    OwnAt(m.own, r, Root);
    hide Leaf, Own;
  }

  /** Mapping one page of pt, or failing to. */
  lemma {:induction false} MapsOthers(m1: Mem, m2: Mem, pt: nat, a: nat, k: nat, ppn: nat, perm: Perm)
    requires MapsRange(m1.tables, m2.tables, m1.own, pt, a, k, ppn, perm) && Own(m1.own, pt).Root? && a <= k <= a + 1
    ensures OthersSame(m1.tables, m2.tables, m1.own, pt)
    ensures forall v: nat :: v < NVPN ==>
      Leaf(m2.tables, pt, v) == if v == a && k == a + 1 then Pte(true, ppn, perm) else Leaf(m1.tables, pt, v)
  {
    hide Leaf, Own;
  }

  lemma {:induction false} UnmapLast(m3: Mem, m4: Mem, pt: nat)
    requires Unmapped(m3, m4, pt, NVPN - 1, NVPN) && Own(m3.own, pt).Root?
    requires forall v: nat :: v < NVPN - 1 ==> !Leaf(m3.tables, pt, v).v
    ensures forall v: nat :: v < NVPN ==> !Leaf(m4.tables, pt, v).v
  {
    hide Leaf, Own;
  }

  /** A frame that is not a user page is owned by no page of the table that maps it. */
  lemma {:induction false} UnownedFrame(m: Mem, pt: nat, v: nat)
    requires Good(m) && !Own(m.own, Leaf(m.tables, pt, v).ppn).User?
    ensures forall p: nat :: Own(m.own, p) != User(pt, v)
  {
    hide Leaf, Own, Sizes, Down, Up, FreeOk;
    forall p: nat ensures Own(m.own, p) != User(pt, v) {
      assert Own(m.own, p).User? ==> Mapped(m.tables, m.own, p, Own(m.own, p));
    }
  }

  lemma {:induction false} StartedFacts(m: Mem, m': Mem, r: nat, k: nat)
    requires Started(m, m', r, k)
    ensures Own(m'.own, r).Root? && m'.own.Keys == m.own.Keys
  {
    hide SameLeaves;
  }

  lemma {:induction false} StartedKeeps(m: Mem, m': Mem, r: nat, k: nat)
    requires Started(m, m', r, r) && Own(m.own, k).Kernel?
    ensures Own(m'.own, k).Kernel?
  {
    hide SameLeaves;
  }

  /** kalloc has taken page k out of the free pages of m. */
  ghost predicate Took(m: Mem, m1: Mem, k: nat) {
    && Own(m.own, k).Free? && k in m.own && m1.own == m.own[k := Kernel] && m1.tables == m.tables && BytesKept(m, m1)
  }

  lemma {:induction false} TookOne(m: Mem, m1: Mem)
    requires Good(m) && m.free != [] && m1 == Alloc(m)
    ensures Took(m, m1, m.free[0])
  {
    AllocGood(m);
    hide Good;
  }

  lemma {:induction false} TookBack(m: Mem, m1: Mem, m2: Mem, k: nat)
    requires Took(m, m1, k) && Restored(m1, m2) && Good(m2) && Own(m2.own, k).Kernel? && k in m2.own
    ensures Restored(m, Release(m2, k))
  {
    var m3 := Release(m2, k);
    ReleaseGood(m2, k);
    OwnAt(m.own, k, Kernel);
    OwnAt(m2.own, k, Free);
    assert m3.own == m2.own[k := Free];
    hide Leaf, Own, Good;
    forall q: nat, v: nat | Own(m.own, q).Root? && v < NVPN ensures Leaf(m3.tables, q, v) == Leaf(m.tables, q, v) {
      assert Own(m1.own, q) == Own(m.own, q);
    }
    forall p | p in m.bytes && !Own(m.own, p).Free? ensures p in m3.bytes && m3.bytes[p] == m.bytes[p] {
      assert Own(m1.own, p) == Own(m.own, p) && p in m1.bytes && p in m2.bytes;
    }
  }

  lemma {:induction false} StartedMore(m: Mem, m1: Mem, m2: Mem, r: nat, k: nat)
    requires Took(m, m1, k) && Started(m1, m2, r, r)
    ensures Started(m, m2, r, k) && r != k && Own(m2.own, k).Kernel? && k in m2.own
  {
    OwnAt(m.own, k, Kernel);
    hide Leaf, Own;
    forall p: nat ensures Own(m2.own, p) == Own(m.own, p)
      || (Own(m.own, p).Free? && (p == r || p == k || BelongsTo(Own(m2.own, p), r))) {
      assert Own(m2.own, p) == Own(m1.own, p) || (Own(m1.own, p).Free? && (p == r || BelongsTo(Own(m2.own, p), r)));
    }
    forall q: nat, v: nat | Own(m.own, q).Root? && v < NVPN ensures Leaf(m2.tables, q, v) == Leaf(m.tables, q, v) {
      assert Own(m1.own, q) == Own(m.own, q);
    }
    forall p | p in m.bytes && !Own(m.own, p).Free? ensures p in m2.bytes && m2.bytes[p] == m.bytes[p] {
      assert Own(m1.own, p) == Own(m.own, p) && p in m1.bytes;
    }
    assert Own(m2.own, k) == Own(m1.own, k);
    assert k in m1.own && k in m2.own;
  }

  /** The parent's pages are as they were, and the child maps none of theirs. */
  lemma {:induction false} ForkReady(m: Mem, m1: Mem, m2: Mem, parent: nat, child: nat, trapframe: nat,
        trampoline: nat, n: nat)
    requires Started(m, m2, child, trapframe) && Own(m.own, parent).Root? && n <= NVPN - 2
    requires OnlyFrames(m2.tables, child, trampoline, trapframe)
    requires forall v :: 0 <= v < n ==> UserPage(m, parent, v)
    ensures Own(m2.own, parent).Root? && Own(m2.own, child).Root? && parent != child
    ensures forall v :: 0 <= v < n ==> UserPage(m2, parent, v) && Leaf(m2.tables, child, v) == INVALID
  {
    hide Leaf, Own;
    forall v | 0 <= v < n ensures UserPage(m2, parent, v) && Leaf(m2.tables, child, v) == INVALID {
      assert UserPage(m, parent, v);
      assert Leaf(m2.tables, parent, v) == Leaf(m.tables, parent, v);
    }
  }

  lemma {:induction false} SameOthers(m2: Mem, m3: Mem, r: nat)
    requires SameLeaves(m2.tables, m3.tables, m2.own)
    ensures OthersSame(m2.tables, m3.tables, m2.own, r)
  {
    hide Leaf, Own;
  }

  lemma {:induction false} FramesKept(m2: Mem, m3: Mem, pt: nat, trampoline: nat, trapframe: nat)
    requires SameLeaves(m2.tables, m3.tables, m2.own) && Own(m2.own, pt).Root?
    requires OnlyFrames(m2.tables, pt, trampoline, trapframe)
    requires OnlyTables(m2, m3, pt) && Own(m2.own, trapframe).Kernel?
    ensures Space(m3, pt, 0, trampoline, trapframe) && Own(m3.own, trapframe).Kernel?
  {
    hide Leaf, Own;
  }

  lemma {:induction false} ForkCopies(m: Mem, m1: Mem, m2: Mem, m3: Mem, parent: nat, child: nat, trapframe: nat,
        n: nat)
    requires Took(m, m1, trapframe) && Started(m, m2, child, trapframe)
    requires Grown(m2, m3, child, 0, Copies(m2, parent, n))
    requires Own(m.own, parent).Root? && Own(m2.own, trapframe).Kernel? && n <= NVPN
    requires forall v :: 0 <= v < n ==> UserPage(m, parent, v)
    ensures Own(m3.own, trapframe).Kernel?
    ensures forall v :: 0 <= v < n ==> HasPage(m, m3, child, v, CopyOf(m, parent, v))
  {
    hide Leaf, Own;
    forall v | 0 <= v < n ensures HasPage(m, m3, child, v, CopyOf(m, parent, v)) {
      assert UserPage(m, parent, v);
      assert Leaf(m2.tables, parent, v) == Leaf(m.tables, parent, v);
      assert CopyOf(m2, parent, v) == CopyOf(m, parent, v);
      assert HasPage(m2, m3, child, 0 + v, Copies(m2, parent, n)[v]);
    }
  }

  lemma {:induction false} ForkSpace(m: Mem, m2: Mem, m3: Mem, parent: nat, pt: nat, trampoline: nat,
        trapframe: nat, n: nat)
    requires OnlyFrames(m2.tables, pt, trampoline, trapframe) && Own(m2.own, pt).Root? && n <= NVPN - 2
    requires Grown(m2, m3, pt, 0, Copies(m2, parent, n)) && forall v :: 0 <= v < n ==> UserPage(m, parent, v)
    requires forall v :: 0 <= v < n ==> HasPage(m, m3, pt, v, CopyOf(m, parent, v))
    ensures Space(m3, pt, n, trampoline, trapframe)
  {
    hide Leaf, Own, FrameAt;
    forall v | 0 <= v < n ensures UserPage(m3, pt, v) {
      assert HasPage(m, m3, pt, v, CopyOf(m, parent, v)) && UserPage(m, parent, v);
    }
  }

  /** The address space of a process: n user pages, and at the top the trampoline and the trapframe. */
  ghost predicate Space(m: Mem, pt: nat, n: nat, trampoline: nat, trapframe: nat) {
    && Own(m.own, pt).Root? && n <= NVPN - 2 && (forall v :: 0 <= v < n ==> UserPage(m, pt, v))
    && (forall v :: n <= v < NVPN ==> Leaf(m.tables, pt, v) == FrameAt(v, trampoline, trapframe))
  }

  /** Table pt and frame k are gone with every page that belongs to pt; all else is as before. */
  ghost predicate Reaped(m: Mem, m': Mem, pt: nat, k: nat) {
    && (forall p: nat ::
          Own(m'.own, p) == if p == pt || p == k || BelongsTo(Own(m.own, p), pt) then Free else Own(m.own, p))
    && OthersSame(m.tables, m'.tables, m.own, pt) && m'.own.Keys == m.own.Keys
    && (forall p :: p in m.bytes && p != pt && p != k && !BelongsTo(Own(m.own, p), pt) ==>
          p in m'.bytes && m'.bytes[p] == m.bytes[p])
  }

  /** The trapframe is free, and still mapped. */
  lemma {:induction false} FrameFreed(m: Mem, pt: nat, n: nat, trampoline: nat, k: nat)
    requires Good(m) && Space(m, pt, n, trampoline, k) && Own(m.own, k).Kernel? && k in m.own && trampoline !in m.own
    ensures var m1 := Release(m, k);
      && m1.tables == m.tables && (forall p: nat :: Own(m1.own, p) == if p == k then Free else Own(m.own, p))
      && Space(m1, pt, n, trampoline, k) && m1.own.Keys == m.own.Keys && Own(m1.own, trampoline).NotRam?
  {
    ReleaseGood(m, k);
    OwnAt(m.own, k, Free);
    hide Leaf, Good, FrameAt;
    var m1 := Release(m, k);
    forall v | 0 <= v < n ensures UserPage(m1, pt, v) { assert UserPage(m, pt, v); }
  }

  lemma {:induction false} FrameLeft(m1: Mem, m2: Mem, pt: nat, trampoline: nat, k: nat)
    requires Own(m1.own, pt).Root? && Own(m1.own, k).Free? && Unmapped(m1, m2, pt, NVPN - 1, NVPN)
    requires Leaf(m1.tables, pt, NVPN - 2) == FrameAt(NVPN - 2, trampoline, k)
    ensures Own(m2.own, pt).Root? && Own(m2.own, k).Free?
    ensures Leaf(m2.tables, pt, NVPN - 2) == FrameAt(NVPN - 2, trampoline, k)
  {
    hide Leaf, Own;
  }

  /** With both frames unmapped only the user pages are left. */
  lemma {:induction false} Stripped(m: Mem, m1: Mem, m2: Mem, m3: Mem, pt: nat, n: nat, trampoline: nat, k: nat)
    requires Space(m1, pt, n, trampoline, k)
    requires Unmapped(m1, m2, pt, NVPN - 1, NVPN) && Unmapped(m2, m3, pt, NVPN - 2, NVPN - 1)
    requires forall p: nat :: Own(m1.own, p) != User(pt, NVPN - 1)
    requires forall p: nat :: Own(m2.own, p) != User(pt, NVPN - 2)
    ensures forall p: nat :: Own(m3.own, p) == Own(m1.own, p)
    ensures forall v :: 0 <= v < n ==> UserPage(m3, pt, v)
    ensures forall v :: n <= v < NVPN ==> !Leaf(m3.tables, pt, v).v
  {
    hide Leaf, Own;
    forall p: nat ensures Own(m3.own, p) == Own(m1.own, p) {
      assert Own(m2.own, p) == Own(m1.own, p);
    }
    forall v | 0 <= v < n ensures UserPage(m3, pt, v) {
      assert UserPage(m1, pt, v);
      assert Leaf(m2.tables, pt, v) == Leaf(m1.tables, pt, v);
      assert Leaf(m3.tables, pt, v) == Leaf(m2.tables, pt, v);
    }
    forall v | n <= v < NVPN ensures !Leaf(m3.tables, pt, v).v {
      assert Leaf(m2.tables, pt, v) == if NVPN - 1 <= v then INVALID else Leaf(m1.tables, pt, v);
    }
  }

  lemma {:induction false} ReapedAll(m: Mem, m1: Mem, m2: Mem, m3: Mem, m4: Mem, pt: nat, n: nat, trampoline: nat,
        k: nat)
    requires Own(m.own, pt).Root? && Own(m.own, k).Kernel? && m1 == Release(m, k) && m1.tables == m.tables
    requires forall p: nat :: Own(m1.own, p) == if p == k then Free else Own(m.own, p)
    requires m1.own.Keys == m.own.Keys && forall p: nat :: Own(m3.own, p) == Own(m1.own, p)
    requires Unmapped(m1, m2, pt, NVPN - 1, NVPN) && Unmapped(m2, m3, pt, NVPN - 2, NVPN - 1) && Gone(m3, m4, pt)
    ensures Reaped(m, m4, pt, k)
  {
    hide Leaf, Own;
    forall p: nat ensures Own(m2.own, p) == Own(m1.own, p) {
      assert Own(m3.own, p) == Own(m1.own, p);
    }
    forall p: nat
      ensures Own(m4.own, p) == if p == pt || p == k || BelongsTo(Own(m.own, p), pt) then Free else Own(m.own, p)
    {
      assert Own(m4.own, p) == if p == pt || BelongsTo(Own(m3.own, p), pt) then Free else Own(m3.own, p);
    }
    forall q: nat, v: nat | Own(m.own, q).Root? && q != pt && v < NVPN
      ensures Leaf(m4.tables, q, v) == Leaf(m.tables, q, v)
    {
      assert Own(m2.own, q).Root? && Own(m3.own, q).Root?;
    }
    forall p | p in m.bytes && p != pt && p != k && !BelongsTo(Own(m.own, p), pt)
      ensures p in m4.bytes && m4.bytes[p] == m.bytes[p]
    {
      assert p in m1.bytes && m1.bytes[p] == m.bytes[p];
      assert Own(m1.own, p) == Own(m.own, p) && p in m2.bytes && p in m3.bytes;
    }
  }

  lemma {:induction false} LeavesReaped(m: Mem, m': Mem, pt: nat, k: nat)
    requires LeavesOk(m) && Own(m.own, pt).Root? && Reaped(m, m', pt, k)
    requires forall r: nat, v: nat :: Maps(m, r, v, k) ==> r == pt
    ensures LeavesOk(m')
  {
    hide Leaf, Own;
    forall r: nat, v: nat | Own(m'.own, r).Root? && v < NVPN ensures LeafOk(m'.own, r, v, Leaf(m'.tables, r, v)) {
      assert LeafOk(m.own, r, v, Leaf(m.tables, r, v));
      assert Leaf(m.tables, r, v).v ==> Maps(m, r, v, Leaf(m.tables, r, v).ppn);
    }
  }

  /** What fork took, freeproc gives back: no page is lost between them. */
  lemma {:induction false} StartedReaped(m: Mem, m1: Mem, m2: Mem, pt: nat, k: nat)
    requires Good(m) && Started(m, m1, pt, k) && Own(m.own, k).Free? && Reaped(m1, m2, pt, k)
    ensures Restored(m, m2)
  {
    hide Leaf, Own, Good;
    forall p: nat
      ensures Own(m2.own, p) == Own(m.own, p)
      ensures (!Own(m.own, p).Free? ==> p != pt && p != k && !BelongsTo(Own(m.own, p), pt))
    {
      NotYetOwned(m, pt, p);
      assert Own(m2.own, p) == if p == pt || p == k || BelongsTo(Own(m1.own, p), pt) then Free else Own(m1.own, p);
    }
    forall q: nat, v: nat | Own(m.own, q).Root? && v < NVPN ensures Leaf(m2.tables, q, v) == Leaf(m.tables, q, v) {
      assert Own(m1.own, q) == Own(m.own, q) && Leaf(m1.tables, q, v) == Leaf(m.tables, q, v);
    }
    forall p | p in m.bytes && !Own(m.own, p).Free? ensures p in m2.bytes && m2.bytes[p] == m.bytes[p] {
      assert Own(m1.own, p) == Own(m.own, p) && p in m1.bytes;
    }
  }

  /** A page that was free is mapped by no table but the new one. */
  lemma {:induction false} StartedAlone(m: Mem, m': Mem, pt: nat, k: nat)
    requires LeavesOk(m) && Started(m, m', pt, k) && Own(m.own, k).Free? && Own(m'.own, k).Kernel?
    ensures forall r: nat, v: nat :: Maps(m', r, v, k) ==> r == pt
  {
    hide Leaf, Own;
    forall r: nat, v: nat | Maps(m', r, v, k) ensures r == pt {
      assert Own(m.own, r).Root? ==> LeafOk(m.own, r, v, Leaf(m.tables, r, v));
      assert Own(m'.own, r) == Own(m.own, r) || r == pt;
    }
  }

  lemma {:induction false} UserLeaves(m: Mem, r: nat, n: nat)
    requires forall v :: 0 <= v < n ==> UserPage(m, r, v)
    ensures forall v ::
      0 <= v < n ==> IsLeaf(Leaf(m.tables, r, v)) && Own(m.own, Leaf(m.tables, r, v).ppn) == User(r, v)
  {
    hide Leaf, Own;
    forall v | 0 <= v < n ensures IsLeaf(Leaf(m.tables, r, v)) && Own(m.own, Leaf(m.tables, r, v).ppn) == User(r, v) {
      assert UserPage(m, r, v);
    }
  }

  lemma {:induction false} AllUnmapped(m: Mem, m1: Mem, r: nat, n: nat)
    requires Unmapped(m, m1, r, 0, n) && Own(m.own, r).Root? && n <= NVPN
    requires forall v :: n <= v < NVPN ==> !Leaf(m.tables, r, v).v
    ensures Own(m1.own, r).Root? && forall v: nat :: v < NVPN ==> !Leaf(m1.tables, r, v).v
  {
    hide Leaf, Own;
  }

  lemma {:induction false} SweptEntry(m: Mem, m': Mem, x: Owner, p: nat, i: nat)
    requires Swept(m, m', x, p, i) && i < 512
    ensures Entry(m'.tables, p, i) == Entry(m.tables, p, i)
  {
  }

  /** An entry of the subtree that is not a pointer is 0. */
  lemma {:induction false} NoLeafHere(m: Mem, x: Owner, p: nat, i: nat)
    requires Walkable(m, x, p) && i < 512
    requires var e := Entry(m.tables, p, i); !e.v || e.perm.r || e.perm.w || e.perm.x
    ensures !Entry(m.tables, p, i).v
  {
    hide Up, Sizes, Own, Entry;
  }

  /** What uvmalloc gives a new page: zeros, readable, accessible to the user. */
  function Blank(xperm: Perm, n: nat): seq<Image> { seq(n, i => Image(xperm.(r := true, u := true), Fill(0))) }

  /** Page v of table r is mapped to a user page of its own. */
  ghost predicate UserPage(m: Mem, r: nat, v: nat) {
    var e := Leaf(m.tables, r, v);
    IsLeaf(e) && Own(m.own, e.ppn) == User(r, v) && e.ppn in m.bytes
  }

  /** The contents and permissions of the first n pages of table r. */
  ghost function Copies(m: Mem, r: nat, n: nat): (s: seq<Image>)
    ensures |s| == n && forall i :: 0 <= i < n ==> s[i] == CopyOf(m, r, i)
  {
    seq(n, i requires 0 <= i < n => CopyOf(m, r, i))
  }

  ghost function CopyOf(m: Mem, r: nat, v: nat): Image {
    var e := Leaf(m.tables, r, v);
    Image(e.perm, if e.ppn in m.bytes then m.bytes[e.ppn] else [])
  }

  lemma {:induction false} CopyPerm(m: Mem, r: nat, n: nat)
    requires forall v :: 0 <= v < n ==> UserPage(m, r, v)
    ensures forall i :: 0 <= i < n ==> var w := Copies(m, r, n)[i].perm; w.r || w.w || w.x
  {
    hide Leaf, Own;
    forall i | 0 <= i < n ensures var w := Copies(m, r, n)[i].perm; w.r || w.w || w.x {
      assert UserPage(m, r, i);
    }
  }

  lemma {:induction false} PageSize(m: Mem, p: nat)
    requires Good(m) && p in m.bytes
    ensures |m.bytes[p]| == PGSIZE
  {
    hide Tree, FreeOk;
  }

  /** mappages leaves the kernel's page alone and, if it succeeded, maps it. */
  lemma {:induction false} MappedHere(m2: Mem, m3: Mem, r: nat, a: nat, k: nat, p: nat, perm: Perm)
    requires OnlyTables(m2, m3, r) && Own(m2.own, p).Kernel? && p in m2.bytes && Own(m2.own, r).Root? && a < NVPN
    requires MapsRange(m2.tables, m3.tables, m2.own, r, a, k, p, perm)
    ensures Own(m3.own, p).Kernel? && p in m3.bytes && m3.bytes[p] == m2.bytes[p]
    ensures k == a + 1 ==> Leaf(m3.tables, r, a) == Pte(true, p, perm)
  {
    hide Leaf, Own;
  }

  /** When mappages fails, giving the page back leaves nothing but new page-table pages. */
  lemma {:induction false} AddPageUndo(m1: Mem, m2: Mem, m3: Mem, r: nat, a: nat, p: nat, perm: Perm)
    requires Own(m1.own, p).Free? && p in m1.own && m2.own == m1.own[p := Kernel] && m2.tables == m1.tables
    requires forall q :: q in m1.bytes && q != p ==> q in m2.bytes && m2.bytes[q] == m1.bytes[q]
    requires OnlyTables(m2, m3, r) && MapsRange(m2.tables, m3.tables, m2.own, r, a, a, p, perm)
    ensures OnlyTables(m1, Release(m3, p), r) && SameLeaves(m1.tables, m3.tables, m1.own)
  {
    var m4 := Release(m3, p);
    OwnAt(m1.own, p, Kernel);
    OwnAt(m3.own, p, Free);
    assert m4.own == m3.own[p := Free];
    hide Leaf, Own;
    forall q: nat ensures Own(m4.own, q) == Own(m1.own, q) || (Own(m1.own, q).Free? && TableOf(Own(m4.own, q), r)) {
      assert Own(m3.own, q) == Own(m2.own, q) || (Own(m2.own, q).Free? && TableOf(Own(m3.own, q), r));
    }
    forall q: nat, v: nat | Own(m1.own, q).Root? && v < NVPN ensures Leaf(m3.tables, q, v) == Leaf(m1.tables, q, v) {
      assert Own(m2.own, q).Root?;
    }
    forall q | q in m1.bytes && !Own(m1.own, q).Free? ensures q in m4.bytes && m4.bytes[q] == m1.bytes[q] {
      assert q != p && Own(m2.own, q) == Own(m1.own, q) && q in m2.bytes;
    }
    assert p in m3.own;
  }

  lemma {:induction false} FilledGood(m: Mem, p: nat, data: seq<nat>)
    requires Good(m) && m.free != [] && p == m.free[0] && |data| == PGSIZE
    ensures Good(Mem(m.tables, m.bytes[p := data], m.free[1..], m.own[p := Kernel]))
  {
    AllocGood(m);
    hide Tree, FreeOk;
  }

  lemma {:induction false} MapsNone(m: Mem, r: nat, first: nat, ppn: nat, perm: Perm)
    ensures OnlyTables(m, m, r) && MapsRange(m.tables, m.tables, m.own, r, first, first, ppn, perm)
  {
    hide Leaf, Own;
  }

  lemma {:induction false} MapsKept(m: Mem, m1: Mem, m2: Mem, r: nat, first: nat, a: nat, ppn: nat, perm: Perm)
    requires MapsRange(m.tables, m1.tables, m.own, r, first, a, ppn, perm)
    requires OnlyTables(m, m1, r) && SameLeaves(m1.tables, m2.tables, m1.own)
    ensures MapsRange(m.tables, m2.tables, m.own, r, first, a, ppn, perm)
  {
    hide Leaf, Own, TableOf;
    forall q: nat, v: nat | Own(m.own, q).Root? && v < NVPN
      ensures Leaf(m2.tables, q, v) == if q == r && first <= v < a then Pte(true, ppn + (v - first), perm)
        else Leaf(m.tables, q, v)
    {
      assert Own(m1.own, q) == Own(m.own, q);
      assert Leaf(m2.tables, q, v) == Leaf(m1.tables, q, v);
    }
  }

  /** The next page to map is still unmapped, and so no user page claims it. */
  lemma {:induction false} ReadyEntry(m: Mem, r: nat, v: nat)
    requires Good(m) && SlotReady(m.tables, m.own, r, v)
    ensures var q := LowPage(m.tables, r, v);
      q in m.tables && |m.tables[q]| == 512 && I0(v) < 512 && m.tables[q][I0(v)] == Leaf(m.tables, r, v)
  {
    hide Tree, FreeOk;
  }

  lemma {:induction false} StillLeaf(m: Mem, m2: Mem, r: nat, first: nat, a: nat, ppn: nat, perm: Perm)
    requires MapsRange(m.tables, m2.tables, m.own, r, first, a, ppn, perm) && Own(m.own, r).Root? && a < NVPN
    ensures Leaf(m2.tables, r, a) == Leaf(m.tables, r, a)
  {
    hide Leaf, Own;
  }

  /** No page from first up to k was mapped. */
  ghost predicate Vacant(t: Tables, r: nat, first: nat, k: nat) {
    forall v: nat :: first <= v < k ==> v < NVPN && !Leaf(t, r, v).v
  }

  lemma {:induction false} VacantNone(t: Tables, r: nat, first: nat)
    ensures Vacant(t, r, first, first)
  {
  }

  lemma {:induction false} VacantStep(t: Tables, r: nat, first: nat, k: nat)
    requires Vacant(t, r, first, k) && k < NVPN && !Leaf(t, r, k).v
    ensures Vacant(t, r, first, k + 1)
  {
    hide Leaf;
  }

  lemma {:induction false} NoLeaf(t: Tables, r: nat, vpn: nat)
    requires !HasLow(t, r, vpn)
    ensures !Leaf(t, r, vpn).v
  {
  }

  lemma {:induction false} StillUnmapped(m: Mem, m1: Mem, m2: Mem, r: nat, first: nat, a: nat, ppn: nat, perm: Perm)
    requires MapsRange(m.tables, m1.tables, m.own, r, first, a, ppn, perm) && Own(m.own, r).Root? && a < NVPN
    requires OnlyTables(m, m1, r) && SameLeaves(m1.tables, m2.tables, m1.own) && Good(m2) && !Leaf(m.tables, r, a).v
    ensures forall q: nat :: Own(m2.own, q) != User(r, a)
  {
    MapsKept(m, m1, m2, r, first, a, ppn, perm);
    hide Leaf, Own, TableOf, Sizes, Down, Up, FreeOk;
    assert Leaf(m2.tables, r, a) == Leaf(m.tables, r, a);
    UnmappedUnowned(m2.tables, m2.own, r, a);
  }

  lemma {:induction false} TablesOnly(m: Mem, m': Mem, t: Tables, r: nat)
    requires OnlyTables(m, m', r)
    ensures OnlyTables(m, m'.(tables := t), r)
  {
  }

  lemma {:induction false} OwnerGone(m: Mem, r: nat, vpn: nat)
    requires Good(m) && Own(m.own, Leaf(m.tables, r, vpn).ppn) == User(r, vpn)
    ensures forall p: nat :: Own(Release(m, Leaf(m.tables, r, vpn).ppn).own, p) != User(r, vpn)
    ensures Own(m.own, r).Root? ==> Own(Release(m, Leaf(m.tables, r, vpn).ppn).own, r).Root?
  {
    var p := Leaf(m.tables, r, vpn).ppn;
    hide Leaf, Sizes, Down, Up, FreeOk;
    OwnAt(m.own, p, Free);
    var o' := Release(m, p).own;
    assert o' == m.own[p := Free];
    hide Own, Release;
    forall q: nat ensures Own(o', q) != User(r, vpn) {
      assert Own(m.own, q).User? ==> Mapped(m.tables, m.own, q, Own(m.own, q));
      assert Own(o', q) == if q == p then Free else Own(m.own, q);
    }
  }

  /** The pages still to be unmapped are as they were at the start. */
  lemma {:induction false} UnmapNext(m: Mem, m1: Mem, r: nat, first: nat, a: nat)
    requires Unmapped(m, m1, r, first, a) && Own(m.own, r).Root? && first <= a < NVPN
    ensures Own(m1.own, r).Root? && Leaf(m1.tables, r, a) == Leaf(m.tables, r, a)
    ensures Own(m.own, Leaf(m.tables, r, a).ppn) == User(r, a) ==> Own(m1.own, Leaf(m.tables, r, a).ppn) == User(r, a)
    ensures (forall p: nat :: Own(m.own, p) != User(r, a)) ==> forall p: nat :: Own(m1.own, p) != User(r, a)
  {
    hide Leaf, Own;
  }

  /** A page-table page is not on the free list. */
  lemma {:induction false} HeadNot(m: Mem, q: nat)
    requires Good(m) && m.free != [] && q in m.tables
    ensures m.free[0] != q && Own(Alloc(m).own, m.free[0]).Kernel?
  {
    hide Tree;
    assert m.free[0] in m.free;
  }

  lemma {:induction false} SameLeavesRefl(m: Mem, r: nat)
    ensures OnlyTables(m, m, r) && SameLeaves(m.tables, m.tables, m.own)
  {
  }

  lemma {:induction false} RootStays(m: Mem, m': Mem, r: nat, q: nat)
    requires OnlyTables(m, m', r)
    ensures Own(m.own, q).Root? ==> Own(m'.own, q).Root?
  {
  }

  lemma {:induction false} FreeCount(free: seq<nat>, o: Owners)
    requires FreeOk(free, o)
    ensures |set p | p in o && o[p].Free?| == |free|
  {
    var s := set p | p in o && o[p].Free?;
    var e := set k | 0 <= k < |free| :: free[k];
    assert s == e by {
      assert forall p: nat :: p in free <==> p in o && o[p].Free?;
    }
    Elements(free);
  }

  lemma {:induction false} Elements(free: seq<nat>)
    requires forall k, l :: 0 <= k < l < |free| ==> free[k] != free[l]
    ensures |set k | 0 <= k < |free| :: free[k]| == |free|
  {
    if free != [] {
      var front := free[..|free| - 1];
      Elements(front);
      assert (set k | 0 <= k < |free| :: free[k]) == (set k | 0 <= k < |front| :: front[k]) + {free[|free| - 1]};
    }
  }
}
