/** Copying an address space, and the bytes a process sees through its page table. */
module AddressSpace {
  import opened PageTree
  import opened PageOwnership
  import opened VirtualMemory
  import opened UserMemory

  // ----- uvmcopy

  /** Page v of new shows what page v of old shows, with the same flags on another frame. */
  ghost predicate CopiedPage(m: Mem, src: nat, dst: nat, v: nat)
    requires v < VPAGES
  {
    var p, q := Lookup(m.ts, src, v), Lookup(m.ts, dst, v);
    && q.flags == p.flags && q.ppn != p.ppn
    && p.ppn in m.data && q.ppn in m.data && m.data[q.ppn] == m.data[p.ppn]
  }

  /** The state of uvmcopy's loop at page a. */
  ghost predicate Copying(m0: Mem, m: Mem, src: nat, dst: nat, a: nat) {
    && src != dst && IsRoot(m0, src) && IsRoot(m0, dst)
    && Adding(m0, m, dst, 0, a) && OwnLeaves(m0, src, 0, a) && OwnLeaves(m, src, 0, a)
    && forall v: nat :: v < a ==> CopiedPage(m, src, dst, v)
  }

  /** What the parent has mapped below page n is on frames of its own. */
  ghost predicate OwnPages(m: Mem, src: nat, n: nat) {
    forall v: nat :: v < n && v < VPAGES && Lookup(m.ts, src, v).Valid() ==> IsLeaf(m, src, v) && OwnsFrame(m, src, v)
  }

  /** Page v can be copied: it is below MAXVA and mapped. */
  predicate Present(m: Mem, src: nat, v: nat) {
    v < VPAGES && Lookup(m.ts, src, v).Valid()
  }

  /** The first page of [a, n) that the parent does not have, or n. */
  function FirstHole(m: Mem, src: nat, a: nat, n: nat): (h: nat)
    requires a <= n
    ensures a <= h <= n && (h < n ==> !Present(m, src, h)) && forall v: nat :: a <= v < h ==> Present(m, src, v)
    decreases n - a
  {
    if a == n || !Present(m, src, a) then a else FirstHole(m, src, a + 1, n)
  }

  lemma StartCopying(m: Mem, src: nat, dst: nat)
    requires src != dst && IsRoot(m, src) && IsRoot(m, dst)
    ensures Copying(m, m, src, dst, 0)
  {
    StartAdding(m, dst, 0);
  }

  /** The source page at which the loop stands is as it was. */
  lemma SourcePage(m0: Mem, m: Mem, all: set<nat>, src: nat, dst: nat, a: nat, n: nat)
    requires Copying(m0, m, src, dst, a) && Inv(m, all) && OwnPages(m0, src, n) && a < n
    ensures IsRoot(m, src) && IsRoot(m, dst) && (Present(m, src, a) <==> Present(m0, src, a))
    ensures Present(m, src, a) ==>
              var p := Lookup(m.ts, src, a);
              && p.flags != {V} && p.ppn in m.place && p.ppn in m.data && LeafTable(m.ts, src, a).To?
              && IsLeaf(m0, src, a) && OwnsFrame(m0, src, a) && IsLeaf(m, src, a) && OwnsFrame(m, src, a)
  {
    hide Tabled, Empty;
    DataKeys(m, all);
    if a < VPAGES {
      assert Lookup(m.ts, src, a) == Lookup(m0.ts, src, a);
    }
  }

  lemma CopyingStep(m0: Mem, m: Mem, m': Mem, all: set<nat>, src: nat, dst: nat, a: nat)
    requires Copying(m0, m, src, dst, a) && Inv(m, all) && IsRoot(m, src) && IsRoot(m, dst) && Vacant(m, dst, a)
    requires IsLeaf(m0, src, a) && OwnsFrame(m0, src, a) && IsLeaf(m, src, a) && OwnsFrame(m, src, a)
    requires var p := Lookup(m.ts, src, a);
             p.ppn in m.data && Grew(m, m', dst, a, a + 1) && TookPath(m, m', dst, a)
             && FreshPage(m, m', dst, a, p.flags + {V}, m.data[p.ppn])
    ensures Copying(m0, m', src, dst, a + 1)
  {
    hide Lookup, Inv, Grew, OwnLeaves, FreshPage, CopiedPage, Adding, TookPath;
    DataKeys(m, all);
    var p := Lookup(m.ts, src, a);
    assert p.flags + {V} == p.flags;
    AddingStep(m0, m, m', all, dst, 0, a, p.flags, m.data[p.ppn]);
    OneMoreLeaf(m0, src, a);
    OneMoreLeaf(m, src, a);
    SourceKept(m, m', src, dst, a, a + 1);
    forall v: nat | v < a + 1
      ensures CopiedPage(m', src, dst, v)
    {
      CopyKept(m, m', src, dst, a, v);
    }
  }

  lemma OneMoreLeaf(m: Mem, src: nat, a: nat)
    requires OwnLeaves(m, src, 0, a) && a < VPAGES && IsLeaf(m, src, a) && OwnsFrame(m, src, a)
    ensures OwnLeaves(m, src, 0, a + 1)
  {
    hide Lookup;
  }

  lemma SourceKept(m: Mem, m': Mem, src: nat, dst: nat, a: nat, n: nat)
    requires OwnLeaves(m, src, 0, n) && Grew(m, m', dst, a, a + 1) && src != dst && IsRoot(m, src)
    ensures OwnLeaves(m', src, 0, n)
  {
    hide Lookup;
    forall v: nat | v < n
      ensures v < VPAGES && IsLeaf(m', src, v) && OwnsFrame(m', src, v)
    {
      assert v < VPAGES && IsLeaf(m, src, v) && OwnsFrame(m, src, v);
    }
  }

  lemma CopyKept(m: Mem, m': Mem, src: nat, dst: nat, a: nat, v: nat)
    requires v <= a < VPAGES && src != dst && IsRoot(m, src) && IsRoot(m, dst) && m.data.Keys == m.place.Keys
    requires var p := Lookup(m.ts, src, a);
             p.ppn in m.data && Grew(m, m', dst, a, a + 1) && FreshPage(m, m', dst, a, p.flags, m.data[p.ppn])
    requires v < a ==> CopiedPage(m, src, dst, v)
    ensures CopiedPage(m', src, dst, v)
  {
    hide Lookup;
  }

  /** Every address below sz of the parent is, in the child, mapped with the same flags on
      another frame with the same byte; no other byte of any address space is different. */
  ghost predicate Forked(m0: Mem, m: Mem, src: nat, dst: nat, sz: nat) {
    && src != dst && IsRoot(m, src) && IsRoot(m, dst)
    && (forall a: nat :: a < sz ==>
          a / PGSIZE < VPAGES && CopiedPage(m, src, dst, a / PGSIZE) && Lookup(m.ts, dst, a / PGSIZE).Valid()
          && SameByte(m0, src, m, dst, a))
    && (forall r: nat, a: nat :: IsRoot(m0, r) && (r != dst || a >= RoundUp(sz) * PGSIZE) ==> SameByte(m0, r, m, r, a))
  }

  lemma ForkCopies(m0: Mem, m: Mem, all: set<nat>, src: nat, dst: nat, sz: nat)
    requires Inv(m0, all) && Inv(m, all) && Copying(m0, m, src, dst, RoundUp(sz))
    ensures Forked(m0, m, src, dst, sz)
  {
    hide Lookup, Tabled;
    DataKeys(m0, all);
    DataKeys(m, all);
    var n := RoundUp(sz);
    forall a: nat | a < sz
      ensures a / PGSIZE < VPAGES && CopiedPage(m, src, dst, a / PGSIZE) && Lookup(m.ts, dst, a / PGSIZE).Valid()
      ensures SameByte(m0, src, m, dst, a)
    {
      PageOf(a, 0, n);
      ForkCopiesByte(m0, m, all, src, dst, n, a);
    }
    forall r: nat, a: nat | IsRoot(m0, r) && (r != dst || a >= n * PGSIZE)
      ensures SameByte(m0, r, m, r, a)
    {
      PageOf(a, 0, n);
      ByteStays(m0, m, all, r, a);
    }
  }

  lemma ForkCopiesByte(m0: Mem, m: Mem, all: set<nat>, src: nat, dst: nat, n: nat, a: nat)
    requires Inv(m0, all) && Inv(m, all) && Copying(m0, m, src, dst, n) && a / PGSIZE < n
    ensures a / PGSIZE < VPAGES && CopiedPage(m, src, dst, a / PGSIZE) && Lookup(m.ts, dst, a / PGSIZE).Valid()
    ensures SameByte(m0, src, m, dst, a)
  {
    hide Lookup, Inv, Copying;
    DataKeys(m0, all);
    CopyFacts(m0, m, src, dst, n, a / PGSIZE);
  }

  lemma CopyFacts(m0: Mem, m: Mem, src: nat, dst: nat, n: nat, v: nat)
    requires Copying(m0, m, src, dst, n) && v < n
    ensures v < VPAGES && CopiedPage(m, src, dst, v) && Lookup(m.ts, dst, v).Valid()
    ensures Lookup(m.ts, src, v) == Lookup(m0.ts, src, v) && OwnsFrame(m0, src, v) && FramesKept(m0, m)
  {
    hide Lookup, Tabled, Empty, CopiedPage, FramesKept, OwnsFrame;
    assert IsLeaf(m, dst, v) && IsLeaf(m0, src, v) && OwnsFrame(m0, src, v);
    assert Lookup(m.ts, src, v) == Lookup(m0.ts, src, v);
    assert CopiedPage(m, src, dst, v);
  }

  lemma CopyingAdds(m0: Mem, m: Mem, src: nat, dst: nat, a: nat)
    requires Copying(m0, m, src, dst, a)
    ensures Adding(m0, m, dst, 0, a)
  {
  }

  /** uvmcopy, for a parent whose pages are on frames of its own.  Up to the first page that
      the parent does not have, it goes as adding the pages to the child must.  If they are
      all the pages below sz, it succeeds, and the child has the same bytes and flags on
      frames of its own; if not, it panics.  When memory runs out before, everything is as
      it was. */
  method Uvmcopy(vm: Vm, src: nat, dst: nat, sz: nat) returns (r: int, ok: bool)
    requires vm.Valid() && IsRoot(vm.View(), src) && IsRoot(vm.View(), dst) && src != dst
    requires OwnPages(vm.View(), src, RoundUp(sz))
    modifies vm`free, vm`ts, vm`data, vm`pos, vm`place
    ensures ok ==> vm.Valid()
    ensures var n, h := RoundUp(sz), FirstHole(old(vm.View()), src, 0, RoundUp(sz));
            match GrowOutcome(old(vm.View()), dst, 0, h)
            case Grown => if h == n then ok && r == 0 && Forked(old(vm.View()), vm.View(), src, dst, sz) else !ok
            case OutOfMemory => ok && r == -1 && Restored(old(vm.View()), vm.View())
            case Refused => !ok
  {
    hide Inv, Lookup, SameMaps, SameFrames, Grew, Empty, OwnLeaves, Copying, Adding, FreshPage, TookPath, Vacant,
         ShortFor, GrowNeed, FirstBad, FirstHole, Restored, Present, OwnPages, Forked;
    ghost var m0, n := vm.View(), RoundUp(sz);
    ghost var h := FirstHole(m0, src, 0, n);
    StartCopying(m0, src, dst);
    var v := 0;
    while v * PGSIZE < sz
      invariant vm.Valid() && v <= h && Copying(m0, vm.View(), src, dst, v) && v <= FirstBad(m0, dst, 0, h)
      decreases n - v
    {
      ghost var m := vm.View();
      CopyingAdds(m0, m, src, dst, v);
      SourcePage(m0, m, vm.all, src, dst, v, n);
      HoleHere(m0, src, v, n);
      var pte, there := SourceEntry(vm, src, v);
      if !there {
        CopyPanics(m0, m, dst, v, h);
        return 0, false;
      }
      AddingFacts(m0, m, dst, 0, v, h);
      var s := GrowPage(vm, dst, v, vm.data[pte.ppn], pte.flags);
      if s.Panic? {
        AddingPaid(m0, m, dst, 0, v);
        return 0, false;
      }
      if s.NoMemory? {
        AddingShort(m0, m, dst, 0, v, h);
        Stalled(m0, m, vm.View(), dst, 0, v);
        UndoCopy(vm, dst, v, m0);
        return -1, true;
      }
      CopyingStep(m0, m, vm.View(), vm.all, src, dst, v);
      v := v + 1;
    }
    CopyingAdds(m0, vm.View(), src, dst, v);
    AddingPaid(m0, vm.View(), dst, 0, v);
    ForkCopies(m0, vm.View(), vm.all, src, dst, sz);
    return 0, true;
  }

  /** At page v, up to which the parent has all pages. */
  lemma HoleHere(m: Mem, src: nat, v: nat, n: nat)
    requires v < n && v <= FirstHole(m, src, 0, n)
    ensures Present(m, src, v) <==> v < FirstHole(m, src, 0, n)
  {
  }

  lemma CopyPanics(m0: Mem, m: Mem, dst: nat, v: nat, h: nat)
    requires Adding(m0, m, dst, 0, v) && v == h && v <= FirstBad(m0, dst, 0, h)
    ensures GrowOutcome(m0, dst, 0, h).Grown?
  {
    hide Adding, FirstBad, GrowNeed;
    AddingPaid(m0, m, dst, 0, v);
    FirstBadWithin(m0, dst, h);
  }

  lemma FirstBadWithin(m: Mem, root: nat, h: nat)
    ensures FirstBad(m, root, 0, h) <= h
  {
  }

  /** uvmunmap(new, 0, i / PGSIZE, 1): the pages copied so far are taken away again. */
  method UndoCopy(vm: Vm, dst: nat, v: nat, ghost m0: Mem)
    requires vm.Valid() && IsRoot(vm.View(), dst) && Inv(m0, vm.all)
    requires Grew(m0, vm.View(), dst, 0, v) && OwnLeaves(vm.View(), dst, 0, v) && Empty(m0, dst, 0, v)
    modifies vm`free, vm`ts, vm`data, vm`pos, vm`place
    ensures vm.Valid() && Restored(m0, vm.View())
  {
    hide Inv, OwnsRange, LeafRange, RangeErased, Released, SameMaps, SameFrames, Grew, Empty, OwnLeaves;
    ghost var m1 := vm.View();
    LeavesRange(m1, dst, 0, v);
    var ok := vm.Uvmunmap(dst, 0, v, true);
    Undone(m0, m1, vm.View(), vm.all, dst, 0, v);
  }

  /** walk(old, i, 0) and the panic tests of walk and uvmcopy. */
  method SourceEntry(vm: Vm, src: nat, v: nat) returns (pte: Pte, ok: bool)
    requires vm.Valid() && IsRoot(vm.View(), src)
    modifies vm`free, vm`ts, vm`data, vm`pos, vm`place
    ensures vm.View() == old(vm.View()) && (ok <==> Present(vm.View(), src, v))
    ensures ok ==> pte == Lookup(vm.ts, src, v)
  {
    hide Inv, Extends;
    pte := NoPte();
    if v >= VPAGES {
      return pte, false;
    }
    var t;
    t, ok := vm.Walk(src, v, false);
    if ok {
      pte := vm.ts[t][Index(0, v)];
      ok := pte.Valid();
    }
  }
}
