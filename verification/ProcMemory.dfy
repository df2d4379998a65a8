/** The page-table part of a process: making one, growing it, and giving it all back. */
module ProcMemory {
  import opened Common
  import opened PageTree
  import opened PageOwnership
  import opened VirtualMemory
  import opened UserMemory
  import opened FreeTables

  const TRAMPOLINE: nat := VPAGES - 1       // page of the trampoline code
  const TRAPFRAME: nat := VPAGES - 2

  // ----- giving up a page table that was just made

  /** m' translates and holds what m did, in the same places, with the same pages free. */
  ghost predicate Intact(m: Mem, m': Mem) {
    && SameMaps(m, m') && SameFrames(m, m') && m'.ts.Keys == m.ts.Keys
    && forall p: nat :: OnFreeList(m'.free, p) <==> OnFreeList(m.free, p)
  }

  /** m1 is m with one more page table, root, and possibly more tables under it. */
  ghost predicate OneMoreRoot(m: Mem, m1: Mem, root: nat) {
    && root !in m.pos && TablesUnder(m.pos[root := Root], m1.pos, root) && root in m1.pos && m1.pos[root].Root?
    && m1.place == m.place && m1.data == m.data
    && forall r: nat, v: nat :: IsRoot(m, r) && v < VPAGES ==> Lookup(m1.ts, r, v) == Lookup(m.ts, r, v)
  }

  lemma RootsOf(m: Mem, m1: Mem, root: nat)
    requires OneMoreRoot(m, m1, root)
    ensures forall r: nat :: IsRoot(m1, r) <==> IsRoot(m, r) || r == root
  {
    hide Lookup;
    forall r: nat
      ensures IsRoot(m1, r) <==> IsRoot(m, r) || r == root
    {
      assert r in m1.pos && r !in m.pos[root := Root] ==> !m1.pos[r].Root?;
    }
  }

  /** The tables under root are exactly the new ones. */
  lemma NewTables(m: Mem, m1: Mem, all: set<nat>, root: nat, u: nat)
    requires Inv(m, all) && Inv(m1, all) && OneMoreRoot(m, m1, root) && u in m1.pos
    ensures u in Subtree(m1.pos, root) <==> u !in m.pos
  {
    hide Lookup, Conserved, UserOwned, PlacedAt;
    var p := m.pos[root := Root];
    if u in m.pos {
      assert m1.pos[u] == p[u] == m.pos[u];
      assert Hangs(m.ts, m.pos, u);
      assert m.pos[u].Root? || m.pos[u].root in m.pos;
    } else if u != root {
      assert u !in p;
      assert !m1.pos[u].Root? && m1.pos[u].root == root && Hangs(m1.ts, m1.pos, u);
      NewBranch(m1.pos, root, u);
    }
  }

  lemma NewBranch(pos: Places, root: nat, u: nat)
    requires root in pos && pos[root].Root? && u in pos && !pos[u].Root? && pos[u].root == root
    ensures pos[u].i2 < ENTRIES ==> u in Subtree(pos, root)
  {
    assert InBranches(pos, root, 0, ENTRIES, u) <==> pos[u].i2 < ENTRIES;
  }

  lemma Abandoned(m: Mem, m1: Mem, m2: Mem, all: set<nat>, root: nat)
    requires Inv(m, all) && Inv(m1, all) && Inv(m2, all) && OneMoreRoot(m, m1, root)
    requires IsRoot(m1, root) && Unmapped(m1, root) && Returned(m1, m2, root)
    ensures Intact(m, m2)
  {
    hide Lookup, Inv;
    RootsOf(m, m1, root);
    AbandonedMaps(m, m1, m2, root);
    AbandonedFrames(m, m1, m2, all, root);
    KeysAgree(m, all);
    KeysAgree(m1, all);
    forall u: nat
      ensures u in m2.ts <==> u in m.ts
    {
      if u in m1.pos {
        NewTables(m, m1, all, root, u);
      } else {
        OldTables(m, m1, root, u);
      }
    }
    assert m2.ts.Keys == m.ts.Keys;
    SameFree(m, m2, all);
  }

  lemma OldTables(m: Mem, m1: Mem, root: nat, u: nat)
    requires OneMoreRoot(m, m1, root) && u !in m1.pos
    ensures u !in m.pos
  {
    hide Lookup;
    assert u in m.pos ==> u in m.pos[root := Root];
  }

  lemma AbandonedMaps(m: Mem, m1: Mem, m2: Mem, root: nat)
    requires OneMoreRoot(m, m1, root) && IsRoot(m1, root) && Returned(m1, m2, root)
    requires forall r: nat :: IsRoot(m1, r) <==> IsRoot(m, r) || r == root
    ensures SameMaps(m, m2)
  {
    hide Lookup, Subtree;
    assert !IsRoot(m, root);
  }

  lemma AbandonedFrames(m: Mem, m1: Mem, m2: Mem, all: set<nat>, root: nat)
    requires Inv(m1, all) && OneMoreRoot(m, m1, root) && IsRoot(m1, root) && Unmapped(m1, root) && Returned(m1, m2, root)
    ensures SameFrames(m, m2)
  {
    hide Lookup, Subtree, TreeOk, Conserved, UserOwned;
    forall g: nat | g in m1.place
      ensures !Belongs(m1.place[g], root, 0, VPAGES)
    {
      assert PlacedAt(m1, g);
    }
  }

  lemma SameFree(m: Mem, m2: Mem, all: set<nat>)
    requires Inv(m, all) && Inv(m2, all) && m2.ts.Keys == m.ts.Keys && SameFrames(m, m2)
    ensures forall p: nat :: OnFreeList(m2.free, p) <==> OnFreeList(m.free, p)
  {
    hide Lookup, TreeOk, UserOwned, PlacedAt;
    forall p: nat
      ensures OnFreeList(m2.free, p) <==> OnFreeList(m.free, p)
    {
      assert p in m.ts <==> p in m.ts.Keys;
      assert p in m2.ts <==> p in m2.ts.Keys;
      assert p in m.place <==> p in m2.place;
      Elsewhere(m, all, p);
      Elsewhere(m2, all, p);
    }
  }

  lemma Elsewhere(m: Mem, all: set<nat>, p: nat)
    requires Inv(m, all)
    ensures OnFreeList(m.free, p) <==> p in all && p !in m.ts && p !in m.place
  {
    hide Lookup, TreeOk, UserOwned, PlacedAt;
  }

  // ----- proc_pagetable

  /** root maps the trampoline to page tramp and the trap frame to page tf, and nothing else. */
  ghost predicate KernelPagesOnly(m: Mem, root: nat, tramp: nat, tf: nat) {
    && Lookup(m.ts, root, TRAMPOLINE) == Pte(tramp, {R, X, V}) && Lookup(m.ts, root, TRAPFRAME) == Pte(tf, {R, W, V})
    && forall v: nat :: v < TRAPFRAME ==> Lookup(m.ts, root, v) == NoPte()
  }

  /** One page mapped at the top of a new table, or nothing. */
  method MapTop(vm: Vm, root: nat, v: nat, pa: nat, perm: set<Flag>, ghost m: Mem) returns (ok: bool)
    requires vm.Valid() && OneMoreRoot(m, vm.View(), root) && v < VPAGES && !Lookup(vm.ts, root, v).Valid() && U !in perm
    modifies vm`free, vm`ts, vm`data, vm`pos, vm`place
    ensures vm.Valid() && OneMoreRoot(m, vm.View(), root)
    ensures ok <==> |PathOf(root, v) - old(vm.pos).Values| <= |old(vm.free)|
    ensures ok ==> vm.pos.Values == old(vm.pos).Values + PathOf(root, v)
                   && |vm.free| == |old(vm.free)| - |PathOf(root, v) - old(vm.pos).Values|
    ensures forall w: nat :: w < VPAGES ==>
              Lookup(vm.ts, root, w) == if ok && w == v then Pte(pa, perm + {V}) else Lookup(old(vm.ts), root, w)
  {
    hide Inv, Lookup, RangeMapped, Claimed, TablesUnder, OneMoreRoot, PathOf, Tabled, TableNeed;
    ghost var m1 := vm.View();
    RootAt(m, m1, root);
    var s;
    ghost var k;
    s, k := vm.Mappages(root, v * PGSIZE, PGSIZE, pa * PGSIZE, perm, false);
    ok := s.Done?;
    assert v * PGSIZE / PGSIZE == v && pa * PGSIZE / PGSIZE == pa && (v * PGSIZE + PGSIZE - 1) / PGSIZE == v;
    TopMapped(m, m1, vm.View(), root, v, k, pa, perm + {V});
    OneTabled(m1, vm.View(), root, v);
  }

  /** What a single page takes. */
  lemma OneTabled(m: Mem, m': Mem, root: nat, v: nat)
    requires v < VPAGES
    ensures TableNeed(m.pos.Values, root, v, v + 1) == |PathOf(root, v) - m.pos.Values|
    ensures Tabled(m, m', root, v, v + 1, 0) ==>
              m'.pos.Values == m.pos.Values + PathOf(root, v)
              && |m'.free| == |m.free| - |PathOf(root, v) - m.pos.Values|
  {
    assert TablesFor(root, v, v) == {};
    assert TablesFor(root, v, v + 1) == PathOf(root, v);
  }

  lemma RootAt(m: Mem, m1: Mem, root: nat)
    requires OneMoreRoot(m, m1, root)
    ensures IsRoot(m1, root)
  {
    hide Lookup, TablesUnder;
  }

  lemma TopMapped(m: Mem, m1: Mem, m2: Mem, root: nat, v: nat, k: nat, f: nat, flags: set<Flag>)
    requires OneMoreRoot(m, m1, root) && RangeMapped(m1, m2, root, v, v + k, f, flags) && k <= 1 && v < VPAGES
    requires Claimed(m1.place, m2.place, false, root, v, f, k) && m2.data == m1.data && TablesUnder(m1.pos, m2.pos, root)
    ensures OneMoreRoot(m, m2, root)
    ensures forall w: nat :: w < VPAGES ==>
              Lookup(m2.ts, root, w) == if k == 1 && w == v then Pte(f, flags) else Lookup(m1.ts, root, w)
  {
    hide Lookup;
    UnderTwice(m.pos[root := Root], m1.pos, m2.pos, root);
    assert m2.place == m1.place;
    assert !IsRoot(m, root);
    forall r: nat, w: nat | IsRoot(m, r) && w < VPAGES
      ensures Lookup(m2.ts, r, w) == Lookup(m.ts, r, w)
    {
      assert r in m.pos[root := Root] && IsRoot(m1, r);
    }
  }

  lemma NothingOwned(m: Mem, root: nat)
    ensures OwnsRange(m, root, 0, 0)
  {
  }

  lemma UnmappedIsMarked(m: Mem, root: nat)
    requires Unmapped(m, root)
    ensures MarkedLeaves(m, root) && MapsExactly(m, root, 0)
  {
    hide Lookup;
  }

  /** uvmfree(pagetable, 0), on the way out of proc_pagetable. */
  method GiveUp(vm: Vm, root: nat, ghost m: Mem)
    requires vm.Valid() && Inv(m, vm.all) && OneMoreRoot(m, vm.View(), root) && Unmapped(vm.View(), root)
    modifies vm`free, vm`ts, vm`data, vm`pos, vm`place
    ensures vm.Valid() && Intact(m, vm.View())
  {
    hide Inv, Lookup, OneMoreRoot, Unmapped, Returned, Intact, MapsExactly, MarkedLeaves, OwnsRange;
    ghost var m1 := vm.View();
    RootAt(m, m1, root);
    NothingOwned(m1, root);
    UnmappedIsMarked(m1, root);
    var ok := Uvmfree(vm, root, 0);
    Abandoned(m, m1, vm.View(), vm.all, root);
  }

  /** proc_pagetable: given three free pages, a new table mapping just the trampoline and
      the trap frame; with fewer, everything as it was, free pages included. */
  method ProcPagetable(vm: Vm, tramp: nat, tf: nat) returns (root: nat, ok: bool)
    requires vm.Valid()
    modifies vm`free, vm`ts, vm`data, vm`pos, vm`place
    ensures vm.Valid() && (ok <==> |old(vm.free)| >= 3)
    ensures ok ==> |vm.free| == |old(vm.free)| - 3
    ensures ok ==> OneMoreRoot(old(vm.View()), vm.View(), root) && KernelPagesOnly(vm.View(), root, tramp, tf)
    ensures !ok ==> Intact(old(vm.View()), vm.View())
  {
    hide Inv, Lookup, OneMoreRoot, Unmapped, Intact, TablesUnder, PathOf;
    ghost var m := vm.View();
    IntactSelf(m);
    root, ok := Uvmcreate(vm);
    if !ok {
      return;
    }
    NewRoot(m, vm.View(), root);
    NewPath(m, vm.View(), vm.all, root);
    ok := MapTop(vm, root, TRAMPOLINE, tramp, {R, X}, m);
    if !ok {
      AllUnmapped(vm.View(), root);
      GiveUp(vm, root, m);
      return;
    }
    SharedPath(root, vm.pos.Values);
    ok := MapTrapframe(vm, root, tramp, tf, m);
  }

  /** The part of proc_pagetable after the trampoline has been mapped. */
  method MapTrapframe(vm: Vm, root: nat, tramp: nat, tf: nat, ghost m: Mem) returns (ok: bool)
    requires vm.Valid() && Inv(m, vm.all) && OneMoreRoot(m, vm.View(), root)
    requires forall v: nat :: v < VPAGES ==>
               Lookup(vm.ts, root, v) == if v == TRAMPOLINE then Pte(tramp, {R, X} + {V}) else NoPte()
    modifies vm`free, vm`ts, vm`data, vm`pos, vm`place
    ensures vm.Valid() && (ok <==> |PathOf(root, TRAPFRAME) - old(vm.pos).Values| <= |old(vm.free)|)
    ensures ok ==> |vm.free| == |old(vm.free)| - |PathOf(root, TRAPFRAME) - old(vm.pos).Values|
    ensures ok ==> OneMoreRoot(m, vm.View(), root) && KernelPagesOnly(vm.View(), root, tramp, tf)
    ensures !ok ==> Intact(m, vm.View())
  {
    hide Inv, Lookup, OneMoreRoot, Unmapped, Intact, TablesUnder, PathOf;
    ok := MapTop(vm, root, TRAPFRAME, tf, {R, W}, m);
    if !ok {
      Untrampoline(vm, root, tramp, m);
      GiveUp(vm, root, m);
      return;
    }
    assert {R, X} + {V} == {R, X, V} && {R, W} + {V} == {R, W, V};
  }

  /** A table that was just made has no tables below it. */
  lemma NewPath(m: Mem, m1: Mem, all: set<nat>, root: nat)
    requires Inv(m, all) && root !in m.pos && m1.pos == m.pos[root := Root]
    ensures |PathOf(root, TRAMPOLINE) - m1.pos.Values| == 2
  {
    BareRoot(m, all, root);
    hide Inv, Index;
    OneMoreValue(m.pos, root, Root);
    TwoTables(root, TRAMPOLINE, m1.pos.Values);
  }

  lemma BareRoot(m: Mem, all: set<nat>, root: nat)
    requires Inv(m, all) && root !in m.pos
    ensures forall p :: p in m.pos.Values ==> p.Root? || p.root != root
  {
    hide Lookup, Conserved, UserOwned, PlacedAt;
    forall u | u in m.pos
      ensures m.pos[u].Root? || m.pos[u].root != root
    {
      assert Hangs(m.ts, m.pos, u);
    }
  }

  lemma TwoTables(root: nat, v: nat, have: set<Pos>)
    requires v < VPAGES && forall p :: p in have ==> p.Root? || p.root != root
    ensures |PathOf(root, v) - have| == 2
  {
    hide Index;
    var a, b := Mid(root, Index(2, v)), Leaf(root, Index(2, v), Index(1, v));
    assert PathOf(root, v) - have == {a} + {b};
  }

  /** The trap frame is reached through the trampoline's tables. */
  lemma SharedPath(root: nat, have: set<Pos>)
    ensures PathOf(root, TRAPFRAME) == PathOf(root, TRAMPOLINE)
    ensures PathOf(root, TRAMPOLINE) <= have ==> |PathOf(root, TRAPFRAME) - have| == 0
  {
    if PathOf(root, TRAMPOLINE) <= have {
      assert PathOf(root, TRAMPOLINE) - have == {};
    }
  }

  lemma IntactSelf(m: Mem)
    ensures Intact(m, m)
  {
  }

  lemma NewRoot(m: Mem, m1: Mem, root: nat)
    requires root !in m.pos && m1.pos == m.pos[root := Root] && m1.place == m.place && m1.data == m.data
    requires forall r: nat, v: nat :: IsRoot(m, r) && v < VPAGES ==> Lookup(m1.ts, r, v) == Lookup(m.ts, r, v)
    ensures OneMoreRoot(m, m1, root)
  {
    hide Lookup;
    UnderSelf(m1.pos, root);
  }

  lemma AllUnmapped(m: Mem, root: nat)
    requires forall v: nat :: v < VPAGES ==> Lookup(m.ts, root, v) == NoPte()
    ensures Unmapped(m, root)
  {
    hide Lookup;
  }

  /** uvmunmap(pagetable, TRAMPOLINE, 1, 0) on a table that maps nothing else. */
  method Untrampoline(vm: Vm, root: nat, tramp: nat, ghost m: Mem)
    requires vm.Valid() && Inv(m, vm.all) && OneMoreRoot(m, vm.View(), root)
    requires forall v: nat :: v < VPAGES ==>
               Lookup(vm.ts, root, v) == if v == TRAMPOLINE then Pte(tramp, {R, X} + {V}) else NoPte()
    modifies vm`free, vm`ts, vm`data, vm`pos, vm`place
    ensures vm.Valid() && OneMoreRoot(m, vm.View(), root) && Unmapped(vm.View(), root)
  {
    hide Inv, Lookup, OneMoreRoot, LeafRange, RangeErased, Released, OwnsRange;
    ghost var m1 := vm.View();
    RootAt(m, m1, root);
    TrampolineLeaf(m1, root, tramp);
    NotPlaced(m, m1, vm.all, root);
    var ok := vm.Uvmunmap(root, TRAMPOLINE * PGSIZE, 1, false);
    assert TRAMPOLINE * PGSIZE / PGSIZE == TRAMPOLINE;
    Untrampolined(m, m1, vm.View(), vm.all, root);
  }

  lemma TrampolineLeaf(m: Mem, root: nat, tramp: nat)
    requires Lookup(m.ts, root, TRAMPOLINE) == Pte(tramp, {R, X} + {V})
    ensures LeafRange(m, root, TRAMPOLINE, TRAMPOLINE + 1)
  {
    hide Lookup;
    assert R in {R, X} + {V};
  }

  /** No frame belongs to a table that did not exist. */
  lemma NotPlaced(m: Mem, m1: Mem, all: set<nat>, root: nat)
    requires Inv(m, all) && OneMoreRoot(m, m1, root)
    ensures forall g: nat :: g in m1.place ==> !(m1.place[g].Mapped? && m1.place[g].root == root)
  {
    hide Lookup, TreeOk, Conserved, UserOwned;
    forall g: nat | g in m1.place
      ensures !(m1.place[g].Mapped? && m1.place[g].root == root)
    {
      assert PlacedAt(m, g);
    }
  }

  lemma Untrampolined(m: Mem, m1: Mem, m2: Mem, all: set<nat>, root: nat)
    requires OneMoreRoot(m, m1, root) && RangeErased(m1, m2, root, TRAMPOLINE, TRAMPOLINE + 1) && m2.pos == m1.pos
    requires Released(m1, m2, root, TRAMPOLINE, TRAMPOLINE + 1, false) && Inv(m1, all) && Inv(m2, all)
    requires forall g: nat :: g in m1.place ==> !(m1.place[g].Mapped? && m1.place[g].root == root)
    requires forall v: nat :: v < TRAMPOLINE ==> !Lookup(m1.ts, root, v).Valid()
    ensures OneMoreRoot(m, m2, root) && Unmapped(m2, root)
  {
    DataKeys(m1, all);
    DataKeys(m2, all);
    hide Lookup, Inv, TablesUnder;
    assert m2.place == m1.place;
    assert m2.data == m1.data;
    forall r: nat, v: nat | IsRoot(m, r) && v < VPAGES
      ensures Lookup(m2.ts, r, v) == Lookup(m.ts, r, v)
    {
      RootStays(m, m1, root, r);
    }
  }

  lemma RootStays(m: Mem, m1: Mem, root: nat, r: nat)
    requires OneMoreRoot(m, m1, root) && IsRoot(m, r)
    ensures IsRoot(m1, r) && r != root
  {
    hide Lookup;
    assert r in m.pos[root := Root];
  }

  // ----- proc_freepagetable

  /** The two kernel pages, [0, n), and nothing else, are mapped to leaves. */
  ghost predicate ProcessMaps(m: Mem, root: nat, n: nat) {
    && n <= TRAPFRAME && LeafRange(m, root, 0, n) && IsLeaf(m, root, TRAMPOLINE) && IsLeaf(m, root, TRAPFRAME)
    && forall v: nat :: n <= v < TRAPFRAME ==> !Lookup(m.ts, root, v).Valid()
  }

  /** The frames of the two kernel pages belong to nobody's address space. */
  ghost predicate KernelPagesUnowned(m: Mem, root: nat) {
    forall g: nat :: g in m.place ==> !Belongs(m.place[g], root, TRAPFRAME, VPAGES)
  }

  /** m1 is m without the mapping of page v of root. */
  ghost predicate OneErased(m: Mem, m1: Mem, root: nat, v: nat) {
    && RangeErased(m, m1, root, v, v + 1) && m1.pos == m.pos && m1.place == m.place && m1.data == m.data && m1.free == m.free
  }

  method DropKernelPage(vm: Vm, root: nat, v: nat) returns (ok: bool)
    requires vm.Valid() && IsRoot(vm.View(), root) && TRAPFRAME <= v < VPAGES && KernelPagesUnowned(vm.View(), root)
    modifies vm`free, vm`ts, vm`data, vm`pos, vm`place
    ensures vm.Valid() && (ok <==> IsLeaf(old(vm.View()), root, v))
    ensures ok ==> OneErased(old(vm.View()), vm.View(), root, v)
  {
    hide Inv, Lookup, LeafRange, RangeErased, Released, OwnsRange, KernelPagesUnowned;
    ghost var m := vm.View();
    JustOne(m, root, v);
    ok := vm.Uvmunmap(root, v * PGSIZE, 1, false);
    assert v * PGSIZE / PGSIZE == v && v * PGSIZE % PGSIZE == 0;
    if ok {
      NothingReleased(m, vm.View(), vm.all, root, v);
    }
  }

  lemma JustOne(m: Mem, root: nat, v: nat)
    requires v < VPAGES
    ensures LeafRange(m, root, v, v + 1) <==> IsLeaf(m, root, v)
  {
    hide Lookup;
  }

  lemma NothingReleased(m: Mem, m1: Mem, all: set<nat>, root: nat, v: nat)
    requires Inv(m, all) && Inv(m1, all) && TRAPFRAME <= v < VPAGES && KernelPagesUnowned(m, root)
    requires Released(m, m1, root, v, v + 1, false)
    ensures m1.place == m.place && m1.data == m.data && m1.free == m.free
  {
    DataKeys(m, all);
    DataKeys(m1, all);
    hide Inv;
    assert m1.place == m.place;
  }

  lemma ErasedKeeps(m: Mem, m1: Mem, root: nat, v: nat, n: nat)
    requires OneErased(m, m1, root, v) && v < VPAGES && n <= v
    ensures IsRoot(m1, root) && (KernelPagesUnowned(m, root) ==> KernelPagesUnowned(m1, root))
    ensures OwnsRange(m, root, 0, n) ==> OwnsRange(m1, root, 0, n)
    ensures MarkedLeaves(m, root) ==> MarkedLeaves(m1, root)
    ensures forall w: nat :: w < VPAGES ==> Lookup(m1.ts, root, w) == if w == v then NoPte() else Lookup(m.ts, root, w)
  {
    hide Lookup;
    if OwnsRange(m, root, 0, n) {
      forall w: nat | w < n && w < VPAGES
        ensures OwnsFrame(m1, root, w)
      {
        assert OwnsFrame(m, root, w);
      }
    }
  }

  /** proc_freepagetable, for a process whose pages below sz are its own: gets through
      exactly when those, the trampoline and the trap frame are all that is mapped, and then
      every frame of [0, sz) and every table is back on the free list, once. */
  method ProcFreepagetable(vm: Vm, root: nat, sz: nat) returns (ok: bool)
    requires vm.Valid() && IsRoot(vm.View(), root) && RoundUp(sz) <= TRAPFRAME
    requires OwnsRange(vm.View(), root, 0, RoundUp(sz)) && MarkedLeaves(vm.View(), root)
    requires KernelPagesUnowned(vm.View(), root)
    modifies vm`free, vm`ts, vm`data, vm`pos, vm`place
    ensures ok <==> ProcessMaps(old(vm.View()), root, RoundUp(sz))
    ensures ok ==> vm.Valid() && Returned(old(vm.View()), vm.View(), root)
  {
    hide Inv, Lookup, LeafRange, OwnsRange, MarkedLeaves, KernelPagesUnowned, OneErased, Returned, MapsExactly;
    ghost var m, n := vm.View(), RoundUp(sz);
    ok := DropKernelPage(vm, root, TRAMPOLINE);
    if !ok {
      return;
    }
    ghost var m1 := vm.View();
    ErasedKeeps(m, m1, root, TRAMPOLINE, n);
    ok := DropKernelPage(vm, root, TRAPFRAME);
    if !ok {
      return;
    }
    ghost var m2 := vm.View();
    ErasedKeeps(m1, m2, root, TRAPFRAME, n);
    StillExact(m, m1, m2, root, n);
    ok := Uvmfree(vm, root, sz);
    if ok {
      BothErased(m, m1, m2, vm.View(), vm.all, root);
    }
  }

  lemma StillExact(m: Mem, m1: Mem, m2: Mem, root: nat, n: nat)
    requires n <= TRAPFRAME && IsLeaf(m, root, TRAMPOLINE) && IsLeaf(m1, root, TRAPFRAME)
    requires forall w: nat :: w < VPAGES ==> Lookup(m1.ts, root, w) == if w == TRAMPOLINE then NoPte() else Lookup(m.ts, root, w)
    requires forall w: nat :: w < VPAGES ==> Lookup(m2.ts, root, w) == if w == TRAPFRAME then NoPte() else Lookup(m1.ts, root, w)
    ensures ProcessMaps(m, root, n) <==> MapsExactly(m2, root, n)
  {
    hide Lookup;
    SameLeafRange(m, m2, root, n);
    if MapsExactly(m2, root, n) {
      forall v: nat | n <= v < TRAPFRAME
        ensures !Lookup(m.ts, root, v).Valid()
      {
        assert Lookup(m2.ts, root, v) == Lookup(m.ts, root, v);
      }
    }
  }

  lemma SameLeafRange(m: Mem, m2: Mem, root: nat, n: nat)
    requires n <= TRAPFRAME && forall w: nat :: w < n ==> Lookup(m2.ts, root, w) == Lookup(m.ts, root, w)
    ensures LeafRange(m, root, 0, n) <==> LeafRange(m2, root, 0, n)
  {
    hide Lookup;
    assert forall w: nat :: w < n ==> (IsLeaf(m, root, w) <==> IsLeaf(m2, root, w));
  }

  /** Dropping the two mappings does not change what is to be returned. */
  lemma BothErased(m: Mem, m1: Mem, m2: Mem, m3: Mem, all: set<nat>, root: nat)
    requires OneErased(m, m1, root, TRAMPOLINE) && OneErased(m1, m2, root, TRAPFRAME) && IsRoot(m2, root)
    requires Inv(m, all) && Inv(m2, all) && Returned(m2, m3, root)
    ensures IsRoot(m, root) && Returned(m, m3, root)
  {
    hide Lookup, Inv, Subtree, RangeErased;
    KeysAgree(m, all);
    KeysAgree(m2, all);
    assert m.ts.Keys == m2.ts.Keys;
    ErasedTwice(m, m1, m2, m3, root);
  }

  lemma ErasedTwice(m: Mem, m1: Mem, m2: Mem, m3: Mem, root: nat)
    requires RangeErased(m, m1, root, TRAMPOLINE, TRAMPOLINE + 1) && RangeErased(m1, m2, root, TRAPFRAME, TRAPFRAME + 1)
    requires forall r: nat :: IsRoot(m3, r) <==> IsRoot(m2, r) && r != root
    requires forall r: nat, v: nat :: IsRoot(m3, r) && v < VPAGES ==> Lookup(m3.ts, r, v) == Lookup(m2.ts, r, v)
    ensures forall r: nat :: IsRoot(m3, r) <==> IsRoot(m, r) && r != root
    ensures forall r: nat, v: nat :: IsRoot(m3, r) && v < VPAGES ==> Lookup(m3.ts, r, v) == Lookup(m.ts, r, v)
  {
    hide Lookup;
  }

  // ----- growproc

  /** The new size, in the 32-bit arithmetic of growproc. */
  function NewSize(sz: nat, n: int): (r: nat) { (sz + n) % UINT_MOD }

  /** growproc.  A request that would take the size below 0, or to 2^32 and beyond, changes
      nothing and succeeds.  Otherwise it grows by zeroed pages, or fails leaving everything
      as it was, or panics, exactly as uvmalloc must; or it shrinks by the pages above the
      new size, and panics exactly when they are not all mapped. */
  method Growproc(vm: Vm, root: nat, psz: nat, n: int) returns (r: int, size: nat, ok: bool)
    requires vm.Valid() && IsRoot(vm.View(), root) && psz < UINT_MOD && -0x8000_0000 <= n < 0x8000_0000
    requires OwnsRange(vm.View(), root, 0, RoundUp(psz))
    modifies vm`free, vm`ts, vm`data, vm`pos, vm`place
    ensures ok ==> vm.Valid() && IsRoot(vm.View(), root)
    ensures n == 0 || psz + n < 0 || psz + n >= UINT_MOD ==> ok && r == 0 && size == psz && vm.View() == old(vm.View())
    ensures n > 0 && psz + n < UINT_MOD ==>
              var lo, hi := RoundUp(psz), RoundUp(psz + n);
              match GrowOutcome(old(vm.View()), root, lo, hi)
              case Grown =>
                && ok && r == 0 && size == psz + n && Growing(old(vm.View()), vm.View(), root, lo, hi)
                && BytesAdded(old(vm.View()), vm.View(), root, lo * PGSIZE, hi * PGSIZE)
              case OutOfMemory => ok && r == -1 && size == psz && Restored(old(vm.View()), vm.View())
              case Refused => !ok
    ensures n < 0 && psz + n >= 0 ==>
              var lo, hi := RoundUp(psz + n), RoundUp(psz);
              && (ok <==> lo == hi || LeafRange(old(vm.View()), root, lo, hi))
              && (ok ==> r == 0 && size == psz + n)
              && (ok && lo < hi ==> RangeErased(old(vm.View()), vm.View(), root, lo, hi)
                                    && Released(old(vm.View()), vm.View(), root, lo, hi, true))
              && (ok && lo == hi ==> vm.View() == old(vm.View()))
              && (ok ==> BytesTaken(old(vm.View()), vm.View(), root, lo * PGSIZE, hi * PGSIZE))
  {
    hide Inv, OwnsRange, BytesAdded, BytesTaken, Growing, Restored, RangeErased, Released, LeafRange, Empty, GrowOutcome;
    r, size, ok := 0, psz, true;
    if n > 0 {
      var sz;
      sz, ok := Uvmalloc(vm, root, psz, NewSize(psz, n));
      if sz == 0 {
        return -1, psz, ok;
      }
      size := sz;
    } else if n < 0 {
      Shorter(vm.View(), root, RoundUp(NewSize(psz, n)), RoundUp(psz));
      size, ok := Uvmdealloc(vm, root, psz, NewSize(psz, n));
    }
  }

  lemma Shorter(m: Mem, root: nat, lo: nat, hi: nat)
    requires OwnsRange(m, root, 0, hi)
    ensures OwnsRange(m, root, lo, hi)
  {
    forall v: nat | lo <= v < hi && v < VPAGES
      ensures OwnsFrame(m, root, v)
    {
      assert 0 <= v < hi;
    }
  }
}
