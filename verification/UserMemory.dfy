/** Growing, copying and freeing the user part of an address space. */
module UserMemory {
  import opened Common
  import opened PageTree
  import opened PageOwnership
  import opened VirtualMemory

  /** PGROUNDUP(n) / PGSIZE: the first page that starts at or above n. */
  function RoundUp(n: nat): (p: nat)
    ensures n <= p * PGSIZE < n + PGSIZE
  {
    (n + PGSIZE - 1) / PGSIZE
  }

  // ----- the bytes a process sees

  /** A user program can reach va through root. */
  predicate Accessible(m: Mem, root: nat, va: nat) {
    && va / PGSIZE < VPAGES
    && var p := Lookup(m.ts, root, va / PGSIZE);
    p.Valid() && U in p.flags && p.ppn in m.data
  }

  /** The byte it finds there. */
  function UserByte(m: Mem, root: nat, va: nat): (b: Byte)
    requires Accessible(m, root, va)
  {
    m.data[Lookup(m.ts, root, va / PGSIZE).ppn][va % PGSIZE]
  }

  lemma UserFrame(m: Mem, all: set<nat>, root: nat, v: nat)
    requires Inv(m, all) && IsRoot(m, root) && v < VPAGES
    ensures var p := Lookup(m.ts, root, v); p.Valid() && U in p.flags ==> p.ppn in m.data
  {
    assert UserOwned(m, root, v);
  }

  /** Address a of r in m and of r' in m': accessible in both or in neither, with the same byte. */
  ghost predicate SameByte(m: Mem, r: nat, m': Mem, r': nat, a: nat) {
    && (Accessible(m, r, a) <==> Accessible(m', r', a))
    && (Accessible(m, r, a) ==> UserByte(m', r', a) == UserByte(m, r, a))
  }

  /** Addresses [lo, hi) of root have become accessible, as zeroes; all others are as they were. */
  ghost predicate BytesAdded(m: Mem, m': Mem, root: nat, lo: nat, hi: nat) {
    && (forall a: nat :: lo <= a < hi ==>
          !Accessible(m, root, a) && Accessible(m', root, a) && UserByte(m', root, a) == 0)
    && forall r: nat, a: nat :: IsRoot(m, r) && !(r == root && lo <= a < hi) ==> SameByte(m, r, m', r, a)
  }

  /** Addresses [lo, hi) of root can no longer be accessed; all others are as they were. */
  ghost predicate BytesTaken(m: Mem, m': Mem, root: nat, lo: nat, hi: nat) {
    && (forall a: nat :: lo <= a < hi ==> !Accessible(m', root, a))
    && forall r: nat, a: nat :: IsRoot(m, r) && !(r == root && lo <= a < hi) ==> SameByte(m, r, m', r, a)
  }

  lemma PageOf(a: nat, lo: nat, hi: nat)
    ensures lo * PGSIZE <= a < hi * PGSIZE <==> lo <= a / PGSIZE < hi
  {
  }

  /** A frame's contents do not matter to who owns what. */
  lemma Rewritten(m: Mem, all: set<nat>, f: nat, bytes: Frame)
    requires Inv(m, all) && f in m.data
    ensures Inv(m.(data := m.data[f := bytes]), all) && SameMaps(m, m.(data := m.data[f := bytes]))
  {
    var m' := m.(data := m.data[f := bytes]);
    forall g | g in m'.place
      ensures PlacedAt(m', g)
    {
      assert PlacedAt(m, g);
    }
    forall r: nat, v: nat | IsRoot(m', r) && v < VPAGES
      ensures UserOwned(m', r, v)
    {
      assert IsRoot(m, r) && UserOwned(m, r, v);
    }
  }

  /** Page v of root is a leaf on a frame that m did not hold, with the given contents. */
  ghost predicate FreshPage(m: Mem, m': Mem, root: nat, v: nat, flags: set<Flag>, bytes: Frame)
    requires v < VPAGES
  {
    var p := Lookup(m'.ts, root, v);
    && p.flags == flags && p.ppn !in m.place
    && p.ppn in m'.place && m'.place[p.ppn] == Mapped(root, v)
    && p.ppn in m'.data && m'.data[p.ppn] == bytes
  }

  /** Frames m held are still held, in the same places with the same contents. */
  ghost predicate FramesKept(m: Mem, m': Mem) {
    forall g: nat :: g in m.place ==>
      g in m'.place && m'.place[g] == m.place[g] && (g in m.data ==> g in m'.data && m'.data[g] == m.data[g])
  }

  /** m' is m with pages [lo, hi) of root added, on frames of their own. */
  ghost predicate Grew(m: Mem, m': Mem, root: nat, lo: nat, hi: nat) {
    && (forall r: nat :: IsRoot(m, r) <==> IsRoot(m', r)) && IsRoot(m, root)
    && (forall r: nat, v: nat :: IsRoot(m, r) && v < VPAGES && !(r == root && lo <= v < hi) ==>
          Lookup(m'.ts, r, v) == Lookup(m.ts, r, v))
    && FramesKept(m, m')
    && (forall g: nat :: g in m'.place && g !in m.place ==> Belongs(m'.place[g], root, lo, hi))
  }

  /** Page v can be given a frame: it is below MAXVA and has none. */
  predicate Vacant(m: Mem, root: nat, v: nat) {
    v < VPAGES && !Lookup(m.ts, root, v).Valid()
  }

  /** There is no free page for page v, or too few for the tables it lacks. */
  predicate ShortFor(m: Mem, root: nat, v: nat) {
    m.free == [] || (Vacant(m, root, v) && |PathOf(root, v) - m.pos.Values| + 1 > |m.free|)
  }

  /** The body of uvmalloc's and uvmcopy's loops: a page of memory, filled and mapped.  It
      runs out of memory exactly when there is no free page or too few for the tables that
      are missing, and short of that panics on a page that is not vacant. */
  method GrowPage(vm: Vm, root: nat, v: nat, bytes: Frame, perm: set<Flag>) returns (s: Status)
    requires vm.Valid() && IsRoot(vm.View(), root)
    modifies vm`free, vm`ts, vm`data, vm`pos, vm`place
    ensures !s.Panic? ==> vm.Valid() && IsRoot(vm.View(), root)
    ensures s.NoMemory? <==> ShortFor(old(vm.View()), root, v)
    ensures s.Panic? <==> old(vm.free) != [] && !Vacant(old(vm.View()), root, v)
    ensures s.Done? ==> Vacant(old(vm.View()), root, v)
    ensures s.Done? ==> Grew(old(vm.View()), vm.View(), root, v, v + 1)
                        && FreshPage(old(vm.View()), vm.View(), root, v, perm + {V}, bytes)
                        && TookPath(old(vm.View()), vm.View(), root, v)
    ensures s.NoMemory? ==> SameMaps(old(vm.View()), vm.View())
                            && vm.place == old(vm.place) && vm.data == old(vm.data)
  {
    hide Inv, SameMaps, OneMoved, Grew, FreshPage, Lookup, Followed, PathOf;
    ghost var m := vm.View();
    Unchanged(m);
    var mem, ok := vm.Kalloc();
    if !ok {
      return NoMemory;
    }
    ghost var m1 := vm.View();
    vm.data := vm.data[mem := bytes];
    Rewritten(m1, vm.all, mem, bytes);
    ghost var m2 := vm.View();
    if v >= VPAGES {
      return Panic;
    }
    MapsThrough(m, m1, m2, root, v);
    s := vm.MapPage(root, v, mem, perm, true);
    if s.NoMemory? {
      DataKeys(m, vm.all);
      GiveBack(m, m2, vm.View(), vm.all, mem);
      vm.Kfree(mem);
      MapsThrough(m, m, vm.View(), root, v);
    } else if s.Done? {
      DataKeys(m, vm.all);
      GrownBy(m, m2, vm.View(), root, v, mem, perm + {V}, bytes);
      FollowedFrom(m.(free := m.free[1..]), m2, vm.View(), root, v);
    }
  }

  /** One page and the tables it lacked are gone from the free list. */
  ghost predicate TookPath(m: Mem, m': Mem, root: nat, v: nat) {
    v < VPAGES && m.free != [] && Followed(m.(free := m.free[1..]), m', root, v, 0)
  }

  lemma Unchanged(m: Mem)
    ensures SameMaps(m, m)
  {
  }

  lemma MapsThrough(m: Mem, m1: Mem, m2: Mem, root: nat, v: nat)
    requires SameMaps(m, m1) && SameMaps(m1, m2) && IsRoot(m, root) && v < VPAGES
    ensures SameMaps(m, m2) && IsRoot(m2, root) && Lookup(m2.ts, root, v) == Lookup(m.ts, root, v)
  {
  }

  lemma GiveBack(m: Mem, m2: Mem, m3: Mem, all: set<nat>, f: nat)
    requires SameMaps(m, m2) && SameMaps(m2, m3) && Inv(m3, all)
    requires f !in m.place && m.data.Keys == m.place.Keys
    requires m2.place == m.place[f := Held] && m2.data.Keys == m2.place.Keys && m2.data - {f} == m.data
    requires m3.place == m2.place && m3.data == m2.data
    ensures var m4 := Pushed(m3, f);
            Inv(m4, all) && SameMaps(m, m4) && m4.place == m.place && m4.data == m.data
  {
    PushedInv(m3, all, f);
    hide Lookup, Inv;
  }

  lemma GrownBy(m: Mem, m2: Mem, m3: Mem, root: nat, v: nat, f: nat, flags: set<Flag>, bytes: Frame)
    requires SameMaps(m, m2) && IsRoot(m, root) && v < VPAGES && OneMoved(m2, m3, root, v, Pte(f, flags))
    requires f !in m.place && m.data.Keys == m.place.Keys
    requires m2.place == m.place[f := Held] && m2.data == m.data[f := bytes]
    requires m3.place == m2.place[f := Mapped(root, v)] && m3.data == m2.data
    ensures Grew(m, m3, root, v, v + 1) && FreshPage(m, m3, root, v, flags, bytes) && IsRoot(m3, root)
  {
    hide Lookup;
  }

  /** [lo, hi) of root is not mapped. */
  ghost predicate Empty(m: Mem, root: nat, lo: nat, hi: nat) {
    forall v: nat :: lo <= v < hi && v < VPAGES ==> !Lookup(m.ts, root, v).Valid()
  }

  /** The pages of [lo, hi) are leaves on frames of their own. */
  ghost predicate OwnLeaves(m: Mem, root: nat, lo: nat, hi: nat) {
    && (lo < hi ==> hi <= VPAGES)
    && forall v: nat :: lo <= v < hi ==> v < VPAGES && IsLeaf(m, root, v) && OwnsFrame(m, root, v)
  }

  lemma GrewSelf(m: Mem, root: nat, lo: nat)
    requires IsRoot(m, root)
    ensures Grew(m, m, root, lo, lo)
  {
  }

  lemma GrewMore(m: Mem, m1: Mem, m2: Mem, root: nat, lo: nat, hi: nat)
    requires Grew(m, m1, root, lo, hi) && Grew(m1, m2, root, hi, hi + 1) && lo <= hi
    ensures Grew(m, m2, root, lo, hi + 1)
  {
    hide Lookup;
  }

  lemma LeavesMore(m1: Mem, m2: Mem, root: nat, lo: nat, hi: nat, flags: set<Flag>, bytes: Frame)
    requires OwnLeaves(m1, root, lo, hi) && Grew(m1, m2, root, hi, hi + 1) && lo <= hi < VPAGES
    requires FreshPage(m1, m2, root, hi, flags, bytes) && V in flags && flags != {V}
    ensures OwnLeaves(m2, root, lo, hi + 1)
  {
    hide Lookup;
    forall v: nat | lo <= v < hi + 1
      ensures v < VPAGES && IsLeaf(m2, root, v) && OwnsFrame(m2, root, v)
    {
      assert v < hi ==> IsLeaf(m1, root, v) && OwnsFrame(m1, root, v);
    }
  }

  /** Nothing is placed in a range that is not mapped. */
  lemma EmptyUnplaced(m: Mem, all: set<nat>, root: nat, lo: nat, hi: nat)
    requires Inv(m, all) && Empty(m, root, lo, hi)
    ensures forall g: nat :: g in m.place ==> !Belongs(m.place[g], root, lo, hi)
  {
    hide Lookup, TreeOk, Conserved, UserOwned;
    forall g: nat | g in m.place
      ensures !Belongs(m.place[g], root, lo, hi)
    {
      assert PlacedAt(m, g);
    }
  }

  /** Taking away exactly what was added leaves the mappings and the frames as they were. */
  lemma Undone(m: Mem, m1: Mem, m2: Mem, all: set<nat>, root: nat, lo: nat, hi: nat)
    requires Inv(m, all) && Inv(m1, all) && Empty(m, root, lo, hi) && Grew(m, m1, root, lo, hi)
    requires RangeErased(m1, m2, root, lo, hi) && Released(m1, m2, root, lo, hi, true)
    ensures SameMaps(m, m2) && SameFrames(m, m2)
  {
    EmptyUnplaced(m, all, root, lo, hi);
    DataKeys(m, all);
    DataKeys(m1, all);
    forall v: nat | lo <= v < hi && v < VPAGES
      ensures Lookup(m.ts, root, v) == NoPte()
    {
      NotMapped(m.ts, m.pos, root, v);
    }
    hide Lookup, Inv;
    UndoneMaps(m, m1, m2, root, lo, hi);
    UndoneFrames(m, m1, m2, root, lo, hi);
  }

  lemma UndoneMaps(m: Mem, m1: Mem, m2: Mem, root: nat, lo: nat, hi: nat)
    requires Grew(m, m1, root, lo, hi) && RangeErased(m1, m2, root, lo, hi)
    requires forall v: nat :: lo <= v < hi && v < VPAGES ==> Lookup(m.ts, root, v) == NoPte()
    ensures SameMaps(m, m2)
  {
    hide Lookup, FramesKept;
  }

  lemma UndoneFrames(m: Mem, m1: Mem, m2: Mem, root: nat, lo: nat, hi: nat)
    requires Grew(m, m1, root, lo, hi) && Released(m1, m2, root, lo, hi, true)
    requires forall g: nat :: g in m.place ==> !Belongs(m.place[g], root, lo, hi)
    requires m.data.Keys == m.place.Keys && m1.data.Keys == m1.place.Keys
    ensures SameFrames(m, m2)
  {
    hide Lookup;
  }

  ghost predicate SameFrames(m: Mem, m': Mem) {
    && (forall g: nat :: g in m'.place <==> g in m.place)
    && FramesKept(m, m')
  }

  // ----- uvmdealloc and uvmalloc

  /** A translation that stays, to a frame that stays. */
  lemma ByteStays(m: Mem, m': Mem, all: set<nat>, r: nat, a: nat)
    requires Inv(m, all) && IsRoot(m, r)
    requires a / PGSIZE < VPAGES ==> Lookup(m'.ts, r, a / PGSIZE) == Lookup(m.ts, r, a / PGSIZE)
    requires forall g: nat :: g in m.data && m.place[g] == Mapped(r, a / PGSIZE) ==> g in m'.data && m'.data[g] == m.data[g]
    ensures SameByte(m, r, m', r, a)
  {
    if a / PGSIZE < VPAGES {
      assert UserOwned(m, r, a / PGSIZE);
    }
    hide Lookup, TreeOk, PlacedAt;
  }

  lemma GrewBytes(m: Mem, m': Mem, all: set<nat>, root: nat, lo: nat, hi: nat)
    requires Inv(m, all) && Inv(m', all) && Growing(m, m', root, lo, hi)
    ensures BytesAdded(m, m', root, lo * PGSIZE, hi * PGSIZE)
  {
    hide Lookup, Tabled;
    forall a: nat | lo * PGSIZE <= a < hi * PGSIZE
      ensures !Accessible(m, root, a) && Accessible(m', root, a) && UserByte(m', root, a) == 0
    {
      PageOf(a, lo, hi);
      assert IsLeaf(m', root, a / PGSIZE);
    }
    forall r: nat, a: nat | IsRoot(m, r) && !(r == root && lo * PGSIZE <= a < hi * PGSIZE)
      ensures SameByte(m, r, m', r, a)
    {
      PageOf(a, lo, hi);
      DataKeys(m, all);
      ByteStays(m, m', all, r, a);
    }
  }

  lemma ErasedBytes(m: Mem, m': Mem, all: set<nat>, root: nat, lo: nat, hi: nat)
    requires Inv(m, all) && Inv(m', all) && RangeErased(m, m', root, lo, hi) && Released(m, m', root, lo, hi, true)
    ensures BytesTaken(m, m', root, lo * PGSIZE, hi * PGSIZE)
  {
    hide Lookup;
    forall a: nat | lo * PGSIZE <= a < hi * PGSIZE
      ensures !Accessible(m', root, a)
    {
      PageOf(a, lo, hi);
    }
    forall r: nat, a: nat | IsRoot(m, r) && !(r == root && lo * PGSIZE <= a < hi * PGSIZE)
      ensures SameByte(m, r, m', r, a)
    {
      PageOf(a, lo, hi);
      DataKeys(m, all);
      ByteStays(m, m', all, r, a);
    }
  }

  /** uvmdealloc: the process keeps the addresses below newsz and the rest of their last page. */
  method Uvmdealloc(vm: Vm, root: nat, oldsz: nat, newsz: nat) returns (r: nat, ok: bool)
    requires vm.Valid() && IsRoot(vm.View(), root)
    requires OwnsRange(vm.View(), root, RoundUp(newsz), RoundUp(oldsz))
    modifies vm`free, vm`ts, vm`data, vm`pos, vm`place
    ensures vm.Valid() && IsRoot(vm.View(), root)
    ensures r == if newsz >= oldsz then oldsz else newsz
    ensures newsz >= oldsz || RoundUp(newsz) == RoundUp(oldsz) ==> ok && vm.View() == old(vm.View())
    ensures newsz < oldsz && RoundUp(newsz) < RoundUp(oldsz) ==>
              && (ok <==> LeafRange(old(vm.View()), root, RoundUp(newsz), RoundUp(oldsz)))
              && (ok ==> RangeErased(old(vm.View()), vm.View(), root, RoundUp(newsz), RoundUp(oldsz))
                         && Released(old(vm.View()), vm.View(), root, RoundUp(newsz), RoundUp(oldsz), true))
    ensures newsz < oldsz && ok ==>
              BytesTaken(old(vm.View()), vm.View(), root, RoundUp(newsz) * PGSIZE, RoundUp(oldsz) * PGSIZE)
  {
    hide Inv, OwnsRange, LeafRange, RangeErased, Released, BytesTaken;
    ghost var m := vm.View();
    if newsz >= oldsz {
      return oldsz, true;
    }
    ok := true;
    if RoundUp(newsz) < RoundUp(oldsz) {
      var npages := RoundUp(oldsz) - RoundUp(newsz);
      ok := vm.Uvmunmap(root, RoundUp(newsz) * PGSIZE, npages, true);
      if ok {
        ErasedBytes(m, vm.View(), vm.all, root, RoundUp(newsz), RoundUp(oldsz));
      }
    } else {
      NoneTaken(m, root, RoundUp(newsz) * PGSIZE);
    }
    r := newsz;
  }

  lemma NoneTaken(m: Mem, root: nat, lo: nat)
    ensures BytesTaken(m, m, root, lo, lo)
  {
    hide Lookup;
  }

  /** Memory as it was before: the same translations and the same frames. */
  ghost predicate Restored(m: Mem, m': Mem) {
    SameMaps(m, m') && SameFrames(m, m')
  }

  /** uvmalloc's and uvmcopy's way out: the pages added so far are taken away again. */
  method Undo(vm: Vm, root: nat, lo: nat, hi: nat, ghost m0: Mem)
    requires vm.Valid() && IsRoot(vm.View(), root) && Inv(m0, vm.all) && lo <= hi
    requires Grew(m0, vm.View(), root, lo, hi) && OwnLeaves(vm.View(), root, lo, hi) && Empty(m0, root, lo, hi)
    modifies vm`free, vm`ts, vm`data, vm`pos, vm`place
    ensures vm.Valid() && Restored(m0, vm.View())
  {
    hide Inv, OwnsRange, LeafRange, RangeErased, Released, SameMaps, SameFrames, Grew, Empty, OwnLeaves;
    ghost var m1 := vm.View();
    LeavesRange(m1, root, lo, hi);
    var r, ok := Uvmdealloc(vm, root, hi * PGSIZE, lo * PGSIZE);
    if lo < hi {
      Undone(m0, m1, vm.View(), vm.all, root, lo, hi);
    } else {
      NothingGrew(m0, m1, root, lo);
    }
  }

  lemma LeavesRange(m: Mem, root: nat, lo: nat, hi: nat)
    requires OwnLeaves(m, root, lo, hi)
    ensures LeafRange(m, root, lo, hi) && OwnsRange(m, root, lo, hi)
  {
  }

  lemma NothingGrew(m: Mem, m': Mem, root: nat, lo: nat)
    requires Grew(m, m', root, lo, lo)
    ensures Restored(m, m')
  {
    hide Lookup;
  }

  /** Growing by nothing new after running out of memory. */
  lemma GrewStays(m: Mem, m1: Mem, m2: Mem, root: nat, lo: nat, hi: nat)
    requires Grew(m, m1, root, lo, hi) && SameMaps(m1, m2) && m2.place == m1.place && m2.data == m1.data
    ensures Grew(m, m2, root, lo, hi) && IsRoot(m2, root)
  {
    hide Lookup;
  }

  lemma LeavesStay(m1: Mem, m2: Mem, root: nat, lo: nat, hi: nat)
    requires IsRoot(m1, root) && OwnLeaves(m1, root, lo, hi)
    requires SameMaps(m1, m2) && m2.place == m1.place
    ensures OwnLeaves(m2, root, lo, hi)
  {
    hide Lookup;
    forall v: nat | lo <= v < hi
      ensures IsLeaf(m2, root, v) && OwnsFrame(m2, root, v)
    {
      assert IsLeaf(m1, root, v) && OwnsFrame(m1, root, v);
    }
  }

  /** The frames of pages [lo, hi) hold zeroes. */
  ghost predicate Zeroed(m: Mem, root: nat, lo: nat, hi: nat) {
    forall v: nat :: lo <= v < hi && v < VPAGES ==>
      Lookup(m.ts, root, v).flags == {W, X, R, U, V}
      && Lookup(m.ts, root, v).ppn in m.data && m.data[Lookup(m.ts, root, v).ppn] == Junk(0)
  }

  /** The pages [lo, a) of root have been added, each on a frame of its own. */
  ghost predicate Adding(m0: Mem, m: Mem, root: nat, lo: nat, a: nat) {
    && lo <= a && Grew(m0, m, root, lo, a) && OwnLeaves(m, root, lo, a) && Empty(m0, root, lo, a)
    && Tabled(m0, m, root, lo, a, 1)
  }

  /** The state of uvmalloc's loop at page a. */
  ghost predicate Growing(m0: Mem, m: Mem, root: nat, lo: nat, a: nat) {
    Adding(m0, m, root, lo, a) && Zeroed(m, root, lo, a)
  }

  lemma StartAdding(m: Mem, root: nat, lo: nat)
    requires IsRoot(m, root)
    ensures Adding(m, m, root, lo, lo)
  {
    GrewSelf(m, root, lo);
    TabledStart(m, root, lo);
  }

  lemma AddingStep(m0: Mem, m: Mem, m': Mem, all: set<nat>, root: nat, lo: nat, a: nat, flags: set<Flag>, bytes: Frame)
    requires Adding(m0, m, root, lo, a) && Vacant(m, root, a) && V in flags && flags != {V}
    requires Inv(m, all) && Grew(m, m', root, a, a + 1) && TookPath(m, m', root, a)
    requires FreshPage(m, m', root, a, flags, bytes)
    ensures Adding(m0, m', root, lo, a + 1)
  {
    hide Lookup, Inv, OwnLeaves, Grew, Tabled, Followed, Empty, FreshPage, FramesKept;
    DataKeys(m, all);
    EmptyMore(m0, m, root, lo, a);
    GrewMore(m0, m, m', root, lo, a);
    LeavesMore(m, m', root, lo, a, flags, bytes);
    TabledStep(m0, m, m.(free := m.free[1..]), m', root, lo, a, 1);
  }

  lemma GrowingStep(m0: Mem, m: Mem, m': Mem, all: set<nat>, root: nat, lo: nat, a: nat)
    requires Growing(m0, m, root, lo, a) && Vacant(m, root, a)
    requires Inv(m, all) && Grew(m, m', root, a, a + 1) && TookPath(m, m', root, a)
    requires FreshPage(m, m', root, a, {W, X, R, U} + {V}, Junk(0))
    ensures Growing(m0, m', root, lo, a + 1)
  {
    hide Lookup, Inv, Adding, Grew, Zeroed, FreshPage, FramesKept;
    DataKeys(m, all);
    assert {W, X, R, U} + {V} == {W, X, R, U, V};
    assert W in {W, X, R, U, V} && {W, X, R, U, V} != {V};
    AddingStep(m0, m, m', all, root, lo, a, {W, X, R, U, V}, Junk(0));
    ZeroedMore(m, m', root, lo, a);
  }

  lemma ZeroedNone(m: Mem, root: nat, lo: nat)
    ensures Zeroed(m, root, lo, lo)
  {
  }

  lemma EmptyMore(m0: Mem, m: Mem, root: nat, lo: nat, a: nat)
    requires Grew(m0, m, root, lo, a) && Empty(m0, root, lo, a) && Vacant(m, root, a)
    ensures Empty(m0, root, lo, a + 1)
  {
    hide Lookup;
    assert Lookup(m0.ts, root, a) == Lookup(m.ts, root, a);
  }

  /** The first page of [lo, hi) that is not vacant, or hi. */
  function FirstBad(m: Mem, root: nat, lo: nat, hi: nat): (b: nat)
    requires lo <= hi
    ensures lo <= b <= hi && (b < hi ==> !Vacant(m, root, b)) && (lo < b ==> b <= VPAGES)
    ensures forall v: nat :: lo <= v < b ==> Vacant(m, root, v)
    decreases hi - lo
  {
    if lo == hi || !Vacant(m, root, lo) then lo else FirstBad(m, root, lo + 1, hi)
  }

  /** The pages that growing [lo, b) takes: one each, and the tables there are not yet. */
  ghost function GrowNeed(m: Mem, root: nat, lo: nat, b: nat): (n: nat)
    requires lo <= b && (lo < b ==> b <= VPAGES)
  {
    b - lo + TableNeed(m.pos.Values, root, lo, b)
  }

  lemma AddingFacts(m0: Mem, m: Mem, root: nat, lo: nat, a: nat, hi: nat)
    requires Adding(m0, m, root, lo, a) && lo <= a < hi && a <= FirstBad(m0, root, lo, hi)
    ensures Vacant(m, root, a) <==> a < FirstBad(m0, root, lo, hi)
  {
    hide FramesKept, Tabled, OwnLeaves, Lookup, Empty;
    if a < VPAGES {
      assert Lookup(m.ts, root, a) == Lookup(m0.ts, root, a);
    }
    assert a < FirstBad(m0, root, lo, hi) ==> Vacant(m0, root, a);
  }

  /** Too few free pages for page a: then too few for everything up to the first page that
      is not vacant. */
  lemma AddingShort(m0: Mem, m: Mem, root: nat, lo: nat, a: nat, hi: nat)
    requires Adding(m0, m, root, lo, a) && lo <= a < hi && a <= FirstBad(m0, root, lo, hi)
    requires ShortFor(m, root, a)
    ensures var b := FirstBad(m0, root, lo, hi);
            GrowNeed(m0, root, lo, b) + (if b < hi then 1 else 0) > |m0.free|
  {
    hide Adding, FirstBad, TablesFor, PathOf, Vacant, TableNeed, Tabled;
    AddingFacts(m0, m, root, lo, a, hi);
    AddingTabled(m0, m, root, lo, a);
    VacantBelow(m, root, a);
    var b := FirstBad(m0, root, lo, hi);
    if a < b {
      TabledNot(m0, m, root, lo, a, 1);
      TableNeedGrows(m0.pos.Values, root, lo, a + 1, b);
    } else {
      AddingPaid(m0, m, root, lo, a);
    }
  }

  lemma VacantBelow(m: Mem, root: nat, v: nat)
    ensures Vacant(m, root, v) ==> v < VPAGES
  {
  }

  lemma AddingTabled(m0: Mem, m: Mem, root: nat, lo: nat, a: nat)
    requires Adding(m0, m, root, lo, a)
    ensures Tabled(m0, m, root, lo, a, 1)
  {
  }

  lemma AddingPaid(m0: Mem, m: Mem, root: nat, lo: nat, a: nat)
    requires Adding(m0, m, root, lo, a)
    ensures lo <= a && (lo < a ==> a <= VPAGES) && |m.free| == |m0.free| - GrowNeed(m0, root, lo, a)
  {
    hide OwnLeaves, Grew, TablesFor, TableNeed, Empty;
  }

  lemma Stalled(m0: Mem, m: Mem, m': Mem, root: nat, lo: nat, a: nat)
    requires Adding(m0, m, root, lo, a) && IsRoot(m, root)
    requires SameMaps(m, m') && m'.place == m.place && m'.data == m.data
    ensures Grew(m0, m', root, lo, a) && OwnLeaves(m', root, lo, a) && Empty(m0, root, lo, a)
    ensures IsRoot(m', root) && IsRoot(m0, root)
  {
    GrewStays(m0, m, m', root, lo, a);
    LeavesStay(m, m', root, lo, a);
  }

  lemma RestoredRoot(m: Mem, m': Mem, root: nat)
    requires Restored(m, m') && IsRoot(m, root)
    ensures IsRoot(m', root)
  {
  }

  lemma ZeroedMore(m: Mem, m': Mem, root: nat, lo: nat, a: nat)
    requires Zeroed(m, root, lo, a) && Grew(m, m', root, a, a + 1) && m.data.Keys == m.place.Keys
    requires a < VPAGES && FreshPage(m, m', root, a, {W, X, R, U, V}, Junk(0))
    ensures Zeroed(m', root, lo, a + 1)
  {
    hide Lookup;
  }

  /** How a growth of [lo, hi) must end. */
  datatype Outcome = Grown | OutOfMemory | Refused

  ghost function GrowOutcome(m: Mem, root: nat, lo: nat, hi: nat): (o: Outcome)
    requires lo <= hi
  {
    var b := FirstBad(m, root, lo, hi);
    if GrowNeed(m, root, lo, b) + (if b < hi then 1 else 0) > |m.free| then OutOfMemory
    else if b < hi then Refused
    else Grown
  }

  /** uvmalloc.  It adds zeroed pages up to newsz, each on a frame of its own, exactly when
      none of them is mapped yet or beyond MAXVA and the free pages suffice for them and the
      tables they lack.  When memory runs out it returns 0 having restored every translation
      and every frame; it panics when memory would have lasted to a page it must not map. */
  method Uvmalloc(vm: Vm, root: nat, oldsz: nat, newsz: nat) returns (r: nat, ok: bool)
    requires vm.Valid() && IsRoot(vm.View(), root)
    modifies vm`free, vm`ts, vm`data, vm`pos, vm`place
    ensures newsz < oldsz ==> ok && r == oldsz && vm.View() == old(vm.View())
    ensures newsz >= oldsz ==>
              var lo, hi := RoundUp(oldsz), RoundUp(newsz);
              match GrowOutcome(old(vm.View()), root, lo, hi)
              case Grown =>
                && ok && r == newsz && Growing(old(vm.View()), vm.View(), root, lo, hi)
                && BytesAdded(old(vm.View()), vm.View(), root, lo * PGSIZE, hi * PGSIZE)
              case OutOfMemory => ok && r == 0 && Restored(old(vm.View()), vm.View())
              case Refused => !ok
    ensures ok ==> vm.Valid() && IsRoot(vm.View(), root)
  {
    hide Inv, Lookup, SameMaps, SameFrames, Grew, Empty, OwnLeaves, Adding, Zeroed, FreshPage, TookPath, Vacant,
         ShortFor, GrowNeed, FirstBad, Restored, BytesAdded;
    if newsz < oldsz {
      return oldsz, true;
    }
    ghost var m0, hi := vm.View(), RoundUp(newsz);
    var lo := RoundUp(oldsz);
    StartAdding(m0, root, lo);
    ZeroedNone(m0, root, lo);
    var a := lo;
    while a * PGSIZE < newsz
      invariant vm.Valid() && IsRoot(vm.View(), root) && lo <= a <= hi
      invariant Growing(m0, vm.View(), root, lo, a) && a <= FirstBad(m0, root, lo, hi)
      decreases hi - a
    {
      ghost var m := vm.View();
      AddingFacts(m0, m, root, lo, a, hi);
      var s := GrowPage(vm, root, a, Junk(0), {W, X, R, U});
      if s.Panic? {
        AddingPaid(m0, m, root, lo, a);
        return 0, false;
      }
      if s.NoMemory? {
        AddingShort(m0, m, root, lo, a, hi);
        Stalled(m0, m, vm.View(), root, lo, a);
        Undo(vm, root, lo, a, m0);
        RestoredRoot(m0, vm.View(), root);
        return 0, true;
      }
      GrowingStep(m0, m, vm.View(), vm.all, root, lo, a);
      a := a + 1;
    }
    AddingPaid(m0, vm.View(), root, lo, a);
    GrewBytes(m0, vm.View(), vm.all, root, lo, a);
    return newsz, true;
  }

  // ----- uvmcreate

  /** A held page becomes an empty root table. */
  function Rooted(m: Mem, n: nat): (r: Mem) {
    m.(ts := m.ts[n := EmptyTable()], pos := m.pos[n := Root], data := m.data - {n}, place := m.place - {n})
  }

  lemma RootedTree(ts: Tables, pos: Places, n: nat)
    requires TreeOk(ts, pos) && n !in ts
    ensures TreeOk(ts[n := EmptyTable()], pos[n := Root])
  {
    var ts', pos' := ts[n := EmptyTable()], pos[n := Root];
    forall u, k | u in ts' && 0 <= k < ENTRIES
      ensures EntryOk(ts', pos', u, k)
    {
      assert u in ts ==> EntryOk(ts, pos, u, k);
    }
    forall u | u in ts'
      ensures Hangs(ts', pos', u)
    {
      assert u in ts ==> Hangs(ts, pos, u);
    }
  }

  lemma RootedLookup(ts: Tables, pos: Places, n: nat, r: nat, v: nat)
    requires TreeOk(ts, pos) && n !in ts && v < VPAGES
    ensures Lookup(ts[n := EmptyTable()], n, v) == NoPte()
    ensures r in pos && pos[r].Root? ==> Lookup(ts[n := EmptyTable()], r, v) == Lookup(ts, r, v)
  {
    if r in pos && pos[r].Root? {
      assert EntryOk(ts, pos, r, Index(2, v));
      if Down(ts, r, Index(2, v)).To? {
        assert EntryOk(ts, pos, Down(ts, r, Index(2, v)).page, Index(1, v));
      }
    }
  }

  lemma RootedMaps(m: Mem, all: set<nat>, n: nat)
    requires Inv(m, all) && n !in m.ts
    ensures forall r: nat :: IsRoot(Rooted(m, n), r) <==> IsRoot(m, r) || r == n
    ensures forall r: nat, v: nat :: IsRoot(m, r) && v < VPAGES ==>
              Lookup(Rooted(m, n).ts, r, v) == Lookup(m.ts, r, v)
    ensures forall v: nat :: v < VPAGES ==> Lookup(Rooted(m, n).ts, n, v) == NoPte()
  {
    forall r: nat, v: nat | v < VPAGES
      ensures Lookup(Rooted(m, n).ts, n, v) == NoPte()
      ensures IsRoot(m, r) ==> Lookup(Rooted(m, n).ts, r, v) == Lookup(m.ts, r, v)
    {
      RootedLookup(m.ts, m.pos, n, r, v);
    }
  }

  lemma RootedInv(m: Mem, all: set<nat>, n: nat)
    requires Inv(m, all) && n in m.place && m.place[n].Held? && n !in m.ts
    ensures Inv(Rooted(m, n), all)
  {
    var m' := Rooted(m, n);
    RootedTree(m.ts, m.pos, n);
    RootedMaps(m, all, n);
    hide TreeOk, Lookup;
    forall f | f in m'.place
      ensures PlacedAt(m', f)
    {
      assert PlacedAt(m, f);
    }
    forall r: nat, v: nat | IsRoot(m', r) && v < VPAGES
      ensures UserOwned(m', r, v)
    {
      assert r != n ==> UserOwned(m, r, v);
    }
  }

  /** uvmcreate: one more page table, mapping nothing. */
  method Uvmcreate(vm: Vm) returns (root: nat, ok: bool)
    requires vm.Valid()
    modifies vm`free, vm`ts, vm`data, vm`pos, vm`place
    ensures vm.Valid() && (ok <==> old(vm.free) != [])
    ensures !ok ==> vm.View() == old(vm.View())
    ensures ok ==> vm.place == old(vm.place) && vm.data == old(vm.data)
    ensures ok ==> root !in old(vm.pos) && vm.pos == old(vm.pos)[root := Root] && |vm.free| == |old(vm.free)| - 1
    ensures ok ==> forall r: nat :: IsRoot(vm.View(), r) <==> IsRoot(old(vm.View()), r) || r == root
    ensures ok ==> forall r: nat, v: nat :: IsRoot(old(vm.View()), r) && v < VPAGES ==>
                     Lookup(vm.ts, r, v) == Lookup(old(vm.ts), r, v)
    ensures ok ==> forall v: nat :: v < VPAGES ==> Lookup(vm.ts, root, v) == NoPte()
  {
    hide Inv, Lookup;
    ghost var m := vm.View();
    KeysAgree(m, vm.all);
    DataKeys(m, vm.all);
    root, ok := vm.Kalloc();
    if ok {
      RootedInv(vm.View(), vm.all, root);
      RootedMaps(vm.View(), vm.all, root);
      vm.ts := vm.ts[root := EmptyTable()];
      vm.pos := vm.pos[root := Root];
      vm.data := vm.data - {root};
      vm.place := vm.place - {root};
      assert vm.View() == Rooted(Popped(m), root);
    }
  }
}
