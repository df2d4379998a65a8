/** vm.c and kalloc.c. */
module VirtualMemory {
  import opened PageTree
  import opened PageOwnership

  class Vm {
    var free: seq<nat>            // kmem.freelist, first page first
    var ts: Tables                // pages in use as page tables
    var data: map<nat, Frame>     // contents of all other allocated pages
    ghost var pos: Places
    ghost var place: map<nat, Place>
    ghost const all: set<nat>

    ghost function View(): Mem
      reads this
    {
      Mem(free, ts, data, pos, place)
    }

    ghost predicate Valid()
      reads this
    {
      Inv(View(), all)
    }

    /** kinit and freerange: the pages from lo up to hi are pushed one by one. */
    constructor (lo: nat, hi: nat)
      requires lo <= hi
      ensures Valid() && View() == Mem(free, map[], map[], map[], map[]) && all == set p | p in free
      ensures |free| == hi - lo && forall p: nat :: p in free <==> lo <= p < hi
    {
      var pages: seq<nat> := [];
      var p := lo;
      while p < hi
        invariant lo <= p <= hi && |pages| == p - lo
        invariant forall i :: 0 <= i < |pages| ==> pages[i] == p - 1 - i
      {
        pages := [p] + pages;
        p := p + 1;
      }
      free, ts, data, pos, place := pages, map[], map[], map[], map[];
      all := set q | q in pages;
      new;
      FirstFree(View(), all, lo, hi);
    }

    /** kalloc: a page filled with junk, or failure when there is none. */
    method Kalloc() returns (pa: nat, ok: bool)
      requires Valid()
      modifies this`free, this`data, this`place
      ensures Valid() && (ok <==> old(free) != [])
      ensures if ok then pa == old(free)[0] && View() == Popped(old(View())) && SameMaps(old(View()), View())
                         && pa !in old(ts) && pa !in old(place)
              else View() == old(View())
    {
      hide Inv, SameMaps;
      ok, pa := free != [], 0;
      if ok {
        PoppedInv(View(), all);
        pa := free[0];
        free := free[1..];
        data := data[pa := Junk(5)];
        place := place[pa := Held];
      }
    }

    /** kfree: the page goes to the front of the free list. */
    method Kfree(pa: nat)
      requires pa in data && pa in place
      modifies this`free, this`data, this`place
      ensures View() == Pushed(old(View()), pa)
    {
      free := [pa] + free;
      data := data - {pa};
      place := place - {pa};
    }

    /** One turn of walk's loop, at entry i of table t. */
    method WalkStep(t: nat, i: nat, alloc: bool) returns (n: nat, ok: bool)
      requires Valid() && t in ts && t in pos && !pos[t].Leaf? && i < ENTRIES && (pos[t].Root? ==> i < TOP)
      modifies this`free, this`ts, this`data, this`pos, this`place
      ensures Valid() && Extends(old(View()), View())
      ensures ok ==> Down(ts, t, i) == To(n) && n in ts && n in pos && pos[n] == ChildPos(old(pos), t, i)
      ensures ok ==> RootOf(pos, n) == RootOf(old(pos), t)
      ensures ok <==> old(ts)[t][i].Valid() || (alloc && old(free) != [])
      ensures old(ts)[t][i].Valid() || !ok ==> View() == old(View())
      ensures TablesUnder(old(pos), pos, RootOf(old(pos), t))
      ensures old(ts)[t][i].Valid() <==> ChildPos(old(pos), t, i) in old(pos).Values
      ensures ok ==> pos.Values == old(pos).Values + {ChildPos(old(pos), t, i)}
      ensures ok && !old(ts)[t][i].Valid() ==> |free| == |old(free)| - 1
    {
      assert EntryOk(ts, pos, t, i);
      ChildIff(ts, pos, t, i);
      hide Inv, TreeOk, Conserved, SameMaps, Extends, TablesUnder;
      ExtendsSelf(View());
      UnderSelf(pos, RootOf(pos, t));
      n, ok := 0, true;
      if ts[t][i].Valid() {
        n := ts[t][i].ppn;
      } else {
        if !alloc { return 0, false; }
        n, ok := NewTable(t, i);
        if ok {
          UnderOne(old(pos), t, i, n);
          OneMoreValue(old(pos), n, ChildPos(old(pos), t, i));
        }
      }
    }

    /** walk allocates a table page, clears it and links it in. */
    method NewTable(t: nat, i: nat) returns (n: nat, ok: bool)
      requires Valid() && t in ts && t in pos && !pos[t].Leaf? && i < ENTRIES && !ts[t][i].Valid()
      requires pos[t].Root? ==> i < TOP
      modifies this`free, this`ts, this`data, this`pos, this`place
      ensures Valid() && Extends(old(View()), View()) && (ok <==> old(free) != [])
      ensures ok ==> Down(ts, t, i) == To(n) && n in ts && n in pos && pos[n] == ChildPos(old(pos), t, i)
      ensures !ok ==> View() == old(View())
      ensures ok ==> n !in old(pos) && pos == old(pos)[n := ChildPos(old(pos), t, i)] && |free| == |old(free)| - 1
    {
      hide Inv, TreeOk, Conserved, SameMaps, Extends;
      KeysAgree(View(), all);
      ExtendsSelf(View());
      n, ok := Kalloc();
      if !ok { return; }
      GrowExtends(old(View()), all, t, i);
      ts := ts[t := ts[t][i := Pte(n, {V})]];
      ts := ts[n := EmptyTable()];
      data := data - {n};
      pos := pos[n := ChildPos(pos, t, i)];
      place := place - {n};
      assert View() == Hung(Popped(old(View())), t, i, n);
    }

    /** walk: the last-level table for a page, adding tables if asked to.  Translations do
        not change.  Without alloc nothing changes and it succeeds exactly when the table is
        there; with alloc it succeeds exactly when there are free pages for the tables that
        are missing. */
    method Walk(root: nat, vpn: nat, alloc: bool) returns (t: nat, ok: bool)
      requires Valid() && IsRoot(View(), root) && vpn < VPAGES
      modifies this`free, this`ts, this`data, this`pos, this`place
      ensures Valid() && Extends(old(View()), View())
      ensures ok ==> LeafTable(ts, root, vpn) == To(t) && t in ts
      ensures LeafTable(old(ts), root, vpn).To? ==> ok
      ensures !alloc || LeafTable(old(ts), root, vpn).To? ==> View() == old(View())
      ensures !alloc && LeafTable(old(ts), root, vpn).Nowhere? ==> !ok
      ensures alloc && !ok ==> free == []
      ensures alloc ==> (ok <==> |PathOf(root, vpn) - old(pos).Values| <= |old(free)|)
      ensures ok ==> Followed(old(View()), View(), root, vpn, 0)
      ensures TablesUnder(old(pos), pos, root)
    {
      hide Inv, TreeOk, Conserved, Extends, TablesUnder, Followed, PathOf;
      FollowedStart(View(), root, vpn);
      KeysAgree(View(), all);
      ExtendsSelf(View());
      UnderSelf(pos, root);
      ok, t := true, root;
      var level := 2;
      while level > 0
        invariant 0 <= level <= 2 && Valid() && Extends(old(View()), View()) && ok
        invariant t in ts && t in pos && OnTheWay(ts, pos, root, vpn, level, t)
        invariant !alloc || LeafTable(old(ts), root, vpn).To? ==> View() == old(View())
        invariant TablesUnder(old(pos), pos, root) && RootOf(pos, t) == root
        invariant Followed(old(View()), View(), root, vpn, level)
      {
        ghost var m := View();
        var n;
        n, ok := WalkStep(t, Index(level, vpn), alloc);
        ExtendsTwice(old(View()), m, View());
        UnderTwice(old(pos), m.pos, pos, root);
        NextOnTheWay(m, root, vpn, level, t);
        if !ok {
          if alloc {
            FollowedNot(old(View()), m, all, root, vpn, level);
          }
          return 0, false;
        }
        FollowedStep(old(View()), m, View(), root, vpn, level);
        WayKept(m, View(), root, vpn, level, t, n);
        t := n;
        level := level - 1;
      }
      FollowedAll(old(View()), View(), root, vpn);
    }

    /** One turn of mappages' loop.  With `own` the page takes over a held frame. */
    method MapPage(root: nat, vpn: nat, ppn: nat, perm: set<Flag>, ghost own: bool) returns (s: Status)
      requires Valid() && IsRoot(View(), root) && vpn < VPAGES
      requires (own ==> ppn in place && place[ppn].Held?) && (U in perm ==> own)
      modifies this`free, this`ts, this`data, this`pos, this`place
      ensures Valid() && data == old(data)
      ensures s.Panic? <==> Lookup(old(ts), root, vpn).Valid()
      ensures s.Done? ==> OneMoved(old(View()), View(), root, vpn, Pte(ppn, perm + {V}))
                          && place == (if own then old(place)[ppn := Mapped(root, vpn)] else old(place))
      ensures !s.Done? ==> SameMaps(old(View()), View()) && place == old(place)
      ensures s.NoMemory? ==> free == []
      ensures s.NoMemory? <==> !Lookup(old(ts), root, vpn).Valid() && |PathOf(root, vpn) - old(pos).Values| > |old(free)|
      ensures s.Done? ==> Followed(old(View()), View(), root, vpn, 0)
      ensures TablesUnder(old(pos), pos, root)
    {
      hide Inv, TreeOk, Conserved, Extends, SameMaps, OneMoved, TablesUnder, Followed, PathOf;
      var t, ok := Walk(root, vpn, true);
      ghost var m := View();
      ExtendsFacts(old(View()), m, root, vpn);
      if !ok {
        return NoMemory;
      }
      LookupFacts(old(View()), m, root, vpn);
      if ts[t][Index(0, vpn)].Valid() {
        return Panic;
      }
      var p := Pte(ppn, perm + {V});
      EnteredInv(m, all, root, vpn, p, own);
      ts := ts[t := ts[t][Index(0, vpn) := p]];
      place := if own then place[ppn := Mapped(root, vpn)] else place;
      assert View() == Entered(m, root, vpn, p, own);
      FollowedKept(old(View()), m, View(), root, vpn);
      MapsThenMove(old(View()), m, View(), root, vpn, p);
      s := Done;
    }

    /** mappages: the pages of [va, va + size) get frames from pa on.  It stops after k pages
        when the next one is already mapped or beyond MAXVA, which is a panic, or when the
        tables up to it take more pages than were free. */
    method Mappages(root: nat, va: nat, size: nat, pa: nat, perm: set<Flag>, ghost own: bool)
      returns (s: Status, ghost k: nat)
      requires Valid() && IsRoot(View(), root) && size > 0 && (U in perm ==> own)
      requires own ==> forall g: nat :: pa / PGSIZE <= g < pa / PGSIZE + PageCount(va, size) ==> FrameHeld(place, g)
      modifies this`free, this`ts, this`data, this`pos, this`place
      ensures Valid() && data == old(data) && k <= PageCount(va, size) && IsRoot(View(), root)
      ensures RangeMapped(old(View()), View(), root, va / PGSIZE, va / PGSIZE + k, pa / PGSIZE, perm + {V})
      ensures Claimed(old(place), place, own, root, va / PGSIZE, pa / PGSIZE, k)
      ensures s.Done? ==> k == PageCount(va, size)
      ensures s.NoMemory? ==> k < PageCount(va, size) && free == []
      ensures s.Panic? <==> k < PageCount(va, size)
                            && (va / PGSIZE + k >= VPAGES || Lookup(old(ts), root, va / PGSIZE + k).Valid())
      ensures s.Done? ==> Tabled(old(View()), View(), root, va / PGSIZE, va / PGSIZE + k, 0)
      ensures s.NoMemory? ==>
                && va / PGSIZE + k < VPAGES
                && TableNeed(old(pos).Values, root, va / PGSIZE, va / PGSIZE + k + 1) > |old(free)|
      ensures TablesUnder(old(pos), pos, root)
    {
      hide Inv, Mapping, Lookup, Tabled, TableNeed;
      ghost var m0 := View();
      var a, last, f := va / PGSIZE, (va + size - 1) / PGSIZE, pa / PGSIZE;
      ghost var lo, f0, flags := a, f, perm + {V};
      k := 0;
      TabledStart(m0, root, lo);
      MappingStart(m0, root, lo, f0, flags, own);
      while true
        invariant Valid() && a == lo + k && a <= last && f == f0 + k
        invariant Mapping(m0, View(), root, lo, k, f0, flags, own) && Tabled(m0, View(), root, lo, lo + k, 0)
        decreases last - a
      {
        if a >= VPAGES {
          MappingFacts(m0, View(), root, lo, k, f0, flags, own);
          return Panic, k;
        }
        s := MapTurn(root, perm, own, m0, lo, k, f0, a, f);
        if s.Done? {
          k := k + 1;
        } else {
          MappingFacts(m0, View(), root, lo, k, f0, flags, own);
          return s, k;
        }
        if a == last {
          break;
        }
        a := a + 1;
        f := f + 1;
      }
      MappingFacts(m0, View(), root, lo, k, f0, flags, own);
    }

    /** One turn of mappages' loop, at page a. */
    method MapTurn(root: nat, perm: set<Flag>, ghost own: bool, ghost m0: Mem, ghost lo: nat, ghost k: nat, ghost f0: nat,
                   a: nat, f: nat) returns (s: Status)
      requires Valid() && a == lo + k < VPAGES && f == f0 + k && (U in perm ==> own) && (own ==> FrameHeld(m0.place, f))
      requires Mapping(m0, View(), root, lo, k, f0, perm + {V}, own) && Tabled(m0, View(), root, lo, lo + k, 0)
      modifies this`free, this`ts, this`data, this`pos, this`place
      ensures Valid() && (s.Panic? <==> Lookup(m0.ts, root, a).Valid())
      ensures Mapping(m0, View(), root, lo, if s.Done? then k + 1 else k, f0, perm + {V}, own)
      ensures s.Done? ==> Tabled(m0, View(), root, lo, lo + k + 1, 0)
      ensures s.NoMemory? ==> free == [] && TableNeed(m0.pos.Values, root, lo, lo + k + 1) > |m0.free|
    {
      hide Inv, SameMaps, OneMoved, RangeMapped, Claimed, Lookup, TablesUnder, Followed, PathOf, Tabled, TableNeed;
      ghost var m := View();
      RangeFacts(m0, m, root, lo, lo + k, f0, perm + {V}, a);
      ClaimFacts(m0.place, place, own, root, lo, f0, k);
      s := MapPage(root, a, f, perm, own);
      UnderTwice(m0.pos, m.pos, pos, root);
      if s.Done? {
        TabledStep(m0, m, m, View(), root, lo, a, 0);
        RangeGrows(m0, m, View(), root, lo, lo + k, f0, perm + {V});
        ClaimGrows(m0.place, m.place, place, own, root, lo, f0, k);
      } else {
        if s.NoMemory? {
          TabledNot(m0, m, root, lo, a, 0);
        }
        RangeStays(m0, m, View(), root, lo, lo + k, f0, perm + {V});
      }
    }

    /** One turn of uvmunmap's loop.  Panics exactly when the page is not mapped to a leaf. */
    method UnmapPage(root: nat, vpn: nat, dofree: bool) returns (ok: bool)
      requires Valid() && IsRoot(View(), root) && vpn < VPAGES
      requires dofree ==> OwnsFrame(View(), root, vpn)
      modifies this`free, this`ts, this`data, this`pos, this`place
      ensures Valid() && (ok <==> Lookup(old(ts), root, vpn).Valid() && Lookup(old(ts), root, vpn).flags != {V})
      ensures !ok ==> View() == old(View())
      ensures pos == old(pos)
      ensures ok ==> OneMoved(old(View()), View(), root, vpn, NoPte())
      ensures ok && dofree ==> Gave(old(View()), View(), Lookup(old(ts), root, vpn).ppn)
      ensures ok && !dofree ==> free == old(free) && data == old(data) && place == Unplaced(old(View()), root, vpn)
    {
      hide Inv, TreeOk, Conserved, SameMaps, OneMoved, Extends;
      ghost var m := View();
      ExtendsSelf(m);
      ExtendsFacts(m, m, root, vpn);
      var t;
      t, ok := Walk(root, vpn, false);
      if !ok { return; }
      var pte := ts[t][Index(0, vpn)];
      assert pte == Lookup(ts, root, vpn);
      if !pte.Valid() || pte.flags == {V} {
        return false;
      }
      ErasedInv(m, all, root, vpn);
      if dofree {
        FreeErased(m, all, root, vpn);
        Kfree(pte.ppn);
      } else {
        place := Unplaced(m, root, vpn);
      }
      ts := ts[t := ts[t][Index(0, vpn) := NoPte()]];
      assert View() == if dofree then Pushed(Erased(m, root, vpn), pte.ppn) else Erased(m, root, vpn);
    }

    /** uvmunmap: takes npages mappings away, freeing their frames if asked to.  It gets
        through exactly when the range is aligned and every page in it is mapped to a leaf. */
    method Uvmunmap(root: nat, va: nat, npages: nat, dofree: bool) returns (ok: bool)
      requires Valid() && IsRoot(View(), root)
      requires dofree ==> OwnsRange(View(), root, va / PGSIZE, va / PGSIZE + npages)
      modifies this`free, this`ts, this`data, this`pos, this`place
      ensures ok <==> va % PGSIZE == 0 && LeafRange(old(View()), root, va / PGSIZE, va / PGSIZE + npages)
      ensures Valid() && IsRoot(View(), root) && pos == old(pos)
      ensures ok ==> RangeErased(old(View()), View(), root, va / PGSIZE, va / PGSIZE + npages)
      ensures ok ==> Released(old(View()), View(), root, va / PGSIZE, va / PGSIZE + npages, dofree)
    {
      hide Inv, OneMoved, RangeErased, Released, LeafRange, OwnsRange, Lookup;
      if va % PGSIZE != 0 {
        return false;
      }
      var lo, hi := va / PGSIZE, va / PGSIZE + npages;
      ghost var m0 := View();
      StartErase(m0, root, lo, hi, dofree);
      var v := lo;
      while v < hi
        invariant lo <= v <= hi && Valid() && IsRoot(View(), root) && pos == old(pos)
        invariant RangeErased(m0, View(), root, lo, v) && Released(m0, View(), root, lo, v, dofree)
        invariant LeafRange(m0, root, lo, v)
        invariant dofree ==> OwnsRange(View(), root, v, hi)
      {
        ghost var m := View();
        EraseFacts(m0, m, root, lo, v, hi, dofree);
        if v >= VPAGES {
          return false;
        }
        ok := UnmapPage(root, v, dofree);
        if !ok {
          return;
        }
        EraseStep(m0, m, View(), all, root, lo, v, hi, dofree);
        v := v + 1;
      }
      ok := true;
    }
  }

  lemma FirstFree(m: Mem, all: set<nat>, lo: nat, hi: nat)
    requires lo <= hi && m == Mem(m.free, map[], map[], map[], map[]) && all == set p | p in m.free
    requires |m.free| == hi - lo && forall i :: 0 <= i < |m.free| ==> m.free[i] == hi - 1 - i
    ensures Inv(m, all) && forall p: nat :: p in m.free <==> lo <= p < hi
  {
    forall p: nat
      ensures p in m.free <==> lo <= p < hi
    {
      if lo <= p < hi {
        assert m.free[hi - 1 - p] == p;
      }
    }
  }

  /** The part of a page's path that walk has followed at a level. */
  function PathTo(root: nat, vpn: nat, level: nat): (r: set<Pos>)
    requires vpn < VPAGES && level <= 2
  {
    if level == 2 then {} else if level == 1 then {Mid(root, Index(2, vpn))} else PathOf(root, vpn)
  }

  /** The next table of the path. */
  function PathNext(root: nat, vpn: nat, level: nat): (p: Pos)
    requires vpn < VPAGES && 1 <= level <= 2
  {
    if level == 2 then Mid(root, Index(2, vpn)) else Leaf(root, Index(2, vpn), Index(1, vpn))
  }

  lemma PathStep(have: set<Pos>, root: nat, vpn: nat, level: nat)
    requires vpn < VPAGES && 1 <= level <= 2
    ensures PathTo(root, vpn, level - 1) == PathTo(root, vpn, level) + {PathNext(root, vpn, level)}
    ensures PathNext(root, vpn, level) !in PathTo(root, vpn, level)
    ensures |PathTo(root, vpn, level - 1) - have|
            == |PathTo(root, vpn, level) - have| + if PathNext(root, vpn, level) in have then 0 else 1
  {
    var p, q := PathTo(root, vpn, level), PathNext(root, vpn, level);
    assert (p + {q}) - have == (p - have) + ({q} - have);
    assert {q} - have == if q in have then {} else {q};
  }

  /** The tables of the path up to a level are there, at the cost of those that were not. */
  ghost predicate Followed(m0: Mem, m: Mem, root: nat, vpn: nat, level: nat)
    requires vpn < VPAGES && level <= 2
  {
    && m.pos.Values == m0.pos.Values + PathTo(root, vpn, level)
    && |m.free| == |m0.free| - |PathTo(root, vpn, level) - m0.pos.Values|
  }

  lemma FollowedStart(m: Mem, root: nat, vpn: nat)
    requires vpn < VPAGES
    ensures Followed(m, m, root, vpn, 2)
  {
    assert {} - m.pos.Values == {};
  }

  lemma NextOnTheWay(m: Mem, root: nat, vpn: nat, level: nat, t: nat)
    requires vpn < VPAGES && 1 <= level <= 2 && t in m.pos && OnTheWay(m.ts, m.pos, root, vpn, level, t)
    ensures !m.pos[t].Leaf? && ChildPos(m.pos, t, Index(level, vpn)) == PathNext(root, vpn, level)
  {
  }

  lemma FollowedStep(m0: Mem, m: Mem, m': Mem, root: nat, vpn: nat, level: nat)
    requires vpn < VPAGES && 1 <= level <= 2 && Followed(m0, m, root, vpn, level)
    requires m'.pos.Values == m.pos.Values + {PathNext(root, vpn, level)}
    requires |m'.free| == |m.free| - if PathNext(root, vpn, level) in m.pos.Values then 0 else 1
    ensures Followed(m0, m', root, vpn, level - 1)
  {
    PathStep(m0.pos.Values, root, vpn, level);
  }

  lemma FollowedNot(m0: Mem, m: Mem, all: set<nat>, root: nat, vpn: nat, level: nat)
    requires vpn < VPAGES && 1 <= level <= 2 && Followed(m0, m, root, vpn, level) && Inv(m0, all)
    requires PathNext(root, vpn, level) !in m.pos.Values && m.free == []
    ensures |PathOf(root, vpn) - m0.pos.Values| > |m0.free|
  {
    hide Inv;
    PathShape(m0, all, root, vpn);
    PathStep(m0.pos.Values, root, vpn, 2);
    PathStep(m0.pos.Values, root, vpn, 1);
  }

  lemma FollowedKept(m0: Mem, m: Mem, m': Mem, root: nat, vpn: nat)
    requires vpn < VPAGES && Followed(m0, m, root, vpn, 0) && m'.free == m.free && m'.pos == m.pos
    ensures Followed(m0, m', root, vpn, 0)
  {
  }

  lemma FollowedFrom(m0: Mem, m1: Mem, m: Mem, root: nat, vpn: nat)
    requires vpn < VPAGES && Followed(m1, m, root, vpn, 0) && m0.free == m1.free && m0.pos == m1.pos
    ensures Followed(m0, m, root, vpn, 0)
  {
  }

  lemma FollowedAll(m0: Mem, m: Mem, root: nat, vpn: nat)
    requires vpn < VPAGES && Followed(m0, m, root, vpn, 0)
    ensures |PathOf(root, vpn) - m0.pos.Values| <= |m0.free|
    ensures |m.free| == |m0.free| - |PathOf(root, vpn) - m0.pos.Values|
    ensures m.pos.Values == m0.pos.Values + PathOf(root, vpn)
  {
  }

  /** The tables for pages [lo, a) of root are there, at the cost of those that were not and
      of c more pages for each page mapped. */
  ghost predicate Tabled(m0: Mem, m: Mem, root: nat, lo: nat, a: nat, c: nat) {
    && lo <= a && (lo < a ==> a <= VPAGES)
    && m.pos.Values == m0.pos.Values + TablesFor(root, lo, a)
    && |m.free| == |m0.free| - TableNeed(m0.pos.Values, root, lo, a) - c * (a - lo)
  }

  lemma TabledStart(m: Mem, root: nat, lo: nat)
    ensures Tabled(m, m, root, lo, lo, 0) && Tabled(m, m, root, lo, lo, 1)
  {
    assert {} - m.pos.Values == {};
  }

  /** Page a has taken c pages and then its tables. */
  lemma TabledStep(m0: Mem, m: Mem, m1: Mem, m2: Mem, root: nat, lo: nat, a: nat, c: nat)
    requires a < VPAGES && Tabled(m0, m, root, lo, a, c) && Followed(m1, m2, root, a, 0)
    requires m1.pos == m.pos && |m1.free| == |m.free| - c
    ensures Tabled(m0, m2, root, lo, a + 1, c)
  {
    hide PathOf, TablesFor, TableNeed, Followed;
    TableNeedStep(m0.pos.Values, root, lo, a);
    FollowedAll(m1, m2, root, a);
    TablesOneMore(root, lo, a);
    assert m1.pos.Values == m0.pos.Values + TablesFor(root, lo, a);
    assert c * (a + 1 - lo) == c * (a - lo) + c;
  }

  lemma TablesOneMore(root: nat, lo: nat, a: nat)
    requires lo <= a < VPAGES
    ensures TablesFor(root, lo, a + 1) == TablesFor(root, lo, a) + PathOf(root, a)
  {
  }

  lemma TabledNot(m0: Mem, m: Mem, root: nat, lo: nat, a: nat, c: nat)
    requires a < VPAGES && Tabled(m0, m, root, lo, a, c)
    requires |PathOf(root, a) - m.pos.Values| + c > |m.free|
    ensures TableNeed(m0.pos.Values, root, lo, a + 1) + c * (a + 1 - lo) > |m0.free|
  {
    hide PathOf, TablesFor, TableNeed;
    TableNeedStep(m0.pos.Values, root, lo, a);
    assert c * (a + 1 - lo) == c * (a - lo) + c;
  }

  /** What a missing table means for the rest of the path. */
  lemma PathShape(m: Mem, all: set<nat>, root: nat, vpn: nat)
    requires Inv(m, all) && vpn < VPAGES
    ensures PathNext(root, vpn, 1) in m.pos.Values ==> PathNext(root, vpn, 2) in m.pos.Values
    ensures |PathTo(root, vpn, 2) - m.pos.Values| == 0
    ensures PathNext(root, vpn, 2) !in m.pos.Values ==> |PathOf(root, vpn) - m.pos.Values| == 2
    ensures PathNext(root, vpn, 1) !in m.pos.Values ==> |PathOf(root, vpn) - m.pos.Values| >= 1
  {
    if PathNext(root, vpn, 1) in m.pos.Values {
      LeafNeedsMid(m.ts, m.pos, root, vpn);
    }
    PathStep(m.pos.Values, root, vpn, 2);
    PathStep(m.pos.Values, root, vpn, 1);
    assert {} - m.pos.Values == {};
  }

  lemma OneMoreValue(pos: Places, n: nat, p: Pos)
    requires n !in pos
    ensures pos[n := p].Values == pos.Values + {p}
  {
    var pos' := pos[n := p];
    forall q | q in pos.Values + {p}
      ensures q in pos'.Values
    {
      if q == p {
        assert pos'[n] == p;
      } else {
        var u :| u in pos && pos[u] == q;
        assert pos'[u] == q;
      }
    }
  }

  /** The pages that [va, va + size) touches. */
  function PageCount(va: nat, size: nat): (n: nat)
    requires size > 0
    ensures n > 0 && (va / PGSIZE + n - 1) * PGSIZE < va + size <= (va / PGSIZE + n) * PGSIZE
  {
    (va + size - 1) / PGSIZE - va / PGSIZE + 1
  }

  predicate FrameHeld(place: map<nat, Place>, f: nat) { f in place && place[f].Held? }

  /** Pages [lo, hi) of root are mapped to frames f, f + 1, ...; all else is as in m. */
  ghost predicate RangeMapped(m: Mem, m': Mem, root: nat, lo: nat, hi: nat, f: nat, flags: set<Flag>) {
    && (forall r: nat :: IsRoot(m, r) <==> IsRoot(m', r)) && IsRoot(m, root)
    && forall r: nat, v: nat :: IsRoot(m, r) && v < VPAGES ==>
         Lookup(m'.ts, r, v) ==
         if r == root && lo <= v < hi then Pte(f + (v - lo), flags) else Lookup(m.ts, r, v)
  }

  /** With own, frames f, ..., f + k - 1 have gone from held to pages lo, ... of root. */
  ghost predicate Claimed(was: map<nat, Place>, now: map<nat, Place>, own: bool, root: nat, lo: nat, f: nat, k: nat) {
    && now.Keys == was.Keys
    && forall g: nat :: g in was ==>
         now[g] == if own && f <= g < f + k then Mapped(root, lo + (g - f)) else was[g]
  }

  /** mappages' loop after k pages. */
  ghost predicate Mapping(m0: Mem, m: Mem, root: nat, lo: nat, k: nat, f: nat, flags: set<Flag>, own: bool) {
    && RangeMapped(m0, m, root, lo, lo + k, f, flags) && Claimed(m0.place, m.place, own, root, lo, f, k)
    && TablesUnder(m0.pos, m.pos, root) && m.data == m0.data
  }

  lemma MappingStart(m: Mem, root: nat, lo: nat, f: nat, flags: set<Flag>, own: bool)
    requires IsRoot(m, root)
    ensures Mapping(m, m, root, lo, 0, f, flags, own)
  {
    UnderSelf(m.pos, root);
    StartRange(m, root, lo, f, flags, own);
  }

  lemma MappingFacts(m0: Mem, m: Mem, root: nat, lo: nat, k: nat, f: nat, flags: set<Flag>, own: bool)
    requires Mapping(m0, m, root, lo, k, f, flags, own)
    ensures RangeMapped(m0, m, root, lo, lo + k, f, flags) && Claimed(m0.place, m.place, own, root, lo, f, k)
    ensures TablesUnder(m0.pos, m.pos, root) && m.data == m0.data && IsRoot(m, root)
  {
    RangeFacts(m0, m, root, lo, lo + k, f, flags, lo);
  }

  lemma StartRange(m: Mem, root: nat, lo: nat, f: nat, flags: set<Flag>, own: bool)
    requires IsRoot(m, root)
    ensures RangeMapped(m, m, root, lo, lo, f, flags) && Claimed(m.place, m.place, own, root, lo, f, 0)
  {
  }

  lemma RangeFacts(m: Mem, m': Mem, root: nat, lo: nat, hi: nat, f: nat, flags: set<Flag>, v: nat)
    requires RangeMapped(m, m', root, lo, hi, f, flags)
    ensures IsRoot(m', root) && IsRoot(m, root)
    ensures v < VPAGES && !(lo <= v < hi) ==> Lookup(m'.ts, root, v) == Lookup(m.ts, root, v)
  {
  }

  lemma ClaimFacts(was: map<nat, Place>, now: map<nat, Place>, own: bool, root: nat, lo: nat, f: nat, k: nat)
    requires Claimed(was, now, own, root, lo, f, k)
    ensures FrameHeld(was, f + k) ==> FrameHeld(now, f + k)
  {
  }

  lemma RangeGrows(m: Mem, m1: Mem, m2: Mem, root: nat, lo: nat, hi: nat, f: nat, flags: set<Flag>)
    requires lo <= hi < VPAGES
    requires RangeMapped(m, m1, root, lo, hi, f, flags) && OneMoved(m1, m2, root, hi, Pte(f + (hi - lo), flags))
    ensures RangeMapped(m, m2, root, lo, hi + 1, f, flags)
  {
    hide Lookup;
  }

  lemma RangeStays(m: Mem, m1: Mem, m2: Mem, root: nat, lo: nat, hi: nat, f: nat, flags: set<Flag>)
    requires RangeMapped(m, m1, root, lo, hi, f, flags) && SameMaps(m1, m2)
    ensures RangeMapped(m, m2, root, lo, hi, f, flags)
  {
    hide Lookup;
  }

  lemma ClaimGrows(was: map<nat, Place>, mid: map<nat, Place>, now: map<nat, Place>, own: bool,
                   root: nat, lo: nat, f: nat, k: nat)
    requires Claimed(was, mid, own, root, lo, f, k) && (own ==> f + k in mid)
    requires now == if own then mid[f + k := Mapped(root, lo + k)] else mid
    ensures Claimed(was, now, own, root, lo, f, k + 1)
  {
  }

  /** The frame of a mapped page belongs to it. */
  ghost predicate OwnsFrame(m: Mem, root: nat, vpn: nat)
    requires vpn < VPAGES
  {
    var p := Lookup(m.ts, root, vpn);
    p.Valid() ==> p.ppn in m.place && m.place[p.ppn] == Mapped(root, vpn)
  }

  /** Frame f has gone from its owner to the free list. */
  ghost predicate Gave(m: Mem, m': Mem, f: nat) {
    m'.free == [f] + m.free && m'.place == m.place - {f} && m'.data == m.data - {f}
  }

  ghost function Unplaced(m: Mem, root: nat, vpn: nat): map<nat, Place>
    requires vpn < VPAGES
  {
    var f := Lookup(m.ts, root, vpn).ppn;
    if f in m.place && m.place[f] == Mapped(root, vpn) then m.place[f := Held] else m.place
  }

  lemma FreeErased(m: Mem, all: set<nat>, root: nat, vpn: nat)
    requires Inv(m, all) && IsRoot(m, root) && vpn < VPAGES && OwnsFrame(m, root, vpn)
    requires LeafTable(m.ts, root, vpn).To? && LeafTable(m.ts, root, vpn).page in m.ts
    requires Lookup(m.ts, root, vpn).Valid()
    ensures var f := Lookup(m.ts, root, vpn).ppn;
            && f in m.place && f in m.data && f in Erased(m, root, vpn).place
            && var m' := Pushed(Erased(m, root, vpn), f);
            Inv(m', all) && OneMoved(m, m', root, vpn, NoPte()) && Gave(m, m', f)
  {
    hide TreeOk, Lookup, LeafTable;
    DataKeys(m, all);
    hide Inv;
    ErasedInv(m, all, root, vpn);
    var f := Lookup(m.ts, root, vpn).ppn;
    PushedInv(Erased(m, root, vpn), all, f);
    MoveThenMaps(m, Erased(m, root, vpn), Pushed(Erased(m, root, vpn), f), root, vpn, NoPte());
  }

  lemma MoveThenMaps(m: Mem, m1: Mem, m2: Mem, root: nat, vpn: nat, p: Pte)
    requires OneMoved(m, m1, root, vpn, p) && SameMaps(m1, m2)
    ensures OneMoved(m, m2, root, vpn, p)
  {
    hide Lookup;
  }

  /** The root whose tree t belongs to. */
  function RootOf(pos: Places, t: nat): (r: nat)
    requires t in pos
  {
    if pos[t].Root? then t else pos[t].root
  }

  /** Tables have been added under root only. */
  ghost predicate TablesUnder(pos: Places, pos': Places, root: nat) {
    && (forall u :: u in pos ==> u in pos' && pos'[u] == pos[u])
    && forall u :: u in pos' && u !in pos ==> !pos'[u].Root? && pos'[u].root == root
  }

  lemma UnderSelf(pos: Places, root: nat)
    ensures TablesUnder(pos, pos, root)
  {
  }

  lemma UnderOne(pos: Places, t: nat, i: nat, n: nat)
    requires t in pos && !pos[t].Leaf? && n !in pos
    ensures TablesUnder(pos, pos[n := ChildPos(pos, t, i)], RootOf(pos, t))
    ensures RootOf(pos[n := ChildPos(pos, t, i)], n) == RootOf(pos, t)
  {
  }

  lemma UnderTwice(pos: Places, pos1: Places, pos2: Places, root: nat)
    requires TablesUnder(pos, pos1, root) && TablesUnder(pos1, pos2, root)
    ensures TablesUnder(pos, pos2, root)
  {
  }

  /** How a call that may panic ends. */
  datatype Status = Done | NoMemory | Panic

  lemma ExtendsFacts(m: Mem, m': Mem, root: nat, vpn: nat)
    requires Extends(m, m') && IsRoot(m, root) && vpn < VPAGES
    ensures SameMaps(m, m') && IsRoot(m', root) && m'.place == m.place && m'.data == m.data
    ensures Lookup(m.ts, root, vpn).Valid() ==> LeafTable(m.ts, root, vpn).To?
  {
  }

  lemma LookupFacts(m: Mem, m': Mem, root: nat, vpn: nat)
    requires SameMaps(m, m') && IsRoot(m, root) && vpn < VPAGES
    ensures Lookup(m'.ts, root, vpn) == Lookup(m.ts, root, vpn)
  {
  }

  lemma MapsThenMove(m: Mem, m1: Mem, m2: Mem, root: nat, vpn: nat, p: Pte)
    requires SameMaps(m, m1) && OneMoved(m1, m2, root, vpn, p)
    ensures OneMoved(m, m2, root, vpn, p)
  {
    hide Lookup;
  }

  /** Where walk is at each level. */
  ghost predicate OnTheWay(ts: Tables, pos: Places, root: nat, vpn: nat, level: nat, t: nat)
    requires t in pos && vpn < VPAGES && level <= 2
  {
    if level == 2 then t == root && pos[t].Root?
    else if level == 1 then Down(ts, root, Index(2, vpn)) == To(t) && pos[t] == Mid(root, Index(2, vpn))
    else LeafTable(ts, root, vpn) == To(t) && pos[t].Leaf?
  }

  lemma WayKept(m: Mem, m': Mem, root: nat, vpn: nat, level: nat, t: nat, n: nat)
    requires vpn < VPAGES && 1 <= level <= 2 && t in m.ts && t in m.pos && Extends(m, m')
    requires OnTheWay(m.ts, m.pos, root, vpn, level, t) && !m.pos[t].Leaf?
    requires Down(m'.ts, t, Index(level, vpn)) == To(n) && n in m'.pos
    requires m'.pos[n] == ChildPos(m.pos, t, Index(level, vpn))
    ensures OnTheWay(m'.ts, m'.pos, root, vpn, level - 1, n)
  {
    hide SameMaps;
  }

  /** Tables may have been added; everything else about the trees is as it was. */
  ghost predicate Extends(m: Mem, m': Mem) {
    && SameMaps(m, m') && m'.place == m.place && m'.data == m.data
    && (forall u :: u in m.pos ==> u in m'.pos && m'.pos[u] == m.pos[u])
    && (forall u, k :: u in m.ts && 0 <= k < ENTRIES && m.ts[u][k].Valid() ==>
          u in m'.ts && m'.ts[u][k] == m.ts[u][k])
    && (forall u :: u in m.ts ==> u in m'.ts)
  }

  lemma ExtendsSelf(m: Mem)
    ensures Extends(m, m)
  {
  }

  lemma ExtendsTwice(m: Mem, m1: Mem, m2: Mem)
    requires Extends(m, m1) && Extends(m1, m2)
    ensures Extends(m, m2)
  {
    hide Lookup;
  }

  lemma GrowExtends(m: Mem, all: set<nat>, t: nat, i: nat)
    requires Inv(m, all) && m.free != [] && t in m.ts && t in m.pos && !m.pos[t].Leaf? && i < ENTRIES
    requires !m.ts[t][i].Valid() && (m.pos[t].Root? ==> i < TOP)
    ensures var n := m.free[0];
            var m' := Hung(Popped(m), t, i, n);
            && Inv(m', all) && Extends(m, m')
            && Down(m'.ts, t, i) == To(n) && n in m'.ts && n in m'.pos && m'.pos[n] == ChildPos(m.pos, t, i)
  {
    hide TreeOk, Conserved, Lookup, UserOwned, PlacedAt;
    var n := m.free[0];
    PoppedInv(m, all);
    HungInv(Popped(m), all, t, i, n);
    var m' := Hung(Popped(m), t, i, n);
    assert m.ts.Keys == m.pos.Keys by { KeysAgree(m, all); }
    assert m'.data == m.data && m'.place == m.place by { DataKeys(m, all); }
    hide Inv;
  }

  lemma KeysAgree(m: Mem, all: set<nat>)
    requires Inv(m, all)
    ensures m.ts.Keys == m.pos.Keys
  {
  }

  lemma DataKeys(m: Mem, all: set<nat>)
    requires Inv(m, all)
    ensures m.data.Keys == m.place.Keys
  {
  }

  ghost predicate OwnsRange(m: Mem, root: nat, lo: nat, hi: nat) {
    forall v: nat :: lo <= v < hi && v < VPAGES ==> OwnsFrame(m, root, v)
  }

  predicate IsLeaf(m: Mem, root: nat, v: nat)
    requires v < VPAGES
  {
    Lookup(m.ts, root, v).Valid() && Lookup(m.ts, root, v).flags != {V}
  }

  /** Every page of [lo, hi) is below MAXVA and mapped to a leaf. */
  ghost predicate LeafRange(m: Mem, root: nat, lo: nat, hi: nat) {
    (lo < hi ==> hi <= VPAGES) && forall v: nat :: lo <= v < hi ==> v < VPAGES && IsLeaf(m, root, v)
  }

  ghost predicate RangeErased(m: Mem, m': Mem, root: nat, lo: nat, hi: nat) {
    && (forall r: nat :: IsRoot(m, r) <==> IsRoot(m', r)) && IsRoot(m, root)
    && forall r: nat, v: nat :: IsRoot(m, r) && v < VPAGES ==>
         Lookup(m'.ts, r, v) == if r == root && lo <= v < hi then NoPte() else Lookup(m.ts, r, v)
  }

  predicate Belongs(p: Place, root: nat, lo: nat, hi: nat) {
    p.Mapped? && p.root == root && lo <= p.vpn < hi
  }

  /** The frames that belonged to pages [lo, hi) are free, or held if they were to be kept;
      all other frames keep their place and contents. */
  ghost predicate Released(m: Mem, m': Mem, root: nat, lo: nat, hi: nat, dofree: bool) {
    && (forall g: nat :: g in m'.place <==> g in m.place && !(dofree && Belongs(m.place[g], root, lo, hi)))
    && (forall g: nat :: g in m'.place ==>
          m'.place[g] == if Belongs(m.place[g], root, lo, hi) then Held else m.place[g])
    && (forall g: nat :: g in m'.place && g in m.data ==> g in m'.data && m'.data[g] == m.data[g])
    && (!dofree ==> m'.free == m.free)
    && |m.free| <= |m'.free| && m'.free[|m'.free| - |m.free|..] == m.free
  }

  lemma StartErase(m: Mem, root: nat, lo: nat, hi: nat, dofree: bool)
    requires IsRoot(m, root)
    ensures RangeErased(m, m, root, lo, lo) && Released(m, m, root, lo, lo, dofree) && LeafRange(m, root, lo, lo)
  {
  }

  lemma EraseFacts(m0: Mem, m: Mem, root: nat, lo: nat, v: nat, hi: nat, dofree: bool)
    requires RangeErased(m0, m, root, lo, v) && LeafRange(m0, root, lo, v) && lo <= v < hi
    ensures v < VPAGES && dofree && OwnsRange(m, root, v, hi) ==> OwnsFrame(m, root, v)
    ensures v < VPAGES ==> Lookup(m.ts, root, v) == Lookup(m0.ts, root, v)
    ensures v >= VPAGES ==> !LeafRange(m0, root, lo, hi)
    ensures v < VPAGES && !IsLeaf(m0, root, v) ==> !LeafRange(m0, root, lo, hi)
  {
  }

  lemma EraseStep(m0: Mem, m: Mem, m': Mem, all: set<nat>, root: nat, lo: nat, v: nat, hi: nat, dofree: bool)
    requires RangeErased(m0, m, root, lo, v) && Released(m0, m, root, lo, v, dofree) && LeafRange(m0, root, lo, v)
    requires Inv(m0, all) && Inv(m, all) && lo <= v < hi && v < VPAGES && IsLeaf(m, root, v)
    requires OneMoved(m, m', root, v, NoPte())
    requires dofree ==> OwnsRange(m, root, v, hi) && Gave(m, m', Lookup(m.ts, root, v).ppn)
    requires !dofree ==> m'.free == m.free && m'.data == m.data && m'.place == Unplaced(m, root, v)
    ensures RangeErased(m0, m', root, lo, v + 1) && LeafRange(m0, root, lo, v + 1)
    ensures Released(m0, m', root, lo, v + 1, dofree)
    ensures dofree ==> OwnsRange(m', root, v + 1, hi)
    ensures IsRoot(m', root)
  {
    EraseMaps(m0, m, m', root, lo, v);
    if dofree {
      assert OwnsFrame(m, root, v);
      RestOwned(m, m', root, v, hi);
    }
    ReleaseStep(m0, m, m', all, root, lo, v, dofree);
  }

  lemma EraseMaps(m0: Mem, m: Mem, m': Mem, root: nat, lo: nat, v: nat)
    requires RangeErased(m0, m, root, lo, v) && LeafRange(m0, root, lo, v) && lo <= v < VPAGES
    requires IsLeaf(m, root, v) && OneMoved(m, m', root, v, NoPte())
    ensures RangeErased(m0, m', root, lo, v + 1) && LeafRange(m0, root, lo, v + 1)
  {
    hide Lookup;
  }

  lemma RestOwned(m: Mem, m': Mem, root: nat, v: nat, hi: nat)
    requires IsRoot(m, root) && v < VPAGES && OwnsRange(m, root, v, hi) && v < hi
    requires Lookup(m.ts, root, v).Valid()
    requires OneMoved(m, m', root, v, NoPte()) && Gave(m, m', Lookup(m.ts, root, v).ppn)
    ensures OwnsRange(m', root, v + 1, hi)
  {
    hide Lookup;
    assert OwnsFrame(m, root, v);
    forall w: nat | v + 1 <= w < hi && w < VPAGES
      ensures OwnsFrame(m', root, w)
    {
      assert OwnsFrame(m, root, w);
    }
  }

  lemma ReleaseStep(m0: Mem, m: Mem, m': Mem, all: set<nat>, root: nat, lo: nat, v: nat, dofree: bool)
    requires Inv(m0, all) && Inv(m, all) && IsRoot(m, root) && lo <= v < VPAGES && Lookup(m.ts, root, v).Valid()
    requires RangeErased(m0, m, root, lo, v) && Released(m0, m, root, lo, v, dofree)
    requires dofree ==> OwnsFrame(m, root, v) && Gave(m, m', Lookup(m.ts, root, v).ppn)
    requires !dofree ==> m'.free == m.free && m'.data == m.data && m'.place == Unplaced(m, root, v)
    ensures Released(m0, m', root, lo, v + 1, dofree)
  {
    var f := Lookup(m.ts, root, v).ppn;
    assert Lookup(m0.ts, root, v) == Lookup(m.ts, root, v);
    OnlyFrame(m0, all, root, v);
    hide Lookup, Inv, RangeErased;
    if dofree {
      FreeStep(m0, m, m', root, lo, v, f);
    } else {
      HoldStep(m0, m, m', root, lo, v, f);
    }
  }

  /** At most one frame has its place at a given page. */
  lemma OnlyFrame(m: Mem, all: set<nat>, root: nat, v: nat)
    requires Inv(m, all) && v < VPAGES
    ensures forall g: nat :: g in m.place && m.place[g] == Mapped(root, v) ==> g == Lookup(m.ts, root, v).ppn
  {
    hide Lookup, TreeOk, Conserved, UserOwned;
    forall g: nat | g in m.place && m.place[g] == Mapped(root, v)
      ensures g == Lookup(m.ts, root, v).ppn
    {
      assert PlacedAt(m, g);
    }
  }

  lemma FreeStep(m0: Mem, m: Mem, m': Mem, root: nat, lo: nat, v: nat, f: nat)
    requires Released(m0, m, root, lo, v, true) && lo <= v && Gave(m, m', f)
    requires f in m.place && m.place[f] == Mapped(root, v)
    requires forall g: nat :: g in m0.place && m0.place[g] == Mapped(root, v) ==> g == f
    ensures Released(m0, m', root, lo, v + 1, true)
  {
    assert f in m0.place && m0.place[f] == Mapped(root, v);
    var k := |m.free| - |m0.free|;
    assert m'.free[k + 1..] == m.free[k..];
  }

  lemma HoldStep(m0: Mem, m: Mem, m': Mem, root: nat, lo: nat, v: nat, f: nat)
    requires Released(m0, m, root, lo, v, false) && lo <= v && m'.free == m.free && m'.data == m.data
    requires m'.place == if f in m.place && m.place[f] == Mapped(root, v) then m.place[f := Held] else m.place
    requires forall g: nat :: g in m0.place && m0.place[g] == Mapped(root, v) ==> g == f
    ensures Released(m0, m', root, lo, v + 1, false)
  {
  }
}
