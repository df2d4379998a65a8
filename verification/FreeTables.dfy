/** Taking a page table apart. */
module FreeTables {
  import opened PageTree
  import opened PageOwnership
  import opened VirtualMemory
  import opened UserMemory

  /** A table at q hangs somewhere below table t, which is at p. */
  predicate Below(p: Pos, t: nat, q: Pos) {
    match p
    case Root => (q.Mid? || q.Leaf?) && q.root == t
    case Mid(r, i2) => q.Leaf? && q.root == r && q.i2 == i2
    case Leaf(_, _, _) => false
  }

  /** Under which entry of t. */
  function Branch(p: Pos, q: Pos): (i: nat)
    requires q.Mid? || q.Leaf?
    requires p.Mid? ==> q.Leaf?
  {
    if p.Mid? then q.i1 else q.i2
  }

  predicate InBranches(pos: Places, t: nat, lo: nat, hi: nat, u: nat)
    requires t in pos && u in pos
  {
    Below(pos[t], t, pos[u]) && lo <= Branch(pos[t], pos[u]) < hi
  }

  /** The tables under entries lo, ..., hi - 1 of t. */
  ghost function Branches(pos: Places, t: nat, lo: nat, hi: nat): (s: set<nat>)
    requires t in pos
  {
    set u | u in pos && InBranches(pos, t, lo, hi, u)
  }

  /** t and all tables below it. */
  ghost function Subtree(pos: Places, t: nat): (s: set<nat>)
    requires t in pos
  {
    {t} + Branches(pos, t, 0, ENTRIES)
  }

  function Height(p: Pos): (h: nat) { if p.Root? then 2 else if p.Mid? then 1 else 0 }

  ghost predicate TableOk(ts: Tables, pos: Places, u: nat)
    requires u in ts && u in pos
  {
    Hangs(ts, pos, u) && forall k :: 0 <= k < ENTRIES ==> EntryOk(ts, pos, u, k)
  }

  /** A leaf entry lets something be read, written or executed. */
  predicate LeafMark(p: Pte) { p.flags * {R, W, X} != {} }

  ghost predicate Marked(ts: Tables, pos: Places, u: nat)
    requires u in ts && u in pos
  {
    pos[u].Leaf? ==> forall k :: 0 <= k < ENTRIES && ts[u][k].Valid() ==> LeafMark(ts[u][k])
  }

  /** t and what is below it are as walk left them. */
  ghost predicate Standing(ts: Tables, pos: Places, t: nat) {
    && ts.Keys == pos.Keys && t in ts
    && forall u :: u in pos && (u == t || Below(pos[t], t, pos[u])) ==> TableOk(ts, pos, u) && Marked(ts, pos, u)
  }

  predicate Bare(ts: Tables, u: nat)
    requires u in ts
  {
    forall k :: 0 <= k < ENTRIES ==> !ts[u][k].Valid()
  }

  /** No mapping is left in the given tables. */
  ghost predicate NoLeaves(ts: Tables, pos: Places, s: set<nat>)
    requires ts.Keys == pos.Keys
  {
    forall u :: u in s && u in pos && pos[u].Leaf? ==> Bare(ts, u)
  }

  /** order lists the elements of s, each once. */
  ghost predicate Lists(order: seq<nat>, s: set<nat>) {
    && (forall i, j :: 0 <= i < j < |order| ==> order[i] != order[j])
    && forall u: nat :: u in order <==> u in s
  }

  /** ts and free after the tables of s have gone to the front of the free list. */
  ghost predicate Torn(ts: Tables, pos: Places, free: seq<nat>, ts': Tables, pos': Places, free': seq<nat>, s: set<nat>) {
    && ts' == ts - s && pos' == pos - s
    && |free| <= |free'| && free'[|free'| - |free|..] == free && Lists(free'[..|free'| - |free|], s)
  }

  // ----- the loop of freewalk

  /** t with its first i entries cleared. */
  function Swept(t: Table, i: nat): (r: Table)
    requires i <= ENTRIES
  {
    seq(i, _ => NoPte()) + t[i..]
  }

  ghost predicate Sweeping(ts0: Tables, pos0: Places, free0: seq<nat>, ts: Tables, pos: Places, free: seq<nat>, t: nat, i: nat)
    requires t in ts0 && t in pos0 && i <= ENTRIES
  {
    Torn(ts0[t := Swept(ts0[t], i)], pos0, free0, ts, pos, free, Branches(pos0, t, 0, i))
  }

  lemma StartSweep(ts: Tables, pos: Places, free: seq<nat>, t: nat)
    requires t in ts && t in pos
    ensures Sweeping(ts, pos, free, ts, pos, free, t, 0)
  {
    assert Swept(ts[t], 0) == ts[t];
    assert Branches(pos, t, 0, 0) == {};
    assert ts[t := Swept(ts[t], 0)] == ts;
  }

  /** What is under one entry is the subtree of the table it leads to. */
  lemma BranchIsSubtree(ts: Tables, pos: Places, t: nat, i: nat, c: nat)
    requires Standing(ts, pos, t) && !pos[t].Leaf? && i < ENTRIES && ts[t][i].Valid() && c == ts[t][i].ppn
    ensures c in ts && c in pos && pos[c] == ChildPos(pos, t, i) && Below(pos[t], t, pos[c]) && c != t
    ensures Branches(pos, t, i, i + 1) == Subtree(pos, c)
    ensures forall u :: u in pos && Below(pos[c], c, pos[u]) ==> Below(pos[t], t, pos[u])
  {
    assert TableOk(ts, pos, t) && EntryOk(ts, pos, t, i);
    forall u | u in pos
      ensures u in Branches(pos, t, i, i + 1) <==> u in Subtree(pos, c)
    {
      assert Below(pos[t], t, pos[u]) ==> TableOk(ts, pos, u);
    }
  }

  lemma EmptyBranch(ts: Tables, pos: Places, t: nat, i: nat)
    requires Standing(ts, pos, t) && i < ENTRIES && !ts[t][i].Valid()
    ensures Branches(pos, t, i, i + 1) == {} && ts[t][i] == NoPte()
  {
    assert TableOk(ts, pos, t) && EntryOk(ts, pos, t, i);
    forall u | u in pos
      ensures u !in Branches(pos, t, i, i + 1)
    {
      assert Below(pos[t], t, pos[u]) ==> TableOk(ts, pos, u);
    }
  }

  lemma BranchesSplit(pos: Places, t: nat, i: nat)
    requires t in pos
    ensures Branches(pos, t, 0, i + 1) == Branches(pos, t, 0, i) + Branches(pos, t, i, i + 1)
    ensures Branches(pos, t, 0, i) !! Branches(pos, t, i, i + 1)
    ensures t !in Branches(pos, t, 0, i + 1)
  {
  }

  /** The child under entry i still stands when the loop reaches it. */
  lemma ChildStands(ts0: Tables, pos0: Places, free0: seq<nat>, ts: Tables, pos: Places, free: seq<nat>, t: nat, i: nat)
    requires Standing(ts0, pos0, t) && i < ENTRIES && !pos0[t].Leaf? && ts0[t][i].Valid()
    requires Sweeping(ts0, pos0, free0, ts, pos, free, t, i)
    ensures var c := ts0[t][i].ppn;
            && t in ts && ts[t][i] == ts0[t][i] && c in pos && pos[c] == ChildPos(pos0, t, i)
            && Standing(ts, pos, c) && Subtree(pos, c) == Branches(pos0, t, i, i + 1)
            && (forall u :: u in Subtree(pos, c) ==>
                  u in pos0 && u in ts && u in ts0 && ts[u] == ts0[u] && pos[u] == pos0[u])
  {
    var c := ts0[t][i].ppn;
    BranchIsSubtree(ts0, pos0, t, i, c);
    BranchesSplit(pos0, t, i);
    assert c in Subtree(pos0, c);
    assert Subtree(pos, c) == Subtree(pos0, c);
    forall u | u in pos && (u == c || Below(pos[c], c, pos[u]))
      ensures TableOk(ts, pos, u) && Marked(ts, pos, u)
    {
      assert u in Subtree(pos0, c);
      StillOk(ts0, pos0, ts, pos, t, i, c, u);
    }
  }

  lemma StillOk(ts0: Tables, pos0: Places, ts: Tables, pos: Places, t: nat, i: nat, c: nat, u: nat)
    requires Standing(ts0, pos0, t) && i < ENTRIES && !pos0[t].Leaf? && ts0[t][i].Valid() && c == ts0[t][i].ppn
    requires c in pos0 && pos0[c] == ChildPos(pos0, t, i)
    requires ts == ts0[t := Swept(ts0[t], i)] - Branches(pos0, t, 0, i) && pos == pos0 - Branches(pos0, t, 0, i)
    requires u in pos && u in pos0 && (u == c || Below(pos0[c], c, pos0[u]))
    ensures u in ts && TableOk(ts, pos, u) && Marked(ts, pos, u)
  {
    assert Below(pos0[t], t, pos0[u]);
    assert TableOk(ts0, pos0, u) && Marked(ts0, pos0, u) && TableOk(ts0, pos0, t);
    assert ts[u] == ts0[u];
    forall k | 0 <= k < ENTRIES
      ensures EntryOk(ts, pos, u, k)
    {
      assert EntryOk(ts0, pos0, u, k);
    }
  }

  lemma ListsJoin(a: seq<nat>, b: seq<nat>, s: set<nat>, r: set<nat>)
    requires Lists(a, s) && Lists(b, r) && s !! r
    ensures Lists(a + b, s + r)
  {
    var c := a + b;
    forall i, j | 0 <= i < j < |c|
      ensures c[i] != c[j]
    {
      if i < |a| <= j {
        assert c[i] in a && c[j] in b;
      }
    }
  }

  lemma SweepStep(ts0: Tables, pos0: Places, free0: seq<nat>, ts: Tables, pos: Places, free: seq<nat>,
                  ts': Tables, pos': Places, free': seq<nat>, t: nat, i: nat)
    requires t in ts0 && t in pos0 && i < ENTRIES && Sweeping(ts0, pos0, free0, ts, pos, free, t, i) && t in ts
    requires Torn(ts, pos, free, ts', pos', free', Branches(pos0, t, i, i + 1)) && t in ts'
    ensures Sweeping(ts0, pos0, free0, ts'[t := ts'[t][i := NoPte()]], pos', free', t, i + 1)
  {
    BranchesSplit(pos0, t, i);
    var s, r := Branches(pos0, t, 0, i), Branches(pos0, t, i, i + 1);
    assert Swept(ts0[t], i)[i := NoPte()] == Swept(ts0[t], i + 1);
    var ts'' := ts'[t := ts'[t][i := NoPte()]];
    assert ts'' == ts0[t := Swept(ts0[t], i + 1)] - (s + r);
    assert pos' == pos0 - (s + r);
    var n, n', n0 := |free|, |free'|, |free0|;
    var a, b := free'[..n' - n], free[..n - n0];
    ListsJoin(a, b, r, s);
    assert free'[..n' - n0] == a + b by {
      assert free' == a + free;
    }
    assert free'[n' - n0..] == free0 by {
      assert free' == a + free;
    }
    assert r + s == s + r;
  }

  lemma TornNothing(ts: Tables, pos: Places, free: seq<nat>)
    ensures Torn(ts, pos, free, ts, pos, free, {})
  {
    assert ts - {} == ts && pos - {} == pos;
    assert free[..0] == [];
  }

  lemma SweepSkip(ts0: Tables, pos0: Places, free0: seq<nat>, ts: Tables, pos: Places, free: seq<nat>, t: nat, i: nat)
    requires Standing(ts0, pos0, t) && i < ENTRIES && Sweeping(ts0, pos0, free0, ts, pos, free, t, i)
    requires !ts0[t][i].Valid()
    ensures Sweeping(ts0, pos0, free0, ts, pos, free, t, i + 1)
  {
    EmptyBranch(ts0, pos0, t, i);
    SweptTable(ts0, pos0, free0, ts, pos, free, t, i);
    TornNothing(ts, pos, free);
    SweepStep(ts0, pos0, free0, ts, pos, free, ts, pos, free, t, i);
    assert ts[t][i := NoPte()] == ts[t];
    assert ts[t := ts[t]] == ts;
  }

  lemma SweptTable(ts0: Tables, pos0: Places, free0: seq<nat>, ts: Tables, pos: Places, free: seq<nat>, t: nat, i: nat)
    requires t in ts0 && t in pos0 && i <= ENTRIES && Sweeping(ts0, pos0, free0, ts, pos, free, t, i)
    ensures t in ts && t in pos && pos[t] == pos0[t] && (i < ENTRIES ==> ts[t][i] == ts0[t][i])
    ensures ts0.Keys == pos0.Keys ==> ts.Keys == pos.Keys
  {
    BranchesSplit(pos0, t, i);
    var s := Branches(pos0, t, 0, i);
    assert t !in s;
  }

  lemma SweepEnd(ts0: Tables, pos0: Places, free0: seq<nat>, ts: Tables, pos: Places, free: seq<nat>, t: nat)
    requires t in ts0 && t in pos0 && Sweeping(ts0, pos0, free0, ts, pos, free, t, ENTRIES)
    ensures Torn(ts0, pos0, free0, ts - {t}, pos - {t}, [t] + free, Subtree(pos0, t))
  {
    var s := Branches(pos0, t, 0, ENTRIES);
    BranchesSplit(pos0, t, ENTRIES);
    var a := free[..|free| - |free0|];
    ListsJoin([t], a, {t}, s);
    assert ([t] + free)[..|free| + 1 - |free0|] == [t] + a;
    assert ts - {t} == ts0 - ({t} + s);
    assert pos - {t} == pos0 - ({t} + s);
  }

  // ----- NoLeaves along the loop

  lemma NoLeavesStep(ts0: Tables, pos0: Places, t: nat, i: nat)
    requires t in pos0 && ts0.Keys == pos0.Keys
    ensures NoLeaves(ts0, pos0, Branches(pos0, t, 0, i + 1)) <==>
            NoLeaves(ts0, pos0, Branches(pos0, t, 0, i)) && NoLeaves(ts0, pos0, Branches(pos0, t, i, i + 1))
  {
    BranchesSplit(pos0, t, i);
  }

  /** The page of a table goes back to the allocator. */
  method KfreeTable(vm: Vm, t: nat)
    modifies vm`free, vm`ts, vm`pos
    ensures vm.free == [t] + old(vm.free) && vm.ts == old(vm.ts) - {t} && vm.pos == old(vm.pos) - {t}
  {
    vm.free := [t] + vm.free;
    vm.ts := vm.ts - {t};
    vm.pos := vm.pos - {t};
  }

  /** freewalk: gets through exactly when no mapping is left below t, and then every table
      of the subtree has gone to the free list, once. */
  method Freewalk(vm: Vm, t: nat) returns (ok: bool)
    requires Standing(vm.ts, vm.pos, t)
    modifies vm`free, vm`ts, vm`pos
    ensures ok <==> NoLeaves(old(vm.ts), old(vm.pos), Subtree(old(vm.pos), t))
    ensures ok ==> Torn(old(vm.ts), old(vm.pos), old(vm.free), vm.ts, vm.pos, vm.free, Subtree(old(vm.pos), t))
    decreases Height(vm.pos[t])
  {
    hide Standing, Sweeping, Torn, NoLeaves, Branches;
    ghost var ts0, pos0, free0 := vm.ts, vm.pos, vm.free;
    StandingFacts(ts0, pos0, t);
    StartSweep(ts0, pos0, free0, t);
    NoneBelow(ts0, pos0, t);
    var i := 0;
    while i < ENTRIES
      invariant 0 <= i <= ENTRIES && Sweeping(ts0, pos0, free0, vm.ts, vm.pos, vm.free, t, i)
      invariant NoLeaves(ts0, pos0, Branches(pos0, t, 0, i))
      invariant pos0[t].Leaf? ==> forall k :: 0 <= k < i ==> !ts0[t][k].Valid()
    {
      SweptTable(ts0, pos0, free0, vm.ts, vm.pos, vm.free, t, i);
      var pte := vm.ts[t][i];
      EntryKind(ts0, pos0, t, i);
      NoLeavesStep(ts0, pos0, t, i);
      if pte.Valid() && !LeafMark(pte) {
        var child := pte.ppn;
        ghost var ts, pos, free := vm.ts, vm.pos, vm.free;
        ChildStands(ts0, pos0, free0, ts, pos, free, t, i);
        SameLeaves(ts0, pos0, ts, pos, child, Branches(pos0, t, i, i + 1));
        var done := Freewalk(vm, child);
        if !done {
          MissedBelow(ts0, pos0, t, i);
          return false;
        }
        TornKeeps(ts, pos, free, vm.ts, vm.pos, vm.free, pos0, t, i);
        SweepStep(ts0, pos0, free0, ts, pos, free, vm.ts, vm.pos, vm.free, t, i);
        vm.ts := vm.ts[t := vm.ts[t][i := NoPte()]];
      } else if pte.Valid() {
        LeafFound(ts0, pos0, t, i);
        return false;
      } else {
        SweepSkip(ts0, pos0, free0, vm.ts, vm.pos, vm.free, t, i);
      }
      i := i + 1;
    }
    AllBare(ts0, pos0, t);
    SweepEnd(ts0, pos0, free0, vm.ts, vm.pos, vm.free, t);
    KfreeTable(vm, t);
    ok := true;
  }

  lemma StandingFacts(ts: Tables, pos: Places, t: nat)
    requires Standing(ts, pos, t)
    ensures ts.Keys == pos.Keys && t in ts && t in pos
  {
  }

  lemma NoneBelow(ts: Tables, pos: Places, t: nat)
    requires ts.Keys == pos.Keys && t in pos
    ensures NoLeaves(ts, pos, Branches(pos, t, 0, 0))
  {
  }

  /** freewalk tells tables and mappings apart by the flags, rightly. */
  lemma EntryKind(ts: Tables, pos: Places, t: nat, i: nat)
    requires Standing(ts, pos, t) && i < ENTRIES
    ensures t in ts && t in pos && ts.Keys == pos.Keys
    ensures ts[t][i].Valid() ==> (LeafMark(ts[t][i]) <==> pos[t].Leaf?)
    ensures !ts[t][i].Valid() || pos[t].Leaf? ==> NoLeaves(ts, pos, Branches(pos, t, i, i + 1))
  {
    assert TableOk(ts, pos, t) && Marked(ts, pos, t) && EntryOk(ts, pos, t, i);
    if !ts[t][i].Valid() {
      EmptyBranch(ts, pos, t, i);
    }
  }

  lemma SameLeaves(ts0: Tables, pos0: Places, ts: Tables, pos: Places, c: nat, s: set<nat>)
    requires ts0.Keys == pos0.Keys && ts.Keys == pos.Keys && c in pos && s == Subtree(pos, c)
    requires forall u :: u in s ==> u in pos0 && u in ts && u in ts0 && ts[u] == ts0[u] && pos[u] == pos0[u]
    ensures NoLeaves(ts, pos, Subtree(pos, c)) <==> NoLeaves(ts0, pos0, s)
  {
    forall u | u in s && u in pos0 && pos0[u].Leaf?
      ensures Bare(ts, u) <==> Bare(ts0, u)
    {
    }
  }

  lemma MissedBelow(ts: Tables, pos: Places, t: nat, i: nat)
    requires ts.Keys == pos.Keys && t in pos && i < ENTRIES && !NoLeaves(ts, pos, Branches(pos, t, i, i + 1))
    ensures !NoLeaves(ts, pos, Subtree(pos, t))
  {
    assert Branches(pos, t, i, i + 1) <= Subtree(pos, t);
  }

  lemma TornKeeps(ts: Tables, pos: Places, free: seq<nat>, ts': Tables, pos': Places, free': seq<nat>,
                  pos0: Places, t: nat, i: nat)
    requires t in pos0 && t in ts && Torn(ts, pos, free, ts', pos', free', Branches(pos0, t, i, i + 1))
    ensures t in ts'
  {
  }

  lemma LeafFound(ts: Tables, pos: Places, t: nat, i: nat)
    requires ts.Keys == pos.Keys && t in pos && i < ENTRIES && pos[t].Leaf? && ts[t][i].Valid()
    ensures !NoLeaves(ts, pos, Subtree(pos, t))
  {
    assert t in Subtree(pos, t) && !Bare(ts, t);
  }

  lemma AllBare(ts: Tables, pos: Places, t: nat)
    requires ts.Keys == pos.Keys && t in pos && NoLeaves(ts, pos, Branches(pos, t, 0, ENTRIES))
    requires pos[t].Leaf? ==> forall k :: 0 <= k < ENTRIES ==> !ts[t][k].Valid()
    ensures NoLeaves(ts, pos, Subtree(pos, t))
  {
  }

  // ----- uvmfree

  function Vpn(i2: nat, i1: nat, k: nat): (v: nat)
    requires i2 < TOP && i1 < ENTRIES && k < ENTRIES
    ensures v < VPAGES && Index(2, v) == i2 && Index(1, v) == i1 && Index(0, v) == k
  {
    i2 * 0x4_0000 + i1 * 0x200 + k
  }

  /** Every entry of a last-level table translates one page. */
  lemma EntryTranslates(ts: Tables, pos: Places, u: nat, k: nat)
    requires TreeOk(ts, pos) && u in pos && pos[u].Leaf? && k < ENTRIES
    ensures var p := pos[u];
            p.i2 < TOP && p.i1 < ENTRIES && p.root in pos && pos[p.root].Root?
            && Lookup(ts, p.root, Vpn(p.i2, p.i1, k)) == ts[u][k]
  {
    assert Hangs(ts, pos, u);
  }

  /** Every mapping of root can be told from a table. */
  ghost predicate MarkedLeaves(m: Mem, root: nat) {
    forall v: nat :: v < VPAGES && Lookup(m.ts, root, v).Valid() ==> LeafMark(Lookup(m.ts, root, v))
  }

  ghost predicate Unmapped(m: Mem, root: nat) {
    forall v: nat :: v < VPAGES ==> !Lookup(m.ts, root, v).Valid()
  }

  lemma RootStands(m: Mem, all: set<nat>, root: nat)
    requires Inv(m, all) && IsRoot(m, root) && MarkedLeaves(m, root)
    ensures Standing(m.ts, m.pos, root)
  {
    forall u | u in m.pos && (u == root || Below(m.pos[root], root, m.pos[u]))
      ensures TableOk(m.ts, m.pos, u) && Marked(m.ts, m.pos, u)
    {
      forall k | m.pos[u].Leaf? && 0 <= k < ENTRIES && m.ts[u][k].Valid()
        ensures LeafMark(m.ts[u][k])
      {
        EntryTranslates(m.ts, m.pos, u, k);
      }
    }
  }

  lemma UnmappedIsBare(m: Mem, all: set<nat>, root: nat)
    requires Inv(m, all) && IsRoot(m, root)
    ensures m.ts.Keys == m.pos.Keys
    ensures Unmapped(m, root) <==> NoLeaves(m.ts, m.pos, Subtree(m.pos, root))
  {
    if Unmapped(m, root) {
      forall u, k | u in Subtree(m.pos, root) && m.pos[u].Leaf? && 0 <= k < ENTRIES
        ensures !m.ts[u][k].Valid()
      {
        EntryTranslates(m.ts, m.pos, u, k);
      }
    }
    if NoLeaves(m.ts, m.pos, Subtree(m.pos, root)) {
      forall v: nat | v < VPAGES
        ensures !Lookup(m.ts, root, v).Valid()
      {
        if LeafTable(m.ts, root, v).To? {
          LeafTablePos(m.ts, m.pos, root, v);
          var u := LeafTable(m.ts, root, v).page;
          assert InBranches(m.pos, root, 0, ENTRIES, u);
          assert u in Subtree(m.pos, root) && Bare(m.ts, u);
        }
      }
    }
  }

  /** m' is m without root: all its tables are free, and the rest is untouched. */
  ghost predicate Dropped(m: Mem, m': Mem, root: nat)
    requires IsRoot(m, root)
  {
    && Torn(m.ts, m.pos, m.free, m'.ts, m'.pos, m'.free, Subtree(m.pos, root))
    && m'.data == m.data && m'.place == m.place
  }

  /** A table of another tree is still there. */
  lemma OtherTable(m: Mem, m': Mem, root: nat, u: nat)
    requires IsRoot(m, root) && Dropped(m, m', root) && m.ts.Keys == m.pos.Keys && u in m.ts && u != root
    requires m.pos[u].Root? || m.pos[u].root != root
    ensures u in m'.ts && u in m'.pos && m'.ts[u] == m.ts[u] && m'.pos[u] == m.pos[u]
  {
    assert u !in Subtree(m.pos, root);
  }

  /** Other trees do not notice. */
  lemma OtherTree(m: Mem, m': Mem, all: set<nat>, root: nat, r: nat, v: nat)
    requires Inv(m, all) && IsRoot(m, root) && Dropped(m, m', root) && r != root && IsRoot(m, r) && v < VPAGES
    ensures Lookup(m'.ts, r, v) == Lookup(m.ts, r, v)
  {
    hide Dropped, Torn, Subtree, UserOwned, PlacedAt, Conserved;
    assert EntryOk(m.ts, m.pos, r, Index(2, v));
    OtherTable(m, m', root, r);
    if Down(m.ts, r, Index(2, v)).To? {
      var c := Down(m.ts, r, Index(2, v)).page;
      assert EntryOk(m.ts, m.pos, c, Index(1, v));
      OtherTable(m, m', root, c);
      if Down(m.ts, c, Index(1, v)).To? {
        OtherTable(m, m', root, Down(m.ts, c, Index(1, v)).page);
      }
    }
  }

  lemma DroppedTree(m: Mem, m': Mem, root: nat)
    requires TreeOk(m.ts, m.pos) && IsRoot(m, root) && Dropped(m, m', root)
    ensures TreeOk(m'.ts, m'.pos)
  {
    forall u, k | u in m'.ts && 0 <= k < ENTRIES
      ensures EntryOk(m'.ts, m'.pos, u, k)
    {
      assert EntryOk(m.ts, m.pos, u, k);
    }
    forall u | u in m'.ts
      ensures Hangs(m'.ts, m'.pos, u)
    {
      assert Hangs(m.ts, m.pos, u);
      assert m.pos[u].Leaf? ==> Hangs(m.ts, m.pos, Down(m.ts, m.pos[u].root, m.pos[u].i2).page);
    }
  }

  lemma DroppedConserved(m: Mem, m': Mem, all: set<nat>, root: nat)
    requires TreeOk(m.ts, m.pos) && Conserved(m, all) && IsRoot(m, root) && Dropped(m, m', root)
    ensures Conserved(m', all)
  {
    hide TreeOk, Torn, Subtree;
    TreeKeys(m.ts, m.pos);
    DroppedFree(m, m', root);
    var s := Subtree(m.pos, root);
    forall i, j | 0 <= i < j < |m'.free|
      ensures m'.free[i] != m'.free[j]
    {
      var n := |m'.free| - |m.free|;
      if i < n <= j {
        assert OnFreeList(m.free, m'.free[j]);
      }
    }
  }

  /** The free list has grown by the tables of root. */
  lemma DroppedFree(m: Mem, m': Mem, root: nat)
    requires IsRoot(m, root) && Dropped(m, m', root) && m.ts.Keys == m.pos.Keys
    ensures forall p: nat :: OnFreeList(m'.free, p) <==> p in Subtree(m.pos, root) || OnFreeList(m.free, p)
    ensures Subtree(m.pos, root) <= m.ts.Keys && m'.ts.Keys == m.ts.Keys - Subtree(m.pos, root)
    ensures var n := |m'.free| - |m.free|;
            && 0 <= n && (forall i, j :: 0 <= i < j < n ==> m'.free[i] != m'.free[j])
            && (forall i :: 0 <= i < n ==> m'.free[i] in Subtree(m.pos, root))
            && (forall i :: n <= i < |m'.free| ==> m'.free[i] == m.free[i - n])
  {
    var s := Subtree(m.pos, root);
    hide Subtree, Lists;
    ListsFacts(m.free, m'.free, s);
  }

  lemma ListsFacts(free: seq<nat>, free': seq<nat>, s: set<nat>)
    requires |free| <= |free'| && free'[|free'| - |free|..] == free && Lists(free'[..|free'| - |free|], s)
    ensures forall p: nat :: OnFreeList(free', p) <==> p in s || OnFreeList(free, p)
    ensures var n := |free'| - |free|;
            && (forall i, j :: 0 <= i < j < n ==> free'[i] != free'[j])
            && (forall i :: 0 <= i < n ==> free'[i] in s)
            && (forall i :: n <= i < |free'| ==> free'[i] == free[i - n])
  {
    var n := |free'| - |free|;
    var a := free'[..n];
    assert free' == a + free;
    forall p: nat
      ensures OnFreeList(free', p) <==> p in s || OnFreeList(free, p)
    {
      assert p in free' <==> p in a || p in free;
    }
    forall i, j | 0 <= i < j < n
      ensures free'[i] != free'[j]
    {
      assert a[i] != a[j];
    }
    forall i | 0 <= i < n
      ensures free'[i] in s
    {
      assert a[i] in a;
    }
  }

  lemma TreeKeys(ts: Tables, pos: Places)
    requires TreeOk(ts, pos)
    ensures ts.Keys == pos.Keys
  {
  }

  lemma DroppedMaps(m: Mem, m': Mem, all: set<nat>, root: nat)
    requires Inv(m, all) && IsRoot(m, root) && Dropped(m, m', root)
    ensures forall r: nat :: IsRoot(m', r) <==> IsRoot(m, r) && r != root
    ensures forall r: nat, v: nat :: IsRoot(m', r) && v < VPAGES ==> Lookup(m'.ts, r, v) == Lookup(m.ts, r, v)
  {
    assert forall r: nat :: IsRoot(m', r) <==> IsRoot(m, r) && r != root;
    hide Lookup, Inv, Dropped;
    forall r: nat, v: nat | IsRoot(m', r) && v < VPAGES
      ensures Lookup(m'.ts, r, v) == Lookup(m.ts, r, v)
    {
      OtherTree(m, m', all, root, r, v);
    }
  }

  lemma DroppedInv(m: Mem, m': Mem, all: set<nat>, root: nat)
    requires Inv(m, all) && IsRoot(m, root) && Dropped(m, m', root) && Unmapped(m, root)
    ensures Inv(m', all)
    ensures forall r: nat :: IsRoot(m', r) <==> IsRoot(m, r) && r != root
    ensures forall r: nat, v: nat :: IsRoot(m', r) && v < VPAGES ==> Lookup(m'.ts, r, v) == Lookup(m.ts, r, v)
  {
    hide TreeOk, Conserved, Lookup, Torn, Subtree;
    DroppedTree(m, m', root);
    DroppedConserved(m, m', all, root);
    DroppedMaps(m, m', all, root);
    forall f | f in m'.place
      ensures PlacedAt(m', f)
    {
      assert PlacedAt(m, f);
    }
    forall r: nat, v: nat | IsRoot(m', r) && v < VPAGES
      ensures UserOwned(m', r, v)
    {
      assert UserOwned(m, r, v);
    }
  }

  /** Pages [0, n) of root are mapped to leaves, and nothing else is. */
  ghost predicate MapsExactly(m: Mem, root: nat, n: nat) {
    LeafRange(m, root, 0, n) && forall v: nat :: n <= v < VPAGES ==> !Lookup(m.ts, root, v).Valid()
  }

  /** Every page that made up root's address space is on the free list; the pages of all
      other address spaces are where they were. */
  ghost predicate Returned(m: Mem, m': Mem, root: nat)
    requires IsRoot(m, root)
  {
    && (forall u: nat :: u in Subtree(m.pos, root) ==> OnFreeList(m'.free, u) && u !in m'.ts)
    && (forall g: nat :: g in m.place && Belongs(m.place[g], root, 0, VPAGES) ==> OnFreeList(m'.free, g) && g !in m'.place)
    && (forall u: nat :: u in m'.ts <==> u in m.ts && u !in Subtree(m.pos, root))
    && (forall g: nat :: g in m'.place ==> g in m.place)
    && (forall g: nat :: g in m.place && !Belongs(m.place[g], root, 0, VPAGES) ==>
          g in m'.place && m'.place[g] == m.place[g] && (g in m.data ==> g in m'.data && m'.data[g] == m.data[g]))
    && (forall r: nat :: IsRoot(m', r) <==> IsRoot(m, r) && r != root)
    && (forall r: nat, v: nat :: IsRoot(m', r) && v < VPAGES ==> Lookup(m'.ts, r, v) == Lookup(m.ts, r, v))
  }

  /** Unmapping [0, n) leaves a table that freewalk can take. */
  lemma UnmappedAfter(m: Mem, m1: Mem, root: nat, n: nat)
    requires IsRoot(m, root) && RangeErased(m, m1, root, 0, n) && MarkedLeaves(m, root)
    ensures MarkedLeaves(m1, root) && IsRoot(m1, root)
    ensures LeafRange(m, root, 0, n) ==> (Unmapped(m1, root) <==> MapsExactly(m, root, n))
  {
    hide Lookup;
    if Unmapped(m1, root) {
      forall v: nat | n <= v < VPAGES
        ensures !Lookup(m.ts, root, v).Valid()
      {
        assert Lookup(m1.ts, root, v) == Lookup(m.ts, root, v);
      }
    }
  }

  lemma NothingErased(m: Mem, root: nat)
    requires IsRoot(m, root)
    ensures RangeErased(m, m, root, 0, 0) && Released(m, m, root, 0, 0, true) && LeafRange(m, root, 0, 0)
  {
    StartErase(m, root, 0, 0, true);
  }

  lemma ReturnedAll(m: Mem, m1: Mem, m': Mem, all: set<nat>, root: nat, n: nat)
    requires Inv(m, all) && Inv(m1, all) && IsRoot(m, root) && MapsExactly(m, root, n)
    requires RangeErased(m, m1, root, 0, n) && Released(m, m1, root, 0, n, true)
    requires m1.pos == m.pos && IsRoot(m1, root) && Unmapped(m1, root) && Dropped(m1, m', root)
    ensures Inv(m', all) && Returned(m, m', root)
  {
    hide Lookup, Inv, Torn, Subtree, Released, MapsExactly, Unmapped;
    DroppedInv(m1, m', all, root);
    KeysAgree(m, all);
    KeysAgree(m1, all);
    DroppedFree(m1, m', root);
    FramesReturned(m, m1, m', all, root, n);
    ReturnedMaps(m, m1, m', root, n);
    assert m.ts.Keys == m1.ts.Keys;
  }

  lemma ReturnedMaps(m: Mem, m1: Mem, m': Mem, root: nat, n: nat)
    requires RangeErased(m, m1, root, 0, n)
    requires forall r: nat :: IsRoot(m', r) <==> IsRoot(m1, r) && r != root
    requires forall r: nat, v: nat :: IsRoot(m', r) && v < VPAGES ==> Lookup(m'.ts, r, v) == Lookup(m1.ts, r, v)
    ensures forall r: nat :: IsRoot(m', r) <==> IsRoot(m, r) && r != root
    ensures forall r: nat, v: nat :: IsRoot(m', r) && v < VPAGES ==> Lookup(m'.ts, r, v) == Lookup(m.ts, r, v)
  {
    hide Lookup;
  }

  /** The frames of an address space that maps [0, n) alone are those of [0, n). */
  lemma OwnFrames(m: Mem, all: set<nat>, root: nat, n: nat, g: nat)
    requires Inv(m, all) && MapsExactly(m, root, n) && g in m.place
    ensures Belongs(m.place[g], root, 0, VPAGES) <==> Belongs(m.place[g], root, 0, n)
    ensures g in all
  {
    hide Lookup, TreeOk, UserOwned;
    assert PlacedAt(m, g);
  }

  lemma FramesReturned(m: Mem, m1: Mem, m': Mem, all: set<nat>, root: nat, n: nat)
    requires Inv(m, all) && Inv(m', all) && MapsExactly(m, root, n) && Released(m, m1, root, 0, n, true)
    requires m'.place == m1.place && m'.data == m1.data
    requires m1.ts.Keys == m.ts.Keys && m'.ts.Keys <= m1.ts.Keys
    ensures forall g: nat :: g in m'.place ==> g in m.place
    ensures forall g: nat :: g in m.place && Belongs(m.place[g], root, 0, VPAGES) ==>
              OnFreeList(m'.free, g) && g !in m'.place
    ensures forall g: nat :: g in m.place && !Belongs(m.place[g], root, 0, VPAGES) ==>
              g in m'.place && m'.place[g] == m.place[g] && (g in m.data ==> g in m'.data && m'.data[g] == m.data[g])
  {
    hide Inv, MapsExactly;
    forall g: nat | g in m.place
      ensures Belongs(m.place[g], root, 0, VPAGES) ==> OnFreeList(m'.free, g) && g !in m'.place
      ensures !Belongs(m.place[g], root, 0, VPAGES) ==>
                g in m'.place && m'.place[g] == m.place[g] && (g in m.data ==> g in m'.data && m'.data[g] == m.data[g])
    {
      OwnFrames(m, all, root, n, g);
      WhereNow(m, m', all, g);
    }
  }

  /** A page that is neither a table nor a frame is free. */
  lemma WhereNow(m: Mem, m': Mem, all: set<nat>, g: nat)
    requires Inv(m, all) && Inv(m', all) && g in m.place && g in all
    ensures g !in m'.place && m'.ts.Keys <= m.ts.Keys ==> OnFreeList(m'.free, g)
  {
    hide Lookup, TreeOk, UserOwned, PlacedAt;
  }

  /** uvmfree, for an address space whose frames below sz are its own: gets through exactly
      when [0, sz) and nothing else is mapped, and then every frame and every table of the
      address space has been returned, and nothing else has moved. */
  method Uvmfree(vm: Vm, root: nat, sz: nat) returns (ok: bool)
    requires vm.Valid() && IsRoot(vm.View(), root)
    requires OwnsRange(vm.View(), root, 0, RoundUp(sz)) && MarkedLeaves(vm.View(), root)
    modifies vm`free, vm`ts, vm`data, vm`pos, vm`place
    ensures ok <==> MapsExactly(old(vm.View()), root, RoundUp(sz))
    ensures ok ==> vm.Valid() && Returned(old(vm.View()), vm.View(), root)
  {
    hide Inv, OwnsRange, LeafRange, RangeErased, Released, MarkedLeaves, Unmapped, Returned, Standing, Torn, NoLeaves, Subtree;
    ghost var m, n := vm.View(), RoundUp(sz);
    NothingErased(m, root);
    if sz > 0 {
      var done := vm.Uvmunmap(root, 0, RoundUp(sz), true);
      if !done {
        return false;
      }
    }
    ghost var m1 := vm.View();
    UnmappedAfter(m, m1, root, n);
    RootStands(m1, vm.all, root);
    UnmappedIsBare(m1, vm.all, root);
    ok := Freewalk(vm, root);
    if ok {
      ReturnedAll(m, m1, vm.View(), vm.all, root, n);
    }
  }
}
