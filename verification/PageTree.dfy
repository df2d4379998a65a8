/** Sv39 page tables: three levels of 512 entries, as walk() goes through them.  Pages are
    named by their physical page numbers, virtual pages by va / PGSIZE. */
module PageTree {
  const PGSIZE: nat := 4096
  const ENTRIES: nat := 512
  const VPAGES: nat := 0x400_0000     // MAXVA / PGSIZE
  const TOP: nat := 256               // entries of a root table that lie below MAXVA

  datatype Flag = V | R | W | X | U
  datatype Pte = Pte(ppn: nat, flags: set<Flag>) {
    predicate Valid() { V in flags }
  }

  type Table = t: seq<Pte> | |t| == ENTRIES witness seq(ENTRIES, _ => Pte(0, {}))
  type Tables = map<nat, Table>

  function NoPte(): (p: Pte) { Pte(0, {}) }
  function EmptyTable(): (t: Table) { seq(ENTRIES, _ => NoPte()) }

  // ----- PX(level, va), on page numbers

  function Index(level: nat, vpn: nat): (i: nat)
    requires level <= 2 && vpn < VPAGES
    ensures i < ENTRIES && (level == 2 ==> i < TOP)
  {
    if level == 0 then vpn % 512 else if level == 1 then vpn / 512 % 512 else vpn / 512 / 512
  }

  function Px(level: nat, va: nat): (i: nat)
    requires level <= 2
  {
    (if level == 0 then va / 0x1000 else if level == 1 then va / 0x20_0000 else va / 0x4000_0000) % 512
  }

  /** An address is made up of its three index fields and its offset, and the fields are
      those of its page. */
  lemma PxIsIndex(va: nat)
    requires va < VPAGES * PGSIZE
    ensures va / PGSIZE < VPAGES
    ensures va == Px(2, va) * 0x4000_0000 + Px(1, va) * 0x20_0000 + Px(0, va) * 0x1000 + va % 0x1000
    ensures Px(0, va) == Index(0, va / PGSIZE) && Px(1, va) == Index(1, va / PGSIZE)
            && Px(2, va) == Index(2, va / PGSIZE)
  {
    var p := va / 0x1000;
    assert va / 0x20_0000 == p / 512;
    assert va / 0x4000_0000 == p / 512 / 512;
    assert p == (p / 512 / 512 * 512 + p / 512 % 512) * 512 + p % 512;
  }

  /** Three indices name one page. */
  lemma IndexInjective(v: nat, w: nat)
    requires v < VPAGES && w < VPAGES
    requires Index(0, v) == Index(0, w) && Index(1, v) == Index(1, w) && Index(2, v) == Index(2, w)
    ensures v == w
  {
  }

  // ----- following the tree

  /** The page that entry i of table t leads to. */
  datatype Step = Nowhere | To(page: nat)

  function Down(ts: Tables, t: nat, i: nat): (r: Step)
    requires i < ENTRIES
  {
    if t in ts && ts[t][i].Valid() then To(ts[t][i].ppn) else Nowhere
  }

  /** The last-level table for a virtual page. */
  function LeafTable(ts: Tables, root: nat, vpn: nat): (r: Step)
    requires vpn < VPAGES
  {
    match Down(ts, root, Index(2, vpn))
    case Nowhere => Nowhere
    case To(m) => Down(ts, m, Index(1, vpn))
  }

  /** The entry for a virtual page: what the table maps it to. */
  function Lookup(ts: Tables, root: nat, vpn: nat): (p: Pte)
    requires vpn < VPAGES
  {
    match LeafTable(ts, root, vpn)
    case Nowhere => NoPte()
    case To(t) => if t in ts then ts[t][Index(0, vpn)] else NoPte()
  }

  // ----- which tables make up which trees

  /** Where a table page hangs: under which root, at which indices. */
  datatype Pos = Root | Mid(root: nat, i2: nat) | Leaf(root: nat, i2: nat, i1: nat)
  type Places = map<nat, Pos>

  ghost predicate EntryOk(ts: Tables, pos: Places, t: nat, i: nat)
    requires t in ts && t in pos && i < ENTRIES
  {
    && (!ts[t][i].Valid() ==> ts[t][i] == NoPte())
    && (ts[t][i].Valid() && !pos[t].Leaf? ==>
          var c := ts[t][i].ppn;
          && ts[t][i].flags == {V} && c in ts && c in pos
          && pos[c] == if pos[t].Root? then Mid(t, i) else Leaf(pos[t].root, pos[t].i2, i))
  }

  /** The entry above a table leads to it. */
  ghost predicate Hangs(ts: Tables, pos: Places, t: nat)
    requires t in pos
  {
    match pos[t]
    case Root => true
    case Mid(r, i2) => i2 < TOP && r in pos && pos[r].Root? && Down(ts, r, i2) == To(t)
    case Leaf(r, i2, i1) =>
      && i2 < TOP && i1 < ENTRIES && r in pos && pos[r].Root?
      && Down(ts, r, i2).To?
      && var m := Down(ts, r, i2).page;
      m in pos && pos[m] == Mid(r, i2) && Down(ts, m, i1) == To(t)
  }

  ghost predicate TreeOk(ts: Tables, pos: Places) {
    && ts.Keys == pos.Keys
    && (forall t, i :: t in ts && 0 <= i < ENTRIES ==> EntryOk(ts, pos, t, i))
    && (forall t :: t in ts ==> Hangs(ts, pos, t))
  }

  /** The last-level table of a page hangs at that page's indices. */
  lemma LeafTablePos(ts: Tables, pos: Places, root: nat, vpn: nat)
    requires TreeOk(ts, pos) && root in pos && pos[root].Root? && vpn < VPAGES && LeafTable(ts, root, vpn).To?
    ensures var t := LeafTable(ts, root, vpn).page;
            t in ts && t in pos && pos[t] == Leaf(root, Index(2, vpn), Index(1, vpn))
  {
    assert EntryOk(ts, pos, root, Index(2, vpn));
    var m := Down(ts, root, Index(2, vpn)).page;
    assert EntryOk(ts, pos, m, Index(1, vpn));
  }

  /** A page without a mapping has the entry 0. */
  lemma NotMapped(ts: Tables, pos: Places, root: nat, vpn: nat)
    requires TreeOk(ts, pos) && root in pos && pos[root].Root? && vpn < VPAGES
    ensures !Lookup(ts, root, vpn).Valid() ==> Lookup(ts, root, vpn) == NoPte()
  {
    if LeafTable(ts, root, vpn).To? {
      LeafTablePos(ts, pos, root, vpn);
      assert EntryOk(ts, pos, LeafTable(ts, root, vpn).page, Index(0, vpn));
    }
  }

  // ----- the tables a range of pages takes

  /** The places of the tables that lead to a page, below the root. */
  function PathOf(root: nat, vpn: nat): (r: set<Pos>)
    requires vpn < VPAGES
  {
    {Mid(root, Index(2, vpn)), Leaf(root, Index(2, vpn), Index(1, vpn))}
  }

  /** The places of the tables that lead to pages [lo, hi). */
  ghost function TablesFor(root: nat, lo: nat, hi: nat): (r: set<Pos>)
    requires lo < hi ==> hi <= VPAGES
    decreases hi
  {
    if hi <= lo then {} else TablesFor(root, lo, hi - 1) + PathOf(root, hi - 1)
  }

  /** How many of them there are not yet, when tables hang at `have`. */
  ghost function TableNeed(have: set<Pos>, root: nat, lo: nat, hi: nat): (n: nat)
    requires lo < hi ==> hi <= VPAGES
  {
    |TablesFor(root, lo, hi) - have|
  }

  lemma TableNeedStep(have: set<Pos>, root: nat, lo: nat, a: nat)
    requires lo <= a < VPAGES
    ensures TableNeed(have, root, lo, a + 1)
            == TableNeed(have, root, lo, a) + |PathOf(root, a) - (have + TablesFor(root, lo, a))|
  {
    var t, p := TablesFor(root, lo, a), PathOf(root, a);
    assert (t + p) - have == (t - have) + (p - (have + t));
  }

  lemma {:induction false} TableNeedGrows(have: set<Pos>, root: nat, lo: nat, a: nat, hi: nat)
    requires lo <= a <= hi && (lo < hi ==> hi <= VPAGES)
    ensures TableNeed(have, root, lo, a) <= TableNeed(have, root, lo, hi)
    decreases hi
  {
    if a < hi {
      TableNeedGrows(have, root, lo, a, hi - 1);
      TableNeedStep(have, root, lo, hi - 1);
    }
  }

  /** An entry above the last level is in use exactly when a table hangs from it. */
  lemma ChildIff(ts: Tables, pos: Places, t: nat, i: nat)
    requires TreeOk(ts, pos) && t in ts && !pos[t].Leaf? && i < ENTRIES
    ensures ts[t][i].Valid() <==> ChildPos(pos, t, i) in pos.Values
  {
    assert EntryOk(ts, pos, t, i);
    if ts[t][i].Valid() {
      assert pos[ts[t][i].ppn] == ChildPos(pos, t, i);
    }
    if ChildPos(pos, t, i) in pos.Values {
      var u :| u in pos && pos[u] == ChildPos(pos, t, i);
      assert Hangs(ts, pos, u) && Hangs(ts, pos, t);
    }
  }

  /** A last-level table hangs below a middle one. */
  lemma LeafNeedsMid(ts: Tables, pos: Places, root: nat, vpn: nat)
    requires TreeOk(ts, pos) && vpn < VPAGES
    requires Leaf(root, Index(2, vpn), Index(1, vpn)) in pos.Values
    ensures Mid(root, Index(2, vpn)) in pos.Values
  {
    var u :| u in pos && pos[u] == Leaf(root, Index(2, vpn), Index(1, vpn));
    assert Hangs(ts, pos, u);
    assert pos[Down(ts, root, Index(2, vpn)).page] == Mid(root, Index(2, vpn));
  }

  // ----- the edits of the tree

  function SetEntry(ts: Tables, t: nat, i: nat, p: Pte): (r: Tables)
    requires t in ts && i < ENTRIES
  {
    ts[t := ts[t][i := p]]
  }

  /** walk hangs a new empty table under entry i of t. */
  function Grown(ts: Tables, t: nat, i: nat, n: nat): (r: Tables)
    requires t in ts && i < ENTRIES
  {
    SetEntry(ts, t, i, Pte(n, {V}))[n := EmptyTable()]
  }

  function ChildPos(pos: Places, t: nat, i: nat): (p: Pos)
    requires t in pos && !pos[t].Leaf?
  {
    if pos[t].Root? then Mid(t, i) else Leaf(pos[t].root, pos[t].i2, i)
  }

  lemma GrownTree(ts: Tables, pos: Places, t: nat, i: nat, n: nat)
    requires TreeOk(ts, pos) && t in ts && i < ENTRIES && !pos[t].Leaf? && !ts[t][i].Valid() && n !in ts
    requires pos[t].Root? ==> i < TOP
    ensures TreeOk(Grown(ts, t, i, n), pos[n := ChildPos(pos, t, i)])
  {
    var ts', pos' := Grown(ts, t, i, n), pos[n := ChildPos(pos, t, i)];
    forall u, k | u in ts' && 0 <= k < ENTRIES
      ensures EntryOk(ts', pos', u, k)
    {
      assert u in ts ==> EntryOk(ts, pos, u, k);
    }
    forall u | u in ts'
      ensures Hangs(ts', pos', u)
    {
      assert u in ts ==> Hangs(ts, pos, u);
      assert Hangs(ts, pos, t);
    }
  }

  /** Hanging an empty table changes no translation. */
  lemma GrownLookup(ts: Tables, pos: Places, t: nat, i: nat, n: nat, root: nat, vpn: nat)
    requires TreeOk(ts, pos) && t in ts && i < ENTRIES && !pos[t].Leaf? && !ts[t][i].Valid() && n !in ts
    requires root in pos && pos[root].Root? && vpn < VPAGES
    ensures Lookup(Grown(ts, t, i, n), root, vpn) == Lookup(ts, root, vpn)
  {
    assert EntryOk(ts, pos, root, Index(2, vpn));
    if Down(ts, root, Index(2, vpn)).To? {
      var m := Down(ts, root, Index(2, vpn)).page;
      assert EntryOk(ts, pos, m, Index(1, vpn));
    }
  }

  /** Writing a last-level entry moves exactly the page it belongs to. */
  lemma LeafWrite(ts: Tables, pos: Places, t: nat, i: nat, p: Pte)
    requires TreeOk(ts, pos) && t in ts && i < ENTRIES && pos[t].Leaf? && (p.Valid() || p == NoPte())
    ensures TreeOk(SetEntry(ts, t, i, p), pos)
  {
    var ts' := SetEntry(ts, t, i, p);
    forall u, k | u in ts' && 0 <= k < ENTRIES
      ensures EntryOk(ts', pos, u, k)
    {
      assert EntryOk(ts, pos, u, k);
    }
    forall u | u in ts'
      ensures Hangs(ts', pos, u)
    {
      assert Hangs(ts, pos, u);
    }
  }

  lemma LeafWriteLookup(ts: Tables, pos: Places, root: nat, vpn: nat, p: Pte, r: nat, v: nat)
    requires TreeOk(ts, pos) && root in pos && pos[root].Root? && r in pos && pos[r].Root?
    requires vpn < VPAGES && v < VPAGES && LeafTable(ts, root, vpn).To?
    ensures LeafTable(ts, root, vpn).page in ts
    ensures var ts' := SetEntry(ts, LeafTable(ts, root, vpn).page, Index(0, vpn), p);
            && LeafTable(ts', r, v) == LeafTable(ts, r, v)
            && Lookup(ts', r, v) == if r == root && v == vpn then p else Lookup(ts, r, v)
  {
    LeafTablePos(ts, pos, root, vpn);
    assert EntryOk(ts, pos, r, Index(2, v));
    if Down(ts, r, Index(2, v)).To? {
      var m := Down(ts, r, Index(2, v)).page;
      assert EntryOk(ts, pos, m, Index(1, v));
      if LeafTable(ts, r, v).To? {
        LeafTablePos(ts, pos, r, v);
        if LeafTable(ts, r, v) == LeafTable(ts, root, vpn) && Index(0, v) == Index(0, vpn) {
          IndexInjective(v, vpn);
        }
      }
    }
  }
}
