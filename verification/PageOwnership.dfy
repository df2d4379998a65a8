/** Physical pages: every page the allocator manages is on the free list, is a page-table
    page, or is a frame that somebody holds; a frame mapped for user access is mapped at
    exactly one place. */
module PageOwnership {
  import opened Common
  import opened PageTree

  type Frame = f: seq<Byte> | |f| == PGSIZE witness seq(PGSIZE, _ => 0)

  /** Held by the kernel, or owned by one entry of one page table. */
  datatype Place = Held | Mapped(root: nat, vpn: nat)

  datatype Mem = Mem(free: seq<nat>, ts: Tables, data: map<nat, Frame>, pos: Places, place: map<nat, Place>)

  predicate IsRoot(m: Mem, r: nat) { r in m.pos && m.pos[r].Root? }

  predicate OnFreeList(free: seq<nat>, p: nat) { p in free }

  ghost predicate Conserved(m: Mem, all: set<nat>) {
    && (forall i, j :: 0 <= i < j < |m.free| ==> m.free[i] != m.free[j])
    && m.data.Keys == m.place.Keys
    && (forall p <- m.ts.Keys :: p !in m.place && !OnFreeList(m.free, p))
    && (forall p <- m.place.Keys :: !OnFreeList(m.free, p))
    && (forall p: nat :: p in all <==> OnFreeList(m.free, p) || p in m.ts || p in m.place)
  }

  /** A frame with a place is mapped there. */
  ghost predicate PlacedAt(m: Mem, f: nat)
    requires f in m.place
  {
    m.place[f].Mapped? ==>
      && IsRoot(m, m.place[f].root) && m.place[f].vpn < VPAGES
      && var p := Lookup(m.ts, m.place[f].root, m.place[f].vpn);
      p.Valid() && p.ppn == f
  }

  /** A user page's frame belongs to that page alone. */
  ghost predicate UserOwned(m: Mem, r: nat, v: nat)
    requires v < VPAGES
  {
    var p := Lookup(m.ts, r, v);
    p.Valid() && U in p.flags ==> p.ppn in m.place && m.place[p.ppn] == Mapped(r, v)
  }

  ghost predicate Inv(m: Mem, all: set<nat>) {
    && TreeOk(m.ts, m.pos)
    && Conserved(m, all)
    && (forall f :: f in m.place ==> PlacedAt(m, f))
    && (forall r: nat, v: nat :: IsRoot(m, r) && v < VPAGES ==> UserOwned(m, r, v))
  }

  /** The same roots, translating the same pages in the same way. */
  ghost predicate SameMaps(m: Mem, m': Mem) {
    && (forall r: nat :: IsRoot(m, r) <==> IsRoot(m', r))
    && forall r: nat, v: nat :: IsRoot(m, r) && v < VPAGES ==> Lookup(m'.ts, r, v) == Lookup(m.ts, r, v)
  }

  // ----- allocation

  /** memset of one page. */
  function Junk(b: Byte): (f: Frame)
    ensures forall k :: 0 <= k < PGSIZE ==> f[k] == b
  {
    seq(PGSIZE, _ => b)
  }

  function Popped(m: Mem): (r: Mem)
    requires m.free != []
  {
    var p := m.free[0];
    m.(free := m.free[1..], data := m.data[p := Junk(5)], place := m.place[p := Held])
  }

  lemma PoppedInv(m: Mem, all: set<nat>)
    requires Inv(m, all) && m.free != []
    ensures Inv(Popped(m), all) && SameMaps(m, Popped(m)) && m.free[0] !in m.place && m.free[0] !in m.ts
  {
    var m' := Popped(m);
    assert OnFreeList(m.free, m.free[0]);
    forall p: nat
      ensures OnFreeList(m.free, p) <==> OnFreeList(m'.free, p) || p == m.free[0]
      ensures !(OnFreeList(m'.free, p) && p == m.free[0])
    {
      assert m.free == [m.free[0]] + m'.free;
    }
    forall f | f in m'.place
      ensures PlacedAt(m', f)
    {
      assert f in m.place ==> PlacedAt(m, f);
    }
    forall r: nat, v: nat | IsRoot(m', r) && v < VPAGES
      ensures UserOwned(m', r, v)
    {
      assert IsRoot(m, r) && UserOwned(m, r, v);
    }
  }

  function Pushed(m: Mem, p: nat): (r: Mem)
    requires p in m.place
  {
    m.(free := [p] + m.free, data := m.data - {p}, place := m.place - {p})
  }

  lemma PushedInv(m: Mem, all: set<nat>, p: nat)
    requires Inv(m, all) && p in m.place && m.place[p].Held?
    ensures Inv(Pushed(m, p), all) && SameMaps(m, Pushed(m, p))
  {
    var m' := Pushed(m, p);
    assert forall q: nat :: OnFreeList(m'.free, q) <==> OnFreeList(m.free, q) || q == p;
    forall f | f in m'.place
      ensures PlacedAt(m', f)
    {
      assert PlacedAt(m, f);
    }
    forall r: nat, v: nat | IsRoot(m', r) && v < VPAGES
      ensures UserOwned(m', r, v)
    {
      assert IsRoot(m, r) && UserOwned(m, r, v);
    }
  }

  // ----- tables

  /** A held page becomes an empty table under entry i of t. */
  function Hung(m: Mem, t: nat, i: nat, n: nat): (r: Mem)
    requires t in m.ts && t in m.pos && !m.pos[t].Leaf? && i < ENTRIES
  {
    m.(ts := Grown(m.ts, t, i, n), pos := m.pos[n := ChildPos(m.pos, t, i)],
       place := m.place - {n}, data := m.data - {n})
  }

  lemma HungInv(m: Mem, all: set<nat>, t: nat, i: nat, n: nat)
    requires Inv(m, all) && t in m.ts && !m.pos[t].Leaf? && i < ENTRIES && !m.ts[t][i].Valid()
    requires n in m.place && m.place[n].Held? && (m.pos[t].Root? ==> i < TOP)
    ensures Inv(Hung(m, t, i, n), all) && SameMaps(m, Hung(m, t, i, n))
  {
    var m' := Hung(m, t, i, n);
    GrownTree(m.ts, m.pos, t, i, n);
    forall r: nat, v: nat | IsRoot(m, r) && v < VPAGES
      ensures Lookup(m'.ts, r, v) == Lookup(m.ts, r, v)
    {
      GrownLookup(m.ts, m.pos, t, i, n, r, v);
    }
    HungRoots(m, t, i, n);
    hide TreeOk, Lookup, Grown;
    forall f | f in m'.place
      ensures PlacedAt(m', f)
    {
      assert PlacedAt(m, f);
    }
    forall r: nat, v: nat | IsRoot(m', r) && v < VPAGES
      ensures UserOwned(m', r, v)
    {
      assert UserOwned(m, r, v);
    }
  }

  lemma HungRoots(m: Mem, t: nat, i: nat, n: nat)
    requires t in m.ts && t in m.pos && !m.pos[t].Leaf? && i < ENTRIES && n !in m.ts && m.ts.Keys == m.pos.Keys
    ensures forall r: nat :: IsRoot(m, r) <==> IsRoot(Hung(m, t, i, n), r)
    ensures Hung(m, t, i, n).ts.Keys == m.ts.Keys + {n}
  {
  }

  // ----- mappings

  /** One page's translation becomes p, and nothing else moves. */
  ghost predicate OneMoved(m: Mem, m': Mem, root: nat, vpn: nat, p: Pte) {
    && (forall r: nat :: IsRoot(m, r) <==> IsRoot(m', r))
    && forall r: nat, v: nat :: IsRoot(m, r) && v < VPAGES ==>
         Lookup(m'.ts, r, v) == if r == root && v == vpn then p else Lookup(m.ts, r, v)
  }

  /** The last-level entry of vpn set to p; with `own`, the frame now belongs to it. */
  function Entered(m: Mem, root: nat, vpn: nat, p: Pte, own: bool): (r: Mem)
    requires vpn < VPAGES && LeafTable(m.ts, root, vpn).To? && LeafTable(m.ts, root, vpn).page in m.ts
  {
    m.(ts := SetEntry(m.ts, LeafTable(m.ts, root, vpn).page, Index(0, vpn), p),
       place := if own then m.place[p.ppn := Mapped(root, vpn)] else m.place)
  }

  lemma LeafWriteMoves(m: Mem, root: nat, vpn: nat, p: Pte, m': Mem)
    requires TreeOk(m.ts, m.pos) && IsRoot(m, root) && vpn < VPAGES && LeafTable(m.ts, root, vpn).To?
    requires m'.pos == m.pos && LeafTable(m.ts, root, vpn).page in m.ts && (p.Valid() || p == NoPte())
    requires m'.ts == SetEntry(m.ts, LeafTable(m.ts, root, vpn).page, Index(0, vpn), p)
    ensures TreeOk(m'.ts, m'.pos) && OneMoved(m, m', root, vpn, p)
  {
    LeafTablePos(m.ts, m.pos, root, vpn);
    LeafWrite(m.ts, m.pos, LeafTable(m.ts, root, vpn).page, Index(0, vpn), p);
    forall r: nat, v: nat | IsRoot(m, r) && v < VPAGES
      ensures Lookup(m'.ts, r, v) == if r == root && v == vpn then p else Lookup(m.ts, r, v)
    {
      LeafWriteLookup(m.ts, m.pos, root, vpn, p, r, v);
    }
  }

  lemma EnteredInv(m: Mem, all: set<nat>, root: nat, vpn: nat, p: Pte, own: bool)
    requires Inv(m, all) && IsRoot(m, root) && vpn < VPAGES && LeafTable(m.ts, root, vpn).To?
    requires !Lookup(m.ts, root, vpn).Valid() && p.Valid()
    requires own ==> p.ppn in m.place && m.place[p.ppn].Held?
    requires U in p.flags ==> own
    ensures LeafTable(m.ts, root, vpn).page in m.ts
    ensures Inv(Entered(m, root, vpn, p, own), all) && OneMoved(m, Entered(m, root, vpn, p, own), root, vpn, p)
  {
    LeafTablePos(m.ts, m.pos, root, vpn);
    hide TreeOk, Lookup, Conserved, PlacedAt, UserOwned;
    var m' := Entered(m, root, vpn, p, own);
    LeafWriteMoves(m, root, vpn, p, m');
    assert m'.ts.Keys == m.ts.Keys;
    EnteredOwned(m, m', all, root, vpn, p, own);
  }

  lemma EnteredOwned(m: Mem, m': Mem, all: set<nat>, root: nat, vpn: nat, p: Pte, own: bool)
    requires Inv(m, all) && IsRoot(m, root) && vpn < VPAGES && TreeOk(m'.ts, m'.pos) && m'.ts.Keys == m.ts.Keys
    requires OneMoved(m, m', root, vpn, p) && !Lookup(m.ts, root, vpn).Valid() && p.Valid()
    requires own ==> p.ppn in m.place && m.place[p.ppn].Held?
    requires U in p.flags ==> own
    requires m'.free == m.free && m'.data == m.data
    requires m'.place == if own then m.place[p.ppn := Mapped(root, vpn)] else m.place
    ensures Inv(m', all)
  {
    hide TreeOk, Lookup;
    forall f | f in m'.place
      ensures PlacedAt(m', f)
    {
      assert f in m.place && PlacedAt(m, f);
    }
    forall r: nat, v: nat | IsRoot(m', r) && v < VPAGES
      ensures UserOwned(m', r, v)
    {
      assert UserOwned(m, r, v);
    }
  }

  /** The entry of vpn cleared; a frame that belonged to it is held again. */
  function Erased(m: Mem, root: nat, vpn: nat): (r: Mem)
    requires vpn < VPAGES && LeafTable(m.ts, root, vpn).To? && LeafTable(m.ts, root, vpn).page in m.ts
  {
    var f := Lookup(m.ts, root, vpn).ppn;
    m.(ts := SetEntry(m.ts, LeafTable(m.ts, root, vpn).page, Index(0, vpn), NoPte()),
       place := if f in m.place && m.place[f] == Mapped(root, vpn) then m.place[f := Held] else m.place)
  }

  lemma ErasedInv(m: Mem, all: set<nat>, root: nat, vpn: nat)
    requires Inv(m, all) && IsRoot(m, root) && vpn < VPAGES && LeafTable(m.ts, root, vpn).To?
    ensures LeafTable(m.ts, root, vpn).page in m.ts
    ensures Inv(Erased(m, root, vpn), all) && OneMoved(m, Erased(m, root, vpn), root, vpn, NoPte())
  {
    LeafTablePos(m.ts, m.pos, root, vpn);
    var m' := Erased(m, root, vpn);
    LeafWriteMoves(m, root, vpn, NoPte(), m');
    assert m'.ts.Keys == m.ts.Keys;
    hide TreeOk, Lookup, SetEntry;
    forall f | f in m'.place
      ensures PlacedAt(m', f)
    {
      assert f in m.place && PlacedAt(m, f);
    }
    forall r: nat, v: nat | IsRoot(m', r) && v < VPAGES
      ensures UserOwned(m', r, v)
    {
      assert UserOwned(m, r, v);
    }
  }
}
