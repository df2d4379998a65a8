/** The virtio disk driver, with the device as a second set of methods that may be called
    at any time and in any order. */
module Virtio {
  import opened Common
  import opened VirtioRing

  const BLOCK_SECTORS: nat := 2            // BSIZE / 512

  /** Descriptors differ at most where they are free. */
  predicate FreeDescs(v: Ring, desc: seq<Desc>)
    requires Shape(v) && |desc| == NUM
  {
    forall i: nat :: i < NUM && !v.free[i] ==> desc[i] == v.desc[i]
  }

  /** What free descriptors hold does not matter. */
  lemma FreeDescsOk(v: Ring, desc: seq<Desc>)
    requires Ok(v) && |desc| == NUM && FreeDescs(v, desc)
    ensures Ok(v.(desc := desc))
  {
    var v' := v.(desc := desc);
    hide Queued, Counters, ChainOk, Apart, Placed;
    SameQueued(v, v');
    forall h: nat | h in v.reqs
      ensures ChainOk(v', h)
    {
      ChainNotFree(v, h);
      ChainKept(v, desc, h);
    }
    forall h: nat, g: nat | h in v'.reqs && g in v'.reqs
      ensures Apart(v', h, g)
    {
      assert Apart(v, h, g);
      ApartKept(v, desc, h, g);
    }
    forall i: nat | i < NUM
      ensures Placed(v', i)
    {
      assert Placed(v, i);
      PlacedKept(v, desc, i);
    }
  }

  lemma ChainNotFree(v: Ring, h: nat)
    requires Ok(v) && h in v.reqs
    ensures ChainOk(v, h) && !v.free[h] && !v.free[v.reqs[h].i1] && !v.free[v.reqs[h].i2]
  {
    assert ChainOk(v, h);
    assert Placed(v, h) && Placed(v, v.reqs[h].i1) && Placed(v, v.reqs[h].i2);
    assert InChain(v, h, h) && InChain(v, h, v.reqs[h].i1) && InChain(v, h, v.reqs[h].i2);
  }

  lemma ChainKept(v: Ring, desc: seq<Desc>, h: nat)
    requires Shape(v) && |desc| == NUM && FreeDescs(v, desc) && h in v.reqs && ChainOk(v, h)
    requires !v.free[h] && !v.free[v.reqs[h].i1] && !v.free[v.reqs[h].i2]
    ensures ChainOk(v.(desc := desc), h)
  {
  }

  lemma ApartKept(v: Ring, desc: seq<Desc>, h: nat, g: nat)
    requires h in v.reqs && g in v.reqs && Apart(v, h, g)
    ensures Apart(v.(desc := desc), h, g)
  {
  }

  lemma PlacedKept(v: Ring, desc: seq<Desc>, i: nat)
    requires Shape(v) && |desc| == NUM && i < NUM && Placed(v, i)
    ensures Placed(v.(desc := desc), i)
  {
    assert forall h: nat :: h in v.reqs ==> (InChain(v.(desc := desc), h, i) <==> InChain(v, h, i));
  }

  predicate SameQueue(v: Ring, v': Ring) {
    && v'.availIdx == v.availIdx && v'.devIdx == v.devIdx && v'.usedId == v.usedId && v'.usedIdx == v.usedIdx
    && v'.posted == v.posted && v'.taken == v.taken && v'.done == v.done && v'.seen == v.seen
    && v'.reqs == v.reqs && v'.avail == v.avail && v'.elems == v.elems
  }

  lemma SameQueued(v: Ring, v': Ring)
    requires Shape(v) && Shape(v') && SameQueue(v, v') && Queued(v) && Counters(v)
    ensures Queued(v') && Counters(v')
  {
    forall k: nat | k < |v'.posted|
      ensures AvailOk(v', k)
    {
      assert AvailOk(v, k);
    }
    forall k: nat | k < |v'.done|
      ensures UsedOk(v', k)
    {
      assert UsedOk(v, k);
    }
  }

  /** free without the descriptors of idx. */
  function Without(free: seq<bool>, idx: seq<nat>): (r: seq<bool>)
    requires forall k :: 0 <= k < |idx| ==> idx[k] < |free|
    ensures |r| == |free|
  {
    if idx == [] then free else Without(free, idx[..|idx| - 1])[idx[|idx| - 1] := false]
  }

  /** idx are different descriptors that were free. */
  predicate Picked(free: seq<bool>, idx: seq<nat>) {
    && (forall k :: 0 <= k < |idx| ==> idx[k] < |free| && free[idx[k]])
    && forall j, k :: 0 <= j < k < |idx| ==> idx[j] != idx[k]
  }

  lemma {:induction false} WithoutAt(free: seq<bool>, idx: seq<nat>, i: nat)
    requires Picked(free, idx) && i < |free|
    ensures Without(free, idx)[i] == (free[i] && i !in idx)
    decreases |idx|
  {
    if idx != [] {
      var rest := idx[..|idx| - 1];
      assert idx == rest + [idx[|idx| - 1]];
      WithoutAt(free, rest, i);
    }
  }

  /** At least three descriptors are free. */
  ghost predicate ThreeFree(free: seq<bool>) {
    exists idx: seq<nat> :: |idx| == 3 && Picked(free, idx)
  }

  lemma NotThree(free: seq<bool>, idx: seq<nat>)
    requires Picked(free, idx) && |idx| < 3 && forall i: nat :: i < |free| ==> !Without(free, idx)[i]
    ensures !ThreeFree(free)
  {
    if ThreeFree(free) {
      var p: seq<nat> :| |p| == 3 && Picked(free, p);
      WithoutAt(free, idx, p[0]);
      WithoutAt(free, idx, p[1]);
      WithoutAt(free, idx, p[2]);
    }
  }

  // ----- three descriptors are free exactly while fewer than two requests are in flight

  /** The first number from i on that is none of three. */
  function NextOutside(i: nat, a: nat, b: nat, c: nat): (r: nat)
    ensures i <= r <= i + 3 && r !in {a, b, c}
    ensures (r > i ==> i in {a, b, c}) && (r > i + 1 ==> i + 1 in {a, b, c}) && (r > i + 2 ==> i + 2 in {a, b, c})
  {
    var s := {a, b, c};
    if i !in s then i else if i + 1 !in s then i + 1 else if i + 2 !in s then i + 2 else i + 3
  }

  lemma PickOutside(a: nat, b: nat, c: nat) returns (idx: seq<nat>)
    ensures |idx| == 3 && (forall k :: 0 <= k < 3 ==> idx[k] < NUM && idx[k] !in {a, b, c})
    ensures idx[0] != idx[1] && idx[0] != idx[2] && idx[1] != idx[2]
  {
    var i := NextOutside(0, a, b, c);
    var j := NextOutside(i + 1, a, b, c);
    var k := NextOutside(j + 1, a, b, c);
    idx := [i, j, k];
  }

  lemma RoomForOne(v: Ring)
    requires Ok(v) && |v.reqs| < 2
    ensures ThreeFree(v.free)
  {
    var h :| v.reqs.Keys == {} || v.reqs.Keys == {h} by {
      if v.reqs.Keys != {} {
        var g :| g in v.reqs.Keys;
        assert |v.reqs.Keys - {g}| == |v.reqs.Keys| - 1;
        assert v.reqs.Keys - {g} == {};
        assert v.reqs.Keys == {g};
      }
    }
    var a, b, c := NUM, NUM, NUM;
    if h in v.reqs {
      a, b, c := h, v.reqs[h].i1, v.reqs[h].i2;
    }
    var idx := PickOutside(a, b, c);
    forall k | 0 <= k < 3
      ensures v.free[idx[k]]
    {
      assert Placed(v, idx[k]);
      assert h in v.reqs ==> !InChain(v, h, idx[k]);
    }
    hide Ok;
    assert Picked(v.free, idx);
  }

  lemma NoRoomForThree(v: Ring)
    requires Ok(v) && ThreeFree(v.free)
    ensures |v.reqs| < 2
  {
    hide Ok;
    if |v.reqs| >= 2 {
      var idx: seq<nat> :| |idx| == 3 && Picked(v.free, idx);
      var h, g := TwoOf(v.reqs.Keys);
      ThreeElements(v, h);
      ThreeElements(v, g);
      Disjoint(v, h, g);
      FreeOutside(v, idx, h);
      FreeOutside(v, idx, g);
      var s := {idx[0], idx[1], idx[2]};
      FreeInRange(v, idx);
      hide *;
      NotNine(Chain(v, h), Chain(v, g), s);
    }
  }

  lemma TwoOf(s: set<nat>) returns (h: nat, g: nat)
    requires |s| >= 2
    ensures h in s && g in s && h != g
  {
    h :| h in s;
    assert |s - {h}| >= 1;
    g :| g in s - {h};
  }

  lemma FreeInRange(v: Ring, idx: seq<nat>)
    requires Ok(v) && |idx| == 3 && Picked(v.free, idx)
    ensures var s := {idx[0], idx[1], idx[2]}; |s| == 3 && forall x :: x in s ==> x < NUM
  {
    hide Queued, ChainOk, Apart, Placed, Counters;
    ThreeOf(idx[0], idx[1], idx[2]);
  }

  lemma FreeOutside(v: Ring, idx: seq<nat>, h: nat)
    requires Ok(v) && |idx| == 3 && Picked(v.free, idx) && h in v.reqs
    ensures Chain(v, h) !! {idx[0], idx[1], idx[2]}
  {
    FreeNotIn(v, idx[0], h);
    FreeNotIn(v, idx[1], h);
    FreeNotIn(v, idx[2], h);
    hide *;
    var r := v.reqs[h];
    SixOf(h, r.i1, r.i2, idx[0], idx[1], idx[2]);
    assert Chain(v, h) == {h, r.i1, r.i2} by { ChainIs(v, h); }
  }

  lemma ChainIs(v: Ring, h: nat)
    requires h in v.reqs
    ensures Chain(v, h) == {h, v.reqs[h].i1, v.reqs[h].i2}
  {
  }

  lemma FreeNotIn(v: Ring, i: nat, h: nat)
    requires Ok(v) && i < NUM && v.free[i] && h in v.reqs
    ensures i !in {h, v.reqs[h].i1, v.reqs[h].i2}
  {
    assert Placed(v, i);
    hide Ok;
    assert !InChain(v, h, i);
  }

  lemma RoomIff(v: Ring)
    requires Ok(v)
    ensures ThreeFree(v.free) <==> |v.reqs| < 2
  {
    if ThreeFree(v.free) {
      NoRoomForThree(v);
    }
    if |v.reqs| < 2 {
      RoomForOne(v);
    }
  }

  // ----- the completions the handler works through

  /** The requests after completions v.seen, ..., n - 1 have been seen. */
  ghost function Advanced(v: Ring, n: nat): (r: map<nat, Req>)
    requires v.seen <= n <= |v.done|
  {
    map h | h in v.reqs :: if h in v.done[v.seen..n] then v.reqs[h].(stage := Seen) else v.reqs[h]
  }

  ghost function Calmed(v: Ring, n: nat): (s: set<nat>)
    requires v.seen <= n <= |v.done|
  {
    set b | b in v.busy && forall h: nat :: h in v.reqs && h in v.done[v.seen..n] ==> v.reqs[h].b != b
  }

  ghost function SeenTo(v: Ring, n: nat): (v': Ring)
    requires v.seen <= n <= |v.done|
  {
    v.(reqs := Advanced(v, n), busy := Calmed(v, n), seen := n, usedIdx := n % NUM)
  }

  lemma SeenStart(v: Ring)
    requires Ok(v)
    ensures SeenTo(v, v.seen) == v
  {
    assert v.done[v.seen..v.seen] == [];
    assert Advanced(v, v.seen) == v.reqs;
    assert Calmed(v, v.seen) == v.busy;
  }

  lemma SeenMore(v: Ring, n: nat)
    requires Ok(v) && v.seen <= n < |v.done| && Ok(SeenTo(v, n))
    ensures var w := SeenTo(v, n);
            w.usedIdx < NUM && w.elems[w.usedIdx] == v.done[n] && v.done[n] in w.reqs && v.done[n] < NUM
            && See(w, v.done[n]) == SeenTo(v, n + 1)
            && w.info[v.done[n]].b == v.reqs[v.done[n]].b
  {
    hide Ok, Advanced, Calmed;
    var w := SeenTo(v, n);
    NextDone(w);
    NextSlot(n);
    var h := v.done[n];
    AdvanceAt(v, n, h);
    AdvanceMore(v, n);
    CalmMore(v, n);
  }

  lemma AdvanceAt(v: Ring, n: nat, h: nat)
    requires v.seen <= n <= |v.done| && h in Advanced(v, n)
    ensures h in v.reqs && Advanced(v, n)[h].b == v.reqs[h].b
  {
  }

  lemma AdvanceMore(v: Ring, n: nat)
    requires v.seen <= n < |v.done| && v.done[n] in v.reqs
    ensures v.done[n] in Advanced(v, n)
    ensures Advanced(v, n + 1) == Advanced(v, n)[v.done[n] := Advanced(v, n)[v.done[n]].(stage := Seen)]
  {
    var d, d' := v.done[v.seen..n], v.done[v.seen..n + 1];
    assert d' == d + [v.done[n]];
    assert forall g: nat :: g in d' <==> g in d || g == v.done[n];
  }

  lemma CalmMore(v: Ring, n: nat)
    requires v.seen <= n < |v.done| && v.done[n] in v.reqs
    ensures Calmed(v, n + 1) == Calmed(v, n) - {v.reqs[v.done[n]].b}
  {
    var d, d' := v.done[v.seen..n], v.done[v.seen..n + 1];
    assert d' == d + [v.done[n]];
    assert forall g: nat :: g in d' <==> g in d || g == v.done[n];
  }

  /** When all completions have been seen, the requests that were done are seen. */
  lemma SeenAll(v: Ring)
    requires Ok(v)
    ensures forall h: nat :: h in v.reqs ==>
              Advanced(v, |v.done|)[h] == if v.reqs[h].stage.Done? then v.reqs[h].(stage := Seen) else v.reqs[h]
    ensures forall b: nat :: b in Calmed(v, |v.done|) <==>
              b in v.busy && forall h: nat :: h in v.reqs && v.reqs[h].stage.Done? ==> v.reqs[h].b != b
  {
    OkShape(v);
    hide Ok;
    var d := v.done[v.seen..|v.done|];
    forall h: nat | h in v.reqs
      ensures v.reqs[h].stage.Done? <==> h in d
    {
      DoneIffQueued(v, h);
    }
  }

  lemma DoneIffQueued(v: Ring, h: nat)
    requires Ok(v) && h in v.reqs
    ensures v.reqs[h].stage.Done? <==> h in v.done[v.seen..|v.done|]
  {
    hide ChainOk, Apart, Placed, Counters;
    var d := v.done[v.seen..|v.done|];
    assert d == v.done[v.seen..];
    if h in d {
      var k :| 0 <= k < |d| && d[k] == h;
      assert UsedOk(v, v.seen + k);
    }
  }

  class Disk {
    const free: array<bool>
    const desc: array<Desc>
    const info: array<Info>
    const avail: array<nat>
    const elems: array<nat>
    var availIdx: nat
    var devIdx: nat
    var usedId: nat
    var usedIdx: nat
    var busy: set<nat>
    ghost var reqs: map<nat, Req>
    ghost var posted: seq<nat>
    ghost var taken: nat
    ghost var done: seq<nat>
    ghost var seen: nat

    ghost function View(): Ring
      reads this, free, desc, info, avail, elems
    {
      Ring(free[..], desc[..], info[..], avail[..], availIdx, devIdx, elems[..], usedId, usedIdx, busy,
           reqs, posted, taken, done, seen)
    }

    predicate Sizes() {
      && free.Length == NUM && desc.Length == NUM && info.Length == NUM && avail.Length == NUM && elems.Length == NUM
      && avail != elems
    }

    ghost predicate Valid()
      reads this, free, desc, info, avail, elems
    {
      Sizes() && Ok(View())
    }

    constructor ()
      ensures Valid() && reqs == map[] && busy == {}
      ensures fresh(free) && fresh(desc) && fresh(info) && fresh(avail) && fresh(elems)
    {
      free := new bool[NUM](_ => true);
      desc := new Desc[NUM](_ => Desc(Null, 0, false, false, 0));
      info := new Info[NUM](_ => Info(0, 0));
      avail := new nat[NUM](_ => 0);
      elems := new nat[NUM](_ => 0);
      availIdx, devIdx, usedId, usedIdx, busy := 0, 0, 0, 0, {};
      reqs, posted, taken, done, seen := map[], [], 0, [], 0;
    }

    /** alloc_desc: the first free descriptor, or -1. */
    method AllocDesc() returns (i: int)
      requires Sizes()
      modifies free
      ensures i == -1 ==> free[..] == old(free[..]) && forall k: nat :: k < NUM ==> !free[k]
      ensures i != -1 ==> 0 <= i < NUM && old(free[i]) && free[..] == old(free[..])[i := false]
      ensures i != -1 ==> forall k: nat :: k < i ==> !old(free[k])
    {
      i := 0;
      while i < NUM
        invariant 0 <= i <= NUM && free[..] == old(free[..])
        invariant forall k: nat :: k < i ==> !free[k]
      {
        if free[i] {
          free[i] := false;
          return;
        }
        i := i + 1;
      }
      i := -1;
    }

    /** free_desc: panics on a descriptor out of range or already free. */
    method FreeDesc(i: nat) returns (ok: bool)
      requires Sizes()
      modifies free, desc
      ensures ok <==> i < NUM && !old(free[..])[i]
      ensures ok ==> free[..] == old(free[..])[i := true] && desc[..] == old(desc[..])[i := Blank(old(desc[..])[i])]
      ensures !ok ==> free[..] == old(free[..]) && desc[..] == old(desc[..])
    {
      if i >= NUM || free[i] {
        return false;
      }
      desc[i] := desc[i].(addr := Null);
      free[i] := true;
      return true;
    }

    /** alloc3_desc: three free descriptors, or none taken at all. */
    method Alloc3() returns (ok: bool, idx: seq<nat>)
      requires Sizes()
      modifies free, desc
      ensures ok <==> ThreeFree(old(free[..]))
      ensures ok ==> |idx| == 3 && Picked(old(free[..]), idx) && free[..] == Without(old(free[..]), idx)
                     && desc[..] == old(desc[..])
      ensures !ok ==> free[..] == old(free[..])
      ensures forall i: nat :: i < NUM && !old(free[i]) ==> desc[i] == old(desc[i])
    {
      ghost var free0 := free[..];
      idx := [];
      while |idx| < 3
        invariant |idx| <= 3 && Picked(free0, idx) && free[..] == Without(free0, idx) && desc[..] == old(desc[..])
        decreases 3 - |idx|
      {
        var i := AllocDesc();
        if i < 0 {
          assert forall k: nat :: k < NUM ==> !free[..][k];
          NotThree(free0, idx);
          Rollback(free0, idx);
          return false, [];
        }
        WithoutAt(free0, idx, i);
        assert (idx + [i])[..|idx|] == idx;
        idx := idx + [i];
      }
      ok := true;
    }

    /** The inner loop of alloc3_desc. */
    method Rollback(ghost free0: seq<bool>, idx: seq<nat>)
      requires Sizes() && |free0| == NUM && Picked(free0, idx) && free[..] == Without(free0, idx)
      modifies free, desc
      ensures free[..] == free0
      ensures forall i: nat :: i < NUM && !free0[i] ==> desc[i] == old(desc[i])
    {
      var j := 0;
      ghost var f := free[..];
      while j < |idx|
        invariant 0 <= j <= |idx|
        invariant forall i: nat :: i < NUM ==> free[i] == (f[i] || i in idx[..j])
        invariant forall i: nat :: i < NUM && !free0[i] ==> desc[i] == old(desc[i])
      {
        WithoutAt(free0, idx, idx[j]);
        assert idx[..j + 1] == idx[..j] + [idx[j]];
        var ok := FreeDesc(idx[j]);
        assert ok by { assert idx[j] !in idx[..j]; }
        j := j + 1;
      }
      forall i: nat | i < NUM
        ensures free[i] == free0[i]
      {
        WithoutAt(free0, idx, i);
        assert idx[..|idx|] == idx;
      }
    }

    /** virtio_disk_rw up to its wait for the device; false when it has to sleep for
        descriptors.  That is so exactly when two requests are in flight. */
    method Submit(b: nat, write: bool, blockno: nat) returns (ok: bool, h: nat)
      requires Valid() && forall g: nat :: g in reqs ==> reqs[g].b != b
      modifies this, free, desc, info, avail
      ensures Valid() && (ok <==> |old(reqs)| < 2)
      ensures !ok ==> reqs == old(reqs) && busy == old(busy) && posted == old(posted) && done == old(done)
      ensures ok ==>
                && h !in old(reqs) && h in reqs && reqs == old(reqs)[h := reqs[h]]
                && reqs[h] == Req(b, write, blockno * BLOCK_SECTORS % UINT_MOD, reqs[h].i1, reqs[h].i2, Posted)
                && busy == old(busy) + {b} && posted == old(posted) + [h] && done == old(done)
    {
      hide Ok, ThreeFree, Picked, Without, FreeDescs;
      ghost var v := View();
      OkShape(v);
      RoomIff(v);
      var idx;
      ok, idx := Alloc3();
      if !ok {
        OnlyFreeDescs(v, desc[..]);
        FreeDescsOk(v, desc[..]);
        assert View() == v.(desc := desc[..]);
        return false, 0;
      }
      h := idx[0];
      Announce(b, write, blockno * BLOCK_SECTORS % UINT_MOD, idx, v);
    }

    /** The second half of Submit, with the descriptors in hand. */
    method Announce(b: nat, write: bool, sector: nat, idx: seq<nat>, ghost v: Ring)
      requires Sizes() && Ok(v) && View() == v.(free := free[..]) && forall g: nat :: g in v.reqs ==> v.reqs[g].b != b
      requires |idx| == 3 && Picked(v.free, idx) && free[..] == Without(v.free, idx)
      modifies this, desc, info, avail
      ensures Valid() && idx[0] !in v.reqs && reqs == v.reqs[idx[0] := Req(b, write, sector, idx[1], idx[2], Posted)]
      ensures busy == v.busy + {b} && posted == v.posted + [idx[0]] && done == v.done
    {
      hide Ok, Picked, Without;
      OkShape(v);
      PickedFacts(v.free, idx);
      var h, i1, i2 := idx[0], idx[1], idx[2];
      PostOk(v, b, write, sector, h, i1, i2);
      PostFresh(v, h);
      Format(b, write, sector, h, i1, i2);
      busy := busy + {b};
      avail[availIdx % NUM] := h;
      availIdx := (availIdx + 1) % WRAP;
      reqs := reqs[h := Req(b, write, sector, i1, i2, Posted)];
      posted := posted + [h];
      assert View() == Post(v, b, write, sector, h, i1, i2);
    }

    /** The three descriptors of a request. */
    method Format(b: nat, write: bool, sector: nat, h: nat, i1: nat, i2: nat)
      requires Sizes() && h < NUM && i1 < NUM && i2 < NUM
      modifies desc, info
      ensures desc[..] == old(desc[..])[h := Desc(Header(write, sector), 16, false, true, i1)]
                                       [i1 := Desc(Data(b), 1024, !write, true, i2)]
                                       [i2 := Desc(StatusOf(h), 1, true, false, 0)]
      ensures info[..] == old(info[..])[h := Info(b, 0)]
    {
      desc[h] := Desc(Header(write, sector), 16, false, true, i1);
      desc[i1] := Desc(Data(b), 1024, !write, true, i2);
      info[h] := info[h].(status := 0);
      desc[i2] := Desc(StatusOf(h), 1, true, false, 0);
      info[h] := info[h].(b := b);
    }

    /** free_chain, on a request's descriptors: follows the links and frees all three. */
    method FreeChain(i: nat, ghost v: Ring)
      requires Sizes() && Shape(v) && free[..] == v.free && desc[..] == v.desc
      requires i in v.reqs && ChainOk(v, i) && !free[i] && v.reqs[i].i1 < NUM && !free[v.reqs[i].i1]
      requires v.reqs[i].i2 < NUM && !free[v.reqs[i].i2]
      modifies free, desc
      ensures free[..] == Release(v, i).free && desc[..] == Release(v, i).desc
    {
      ghost var a, b, c := i, v.reqs[i].i1, v.reqs[i].i2;
      var j := i;
      ghost var k := 0;
      while true
        invariant 0 <= k < 3 && j == (if k == 0 then a else if k == 1 then b else c)
        invariant free[..] == (if k == 0 then v.free else if k == 1 then v.free[a := true] else v.free[a := true][b := true])
        invariant desc[..] == (if k == 0 then v.desc else if k == 1 then v.desc[a := Blank(v.desc[a])]
                               else v.desc[a := Blank(v.desc[a])][b := Blank(v.desc[b])])
        decreases 3 - k
      {
        var ok := FreeDesc(j);
        if !desc[j].hasNext {
          assert k == 2;
          break;
        }
        assert k < 2;
        j := desc[j].next;
        k := k + 1;
      }
    }

    /** virtio_disk_rw after its wait: the request's buffer is not busy any more, and its
        descriptors are given back. */
    method Finish(h: nat)
      requires Valid() && h in reqs && reqs[h].b !in busy
      modifies this, free, desc, info
      ensures Valid() && reqs == old(reqs) - {h} && busy == old(busy) && posted == old(posted) && done == old(done)
      ensures h < NUM && info[h].b == 0
      ensures forall i: nat :: i < NUM ==> (free[i] <==> old(free[i]) || old(InChain(View(), h, i)))
    {
      ghost var v := View();
      ChainNotFree(v, h);
      hide Ok;
      ReleaseOk(v, h);
      info[h] := info[h].(b := 0);
      FreeChain(h, v);
      reqs := reqs - {h};
      assert View() == Release(v, h);
    }

    static predicate StatusOk(info: seq<Info>, h: nat) { h < |info| && info[h].status == 0 }

    /** virtio_disk_intr: it works through exactly the completions there are, and stops being
        busy exactly the buffers of the requests completed.  It panics exactly when one of
        them has a status other than 0, and then at the first such. */
    method Intr() returns (ok: bool)
      requires Valid()
      modifies this
      ensures Valid()
      ensures done == old(done) && posted == old(posted) && old(seen) <= seen <= |done|
      ensures ok <==> forall k: nat :: old(seen) <= k < |done| ==> StatusOk(info[..], done[k])
      ensures ok ==> seen == |done|
      ensures !ok ==> seen < |done| && !StatusOk(info[..], done[seen])
                      && forall k: nat :: old(seen) <= k < seen ==> StatusOk(info[..], done[k])
      ensures ok ==> reqs.Keys == old(reqs).Keys
      ensures ok ==> forall h: nat :: h in reqs ==>
                       reqs[h] == if old(reqs)[h].stage.Done? then old(reqs)[h].(stage := Seen) else old(reqs)[h]
      ensures ok ==> forall b: nat :: b in busy <==>
                       b in old(busy) && forall h: nat :: h in old(reqs) && old(reqs)[h].stage.Done? ==> old(reqs)[h].b != b
      ensures !ok ==> exists h: nat :: h in reqs && h < NUM && reqs[h].stage.Done? && info[h].status != 0
    {
      hide Ok, Advanced, Calmed;
      ghost var v := View();
      OkShape(v);
      SeenStart(v);
      while usedIdx % NUM != usedId % NUM
        invariant v.seen <= seen <= |v.done| && View() == SeenTo(v, seen) && Ok(View())
        invariant forall k: nat :: v.seen <= k < seen ==> StatusOk(v.info, v.done[k])
        decreases |done| - seen
      {
        ghost var w := View();
        TestsExact(w);
        NextDone(w);
        SeeOk(w);
        SeenMore(v, seen);
        var id := elems[usedIdx];
        if info[id].status != 0 {
          return false;
        }
        busy := busy - {info[id].b};
        usedIdx := (usedIdx + 1) % NUM;
        reqs := reqs[id := reqs[id].(stage := Seen)];
        seen := seen + 1;
        assert View() == See(w, id);
      }
      TestsExact(View());
      SeenAll(v);
      AdvancedKeys(v);
      ok := true;
    }

    // ----- the device

    /** The device looks for work; it misses none and invents none. */
    method DeviceFetch() returns (found: bool, h: nat)
      requires Valid()
      modifies this`devIdx, this`reqs, this`taken
      ensures Valid() && (found <==> old(taken) < |posted|)
      ensures found ==> h == posted[old(taken)] && taken == old(taken) + 1
                        && h in old(reqs) && reqs == old(reqs)[h := old(reqs)[h].(stage := Taken)]
      ensures !found ==> View() == old(View())
    {
      hide Ok;
      ghost var v := View();
      OkShape(v);
      TestsExact(v);
      found, h := devIdx != availIdx, 0;
      if found {
        NextPosted(v);
        FetchOk(v);
        h := avail[devIdx % NUM];
        devIdx := (devIdx + 1) % WRAP;
        taken := taken + 1;
        reqs := reqs[h := reqs[h].(stage := Taken)];
        assert View() == Fetch(v, h);
      }
    }

    /** What the device reads by following the descriptors from h is the request; it is told
        that it may write into the buffer exactly when it is to read the disk. */
    method DeviceRead(h: nat) returns (b: nat, write: bool, sector: nat, into: bool, statusAt: nat)
      requires Valid() && h in reqs
      ensures b == reqs[h].b && write == reqs[h].write && sector == reqs[h].sector && statusAt == h && h < NUM
      ensures into == !reqs[h].write
    {
      assert ChainOk(View(), h);
      var d0 := desc[h];
      var d1 := desc[d0.next];
      var d2 := desc[d1.next];
      return d1.addr.b, d0.addr.write, d0.addr.sector, d1.devWrites, d2.addr.i;
    }

    /** The device completes a request it has taken, whichever it likes. */
    method DeviceComplete(h: nat, status: int)
      requires Valid() && h in reqs && reqs[h].stage.Taken?
      modifies this`usedId, this`reqs, this`done, info, elems
      ensures Valid() && done == old(done) + [h] && reqs == old(reqs)[h := old(reqs)[h].(stage := Done)]
      ensures h < NUM && info[h].status == status
    {
      hide Ok;
      ghost var v := View();
      OkShape(v);
      CompleteOk(v, h, status);
      var b, write, sector, into, at := DeviceRead(h);
      info[at] := info[at].(status := status);
      elems[usedId % NUM] := h;
      usedId := (usedId + 1) % WRAP;
      reqs := reqs[h := reqs[h].(stage := Done)];
      done := done + [h];
      assert View() == Complete(v, h, status);
    }
  }

  lemma OkShape(v: Ring)
    requires Ok(v)
    ensures Shape(v)
  {
  }

  lemma OnlyFreeDescs(v: Ring, desc: seq<Desc>)
    requires Shape(v) && |desc| == NUM && forall i: nat :: i < NUM && !v.free[i] ==> desc[i] == v.desc[i]
    ensures FreeDescs(v, desc)
  {
  }

  lemma PickedFacts(free: seq<bool>, idx: seq<nat>)
    requires |idx| == 3 && Picked(free, idx) && |free| == NUM
    ensures idx[0] < NUM && idx[1] < NUM && idx[2] < NUM && free[idx[0]] && free[idx[1]] && free[idx[2]]
    ensures idx[0] != idx[1] && idx[0] != idx[2] && idx[1] != idx[2]
    ensures Without(free, idx) == free[idx[0] := false][idx[1] := false][idx[2] := false]
  {
    assert idx[..2] == [idx[0], idx[1]] && idx[..2][..1] == [idx[0]] && idx[..1][..0] == [];
    assert Without(free, []) == free;
    assert Without(free, [idx[0]]) == free[idx[0] := false];
    assert Without(free, idx[..2]) == free[idx[0] := false][idx[1] := false];
  }

  lemma PostFresh(v: Ring, h: nat)
    requires Ok(v) && h < NUM && v.free[h]
    ensures h !in v.reqs
  {
    if h in v.reqs {
      ChainNotFree(v, h);
    }
  }

  lemma AdvancedKeys(v: Ring)
    requires Shape(v)
    ensures Advanced(v, |v.done|).Keys == v.reqs.Keys
  {
  }
}
