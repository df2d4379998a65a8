/** The driver's side and the device's side of the virtio descriptor rings, as values. */
module VirtioRing {
  const NUM: nat := 8
  const WRAP: nat := 0x1_0000          // avail and used counters are 16 bits wide

  /** What a descriptor points to. */
  datatype Addr = Null | Header(write: bool, sector: nat) | Data(b: nat) | StatusOf(i: nat)
  datatype Desc = Desc(addr: Addr, len: nat, devWrites: bool, hasNext: bool, next: nat)
  datatype Info = Info(b: nat, status: int)

  /** How far a request has got: posted by the driver, taken by the device, put on the used
      ring by the device, seen there by the interrupt handler. */
  datatype Stage = Posted | Taken | Done | Seen
  datatype Req = Req(b: nat, write: bool, sector: nat, i1: nat, i2: nat, stage: Stage)

  datatype Ring = Ring(
    free: seq<bool>, desc: seq<Desc>, info: seq<Info>,
    avail: seq<nat>, availIdx: nat, devIdx: nat,    // devIdx: how far the device has looked in avail
    elems: seq<nat>, usedId: nat, usedIdx: nat,
    busy: set<nat>,                                 // the buffers b with b->disk == 1
    reqs: map<nat, Req>,                            // requests whose descriptors are in use, by first descriptor
    posted: seq<nat>, taken: nat,                   // all requests ever posted, and how many the device has taken
    done: seq<nat>, seen: nat)                      // all completions, and how many the handler has seen

  predicate Shape(v: Ring) {
    && |v.free| == NUM && |v.desc| == NUM && |v.info| == NUM && |v.avail| == NUM && |v.elems| == NUM
    && v.taken <= |v.posted| && v.seen <= |v.done|
  }

  predicate InChain(v: Ring, h: nat, i: nat)
    requires h in v.reqs
  {
    i == h || i == v.reqs[h].i1 || i == v.reqs[h].i2
  }

  /** A request's three descriptors say what it is. */
  predicate ChainOk(v: Ring, h: nat)
    requires Shape(v) && h in v.reqs
  {
    var r := v.reqs[h];
    && h < NUM && r.i1 < NUM && r.i2 < NUM && h != r.i1 && h != r.i2 && r.i1 != r.i2
    && v.desc[h] == Desc(Header(r.write, r.sector), 16, false, true, r.i1)
    && v.desc[r.i1] == Desc(Data(r.b), 1024, !r.write, true, r.i2)
    && v.desc[r.i2] == Desc(StatusOf(h), 1, true, false, 0)
    && v.info[h].b == r.b && (r.stage.Posted? || r.stage.Taken? ==> v.info[h].status == 0)
    && (r.b in v.busy <==> !r.stage.Seen?)
  }

  predicate Apart(v: Ring, h: nat, g: nat)
    requires h in v.reqs && g in v.reqs
  {
    h != g ==>
      && v.reqs[h].b != v.reqs[g].b
      && !InChain(v, h, g) && !InChain(v, h, v.reqs[g].i1) && !InChain(v, h, v.reqs[g].i2)
  }

  /** A descriptor is free or belongs to a request, and not both. */
  ghost predicate Placed(v: Ring, i: nat)
    requires Shape(v) && i < NUM
  {
    v.free[i] <==> forall h: nat :: h in v.reqs ==> !InChain(v, h, i)
  }

  ghost predicate AvailOk(v: Ring, k: nat)
    requires Shape(v) && k < |v.posted|
  {
    v.taken <= k ==> v.posted[k] in v.reqs && v.reqs[v.posted[k]].stage.Posted? && v.avail[k % NUM] == v.posted[k]
  }

  ghost predicate UsedOk(v: Ring, k: nat)
    requires Shape(v) && k < |v.done|
  {
    v.seen <= k ==> v.done[k] in v.reqs && v.reqs[v.done[k]].stage.Done? && v.elems[k % NUM] == v.done[k]
  }

  /** A posted request waits in the avail ring, a done one in the used ring, once. */
  ghost predicate Queued(v: Ring)
    requires Shape(v)
  {
    && (forall k: nat :: k < |v.posted| ==> AvailOk(v, k))
    && (forall k: nat :: k < |v.done| ==> UsedOk(v, k))
    && (forall j: nat, k: nat :: v.taken <= j < k < |v.posted| ==> v.posted[j] != v.posted[k])
    && (forall j: nat, k: nat :: v.seen <= j < k < |v.done| ==> v.done[j] != v.done[k])
    && (forall h: nat :: h in v.reqs && v.reqs[h].stage.Posted? ==> h in v.posted[v.taken..])
    && (forall h: nat :: h in v.reqs && v.reqs[h].stage.Done? ==> h in v.done[v.seen..])
  }

  predicate Counters(v: Ring) {
    && v.availIdx == |v.posted| % WRAP && v.devIdx == v.taken % WRAP
    && v.usedId == |v.done| % WRAP && v.usedIdx == v.seen % NUM
  }

  ghost predicate Ok(v: Ring) {
    && Shape(v) && Counters(v) && Queued(v)
    && (forall h: nat :: h in v.reqs ==> ChainOk(v, h))
    && (forall h: nat, g: nat :: h in v.reqs && g in v.reqs ==> Apart(v, h, g))
    && (forall i: nat :: i < NUM ==> Placed(v, i))
  }

  // ----- two chains at most

  lemma BoundedSet(s: set<nat>, n: nat)
    requires forall x :: x in s ==> x < n
    ensures |s| <= n
    decreases n
  {
    if n == 0 {
      assert s == {};
    } else {
      var t := s - {n - 1};
      BoundedSet(t, n - 1);
      assert |s| <= |t| + 1 by { assert s <= t + {n - 1}; Sub(s, t + {n - 1}); }
    }
  }

  lemma Sub(s: set<nat>, t: set<nat>)
    requires s <= t
    ensures |s| <= |t|
    decreases t
  {
    if s != {} {
      var x :| x in s;
      Sub(s - {x}, t - {x});
    }
  }

  ghost function Chain(v: Ring, h: nat): (s: set<nat>)
    requires h in v.reqs
  {
    {h, v.reqs[h].i1, v.reqs[h].i2}
  }

  /** Three chains would need nine descriptors. */
  lemma NoThree(v: Ring, a: nat, b: nat, c: nat)
    requires Ok(v) && a in v.reqs && b in v.reqs && c in v.reqs
    ensures a == b || a == c || b == c
  {
    hide Ok;
    if a != b && a != c && b != c {
      ThreeElements(v, a);
      ThreeElements(v, b);
      ThreeElements(v, c);
      Disjoint(v, a, b);
      Disjoint(v, a, c);
      Disjoint(v, b, c);
      NotNine(Chain(v, a), Chain(v, b), Chain(v, c));
    }
  }

  lemma ThreeElements(v: Ring, h: nat)
    requires Ok(v) && h in v.reqs
    ensures |Chain(v, h)| == 3 && forall x :: x in Chain(v, h) ==> x < NUM
  {
    assert ChainOk(v, h);
    hide Ok;
    ThreeOf(h, v.reqs[h].i1, v.reqs[h].i2);
  }

  lemma ThreeOf(a: nat, b: nat, c: nat)
    requires a != b && a != c && b != c
    ensures |{a, b, c}| == 3
  {
  }

  lemma Disjoint(v: Ring, h: nat, g: nat)
    requires Ok(v) && h in v.reqs && g in v.reqs && h != g
    ensures Chain(v, h) !! Chain(v, g)
  {
    assert Apart(v, h, g);
    var r, q := v.reqs[h], v.reqs[g];
    hide Ok;
    SixOf(h, r.i1, r.i2, g, q.i1, q.i2);
  }

  lemma SixOf(a: nat, b: nat, c: nat, d: nat, e: nat, f: nat)
    requires d !in {a, b, c} && e !in {a, b, c} && f !in {a, b, c}
    ensures {a, b, c} !! {d, e, f}
  {
  }

  lemma NotNine(s: set<nat>, t: set<nat>, u: set<nat>)
    requires |s| == 3 && |t| == 3 && |u| == 3 && s !! t && s !! u && t !! u
    ensures exists x :: x in s + t + u && x >= NUM
  {
    if forall x :: x in s + t + u ==> x < NUM {
      BoundedSet(s + t + u, NUM);
    }
  }

  lemma AtMostTwoInFlight(v: Ring)
    requires Ok(v)
    ensures |v.reqs| <= 2
  {
    if |v.reqs| > 2 {
      var a :| a in v.reqs.Keys;
      assert |v.reqs.Keys - {a}| > 1;
      var b :| b in v.reqs.Keys - {a};
      assert |v.reqs.Keys - {a} - {b}| > 0;
      var c :| c in v.reqs.Keys - {a} - {b};
      NoThree(v, a, b, c);
    }
  }

  lemma FewPending(v: Ring)
    requires Ok(v)
    ensures |v.posted| - v.taken <= 2 && |v.done| - v.seen <= 2
  {
    if |v.posted| - v.taken > 2 {
      var t := v.taken;
      assert AvailOk(v, t) && AvailOk(v, t + 1) && AvailOk(v, t + 2);
      NoThree(v, v.posted[t], v.posted[t + 1], v.posted[t + 2]);
    }
    if |v.done| - v.seen > 2 {
      var t := v.seen;
      assert UsedOk(v, t) && UsedOk(v, t + 1) && UsedOk(v, t + 2);
      NoThree(v, v.done[t], v.done[t + 1], v.done[t + 2]);
    }
  }

  /** The handler's test, and the device's, are exact in spite of the counters' wrapping. */
  lemma TestsExact(v: Ring)
    requires Ok(v)
    ensures v.usedIdx % NUM == v.usedId % NUM <==> v.seen == |v.done|
    ensures v.devIdx == v.availIdx <==> v.taken == |v.posted|
    ensures v.availIdx % NUM == |v.posted| % NUM && v.usedId % NUM == |v.done| % NUM
    ensures v.devIdx % NUM == v.taken % NUM
  {
    FewPending(v);
    ModMod(|v.posted|);
    ModMod(|v.done|);
    ModMod(v.taken);
    Close(v.seen, |v.done|);
    Close(v.taken, |v.posted|);
  }

  lemma ModMod(n: nat)
    ensures n % WRAP % NUM == n % NUM
  {
  }

  lemma NextCount(n: nat)
    ensures (n % WRAP + 1) % WRAP == (n + 1) % WRAP
  {
    var q, r := n / WRAP, n % WRAP;
    assert n + 1 == WRAP * q + (r + 1);
    if r + 1 == WRAP {
      assert n + 1 == WRAP * (q + 1);
    }
  }

  lemma NextSlot(n: nat)
    ensures (n % NUM + 1) % NUM == (n + 1) % NUM
  {
  }

  lemma Close(a: nat, b: nat)
    requires a <= b <= a + 2
    ensures a % NUM == b % NUM <==> a == b
    ensures a % WRAP == b % WRAP <==> a == b
  {
  }

  // ----- the steps

  /** virtio_disk_rw has formatted three free descriptors and told the device. */
  function Post(v: Ring, b: nat, write: bool, sector: nat, i0: nat, i1: nat, i2: nat): (v': Ring)
    requires Shape(v) && i0 < NUM && i1 < NUM && i2 < NUM
  {
    v.(free := v.free[i0 := false][i1 := false][i2 := false],
       desc := v.desc[i0 := Desc(Header(write, sector), 16, false, true, i1)]
                     [i1 := Desc(Data(b), 1024, !write, true, i2)]
                     [i2 := Desc(StatusOf(i0), 1, true, false, 0)],
       info := v.info[i0 := Info(b, 0)], busy := v.busy + {b},
       avail := v.avail[v.availIdx % NUM := i0], availIdx := (v.availIdx + 1) % WRAP,
       reqs := v.reqs[i0 := Req(b, write, sector, i1, i2, Posted)], posted := v.posted + [i0])
  }

  /** The device takes the next request off the avail ring. */
  function Fetch(v: Ring, h: nat): (v': Ring)
    requires h in v.reqs
  {
    v.(devIdx := (v.devIdx + 1) % WRAP, taken := v.taken + 1, reqs := v.reqs[h := v.reqs[h].(stage := Taken)])
  }

  /** The device completes any request it has taken, with a status. */
  function Complete(v: Ring, h: nat, status: int): (v': Ring)
    requires Shape(v) && h in v.reqs && h < NUM
  {
    v.(elems := v.elems[v.usedId % NUM := h], usedId := (v.usedId + 1) % WRAP, done := v.done + [h],
       info := v.info[h := v.info[h].(status := status)], reqs := v.reqs[h := v.reqs[h].(stage := Done)])
  }

  /** One turn of virtio_disk_intr's loop. */
  function See(v: Ring, h: nat): (v': Ring)
    requires Shape(v) && h in v.reqs && h < NUM
  {
    v.(busy := v.busy - {v.info[h].b}, usedIdx := (v.usedIdx + 1) % NUM, seen := v.seen + 1,
       reqs := v.reqs[h := v.reqs[h].(stage := Seen)])
  }

  function Blank(d: Desc): (d': Desc) { d.(addr := Null) }

  /** virtio_disk_rw, woken, gives its descriptors back. */
  function Release(v: Ring, h: nat): (v': Ring)
    requires Shape(v) && h in v.reqs && h < NUM && v.reqs[h].i1 < NUM && v.reqs[h].i2 < NUM
  {
    var r := v.reqs[h];
    v.(free := v.free[h := true][r.i1 := true][r.i2 := true],
       desc := v.desc[h := Blank(v.desc[h])][r.i1 := Blank(v.desc[r.i1])][r.i2 := Blank(v.desc[r.i2])],
       info := v.info[h := v.info[h].(b := 0)], reqs := v.reqs - {h})
  }

  /** None of three descriptors belongs to request h. */
  predicate Unused(v: Ring, h: nat, i0: nat, i1: nat, i2: nat)
    requires h in v.reqs
  {
    !InChain(v, h, i0) && !InChain(v, h, i1) && !InChain(v, h, i2)
  }

  lemma PostChain(v: Ring, b: nat, write: bool, sector: nat, i0: nat, i1: nat, i2: nat, h: nat)
    requires Shape(v) && i0 < NUM && i1 < NUM && i2 < NUM && i0 != i1 && i0 != i2 && i1 != i2
    requires h != i0 ==> h in v.reqs && ChainOk(v, h) && Unused(v, h, i0, i1, i2) && v.reqs[h].b != b
    ensures ChainOk(Post(v, b, write, sector, i0, i1, i2), h)
  {
  }

  lemma PostApart(v: Ring, b: nat, write: bool, sector: nat, i0: nat, i1: nat, i2: nat, h: nat, g: nat)
    requires Shape(v) && i0 < NUM && i1 < NUM && i2 < NUM
    requires h != i0 ==> h in v.reqs && Unused(v, h, i0, i1, i2) && v.reqs[h].b != b
    requires g != i0 ==> g in v.reqs && Unused(v, g, i0, i1, i2) && v.reqs[g].b != b
    requires h != i0 && g != i0 ==> Apart(v, h, g)
    ensures Apart(Post(v, b, write, sector, i0, i1, i2), h, g)
  {
  }

  lemma PostPlaced(v: Ring, b: nat, write: bool, sector: nat, i0: nat, i1: nat, i2: nat, i: nat)
    requires Shape(v) && i0 < NUM && i1 < NUM && i2 < NUM && i < NUM && i0 !in v.reqs && Placed(v, i)
    ensures Placed(Post(v, b, write, sector, i0, i1, i2), i)
  {
    var v' := Post(v, b, write, sector, i0, i1, i2);
    assert InChain(v', i0, i) <==> i == i0 || i == i1 || i == i2;
    assert forall h: nat :: h in v.reqs ==> (InChain(v', h, i) <==> InChain(v, h, i));
  }

  lemma PostCounters(v: Ring, b: nat, write: bool, sector: nat, i0: nat, i1: nat, i2: nat)
    requires Shape(v) && Counters(v) && i0 < NUM && i1 < NUM && i2 < NUM
    ensures Counters(Post(v, b, write, sector, i0, i1, i2))
  {
    NextCount(|v.posted|);
  }

  lemma PostOk(v: Ring, b: nat, write: bool, sector: nat, i0: nat, i1: nat, i2: nat)
    requires Ok(v) && i0 < NUM && i1 < NUM && i2 < NUM && i0 != i1 && i0 != i2 && i1 != i2
    requires v.free[i0] && v.free[i1] && v.free[i2] && forall h: nat :: h in v.reqs ==> v.reqs[h].b != b
    ensures Ok(Post(v, b, write, sector, i0, i1, i2))
  {
    var v' := Post(v, b, write, sector, i0, i1, i2);
    assert Placed(v, i0) && Placed(v, i1) && Placed(v, i2);
    TestsExact(v);
    FewPending(v);
    assert i0 !in v.reqs;
    hide ChainOk, Apart, Queued, Counters;
    PostCounters(v, b, write, sector, i0, i1, i2);
    PostQueued(v, v', i0);
    assert forall h: nat :: h in v.reqs ==> Unused(v, h, i0, i1, i2);
    hide ChainOk, Apart, Placed, Queued, InChain, Counters, Post;
    forall h: nat | h in v'.reqs
      ensures ChainOk(v', h)
    {
      PostChain(v, b, write, sector, i0, i1, i2, h);
    }
    forall h: nat, g: nat | h in v'.reqs && g in v'.reqs
      ensures Apart(v', h, g)
    {
      PostApart(v, b, write, sector, i0, i1, i2, h, g);
    }
    forall i: nat | i < NUM
      ensures Placed(v', i)
    {
      PostPlaced(v, b, write, sector, i0, i1, i2, i);
    }
  }

  lemma PostQueued(v: Ring, v': Ring, i0: nat)
    requires Shape(v) && Queued(v) && i0 < NUM && i0 !in v.reqs && |v.posted| - v.taken <= 2
    requires v.availIdx % NUM == |v.posted| % NUM
    requires v'.posted == v.posted + [i0] && v'.taken == v.taken && v'.done == v.done && v'.seen == v.seen
    requires Shape(v') && v'.avail == v.avail[v.availIdx % NUM := i0] && v'.elems == v.elems
    requires i0 in v'.reqs && v'.reqs[i0].stage.Posted? && v'.reqs - {i0} == v.reqs
    ensures Queued(v')
  {
    forall k: nat | k < |v'.posted|
      ensures AvailOk(v', k)
    {
      if k < |v.posted| {
        assert AvailOk(v, k);
        Close(k, if v.taken <= k then |v.posted| else k);
      }
    }
    forall k: nat | k < |v'.done|
      ensures UsedOk(v', k)
    {
      assert UsedOk(v, k);
    }
    forall j: nat, k: nat | v'.taken <= j < k < |v'.posted|
      ensures v'.posted[j] != v'.posted[k]
    {
      assert AvailOk(v, j);
    }
    assert v'.posted[v'.taken..] == v.posted[v.taken..] + [i0];
  }

  // ----- steps that only move a request on

  /** Stages, statuses and busy flags aside, requests and descriptors are as they were. */
  predicate SameChains(v: Ring, v': Ring)
    requires Shape(v) && Shape(v')
  {
    && v'.free == v.free && v'.desc == v.desc && v'.reqs.Keys == v.reqs.Keys
    && forall h: nat :: h in v.reqs ==> v'.reqs[h] == v.reqs[h].(stage := v'.reqs[h].stage)
  }

  lemma SameChainsOk(v: Ring, v': Ring)
    requires Ok(v) && Shape(v') && SameChains(v, v') && Counters(v') && Queued(v')
    requires forall h: nat :: h in v.reqs ==> ChainOk(v, h) ==> ChainOk(v', h)
    ensures Ok(v')
  {
    forall h: nat, g: nat | h in v'.reqs && g in v'.reqs
      ensures Apart(v', h, g)
    {
      assert Apart(v, h, g);
    }
    forall i: nat | i < NUM
      ensures Placed(v', i)
    {
      assert Placed(v, i);
      assert forall h: nat :: h in v.reqs ==> (InChain(v', h, i) <==> InChain(v, h, i));
    }
  }

  /** The head that the device finds. */
  lemma NextPosted(v: Ring)
    requires Ok(v) && v.taken < |v.posted|
    ensures var h := v.avail[v.devIdx % NUM];
            h == v.posted[v.taken] && h in v.reqs && h < NUM && v.reqs[h].stage.Posted?
  {
    TestsExact(v);
    assert AvailOk(v, v.taken);
    assert ChainOk(v, v.posted[v.taken]);
  }

  lemma Parts(v: Ring)
    requires Ok(v)
    ensures Shape(v) && Counters(v) && Queued(v)
  {
  }

  lemma FetchOk(v: Ring)
    requires Ok(v) && v.taken < |v.posted|
    ensures v.avail[v.devIdx % NUM] in v.reqs && Ok(Fetch(v, v.avail[v.devIdx % NUM]))
  {
    hide Ok, Queued, ChainOk;
    Parts(v);
    NextPosted(v);
    NextCount(v.taken);
    var h := v.posted[v.taken];
    FetchQueued(v, h);
    forall g: nat | g in v.reqs
      ensures ChainOk(v, g) ==> ChainOk(Fetch(v, h), g)
    {
      FetchChain(v, h, g);
    }
    SameChainsOk(v, Fetch(v, h));
  }

  lemma FetchChain(v: Ring, h: nat, g: nat)
    requires Shape(v) && v.taken < |v.posted| && h in v.reqs && g in v.reqs && v.reqs[h].stage.Posted?
    ensures ChainOk(v, g) ==> ChainOk(Fetch(v, h), g)
  {
  }

  lemma FetchQueued(v: Ring, h: nat)
    requires Shape(v) && Queued(v) && v.taken < |v.posted| && h == v.posted[v.taken] && h in v.reqs
    requires v.reqs[h].stage.Posted?
    ensures Shape(Fetch(v, h)) && Queued(Fetch(v, h))
  {
    var v' := Fetch(v, h);
    forall k: nat | k < |v'.posted|
      ensures AvailOk(v', k)
    {
      assert AvailOk(v, k);
    }
    forall k: nat | k < |v'.done|
      ensures UsedOk(v', k)
    {
      assert UsedOk(v, k);
    }
    assert v.posted[v.taken..] == [h] + v'.posted[v'.taken..];
  }

  lemma CompleteOk(v: Ring, h: nat, status: int)
    requires Ok(v) && h in v.reqs && v.reqs[h].stage.Taken?
    ensures h < NUM && Ok(Complete(v, h, status))
  {
    InRange(v, h);
    hide Ok, Queued, ChainOk, Counters, SameChains;
    Parts(v);
    TestsExact(v);
    FewPending(v);
    CompleteMoves(v, h, status);
    CompleteQueued(v, h, status);
    forall g: nat | g in v.reqs
      ensures ChainOk(v, g) ==> ChainOk(Complete(v, h, status), g)
    {
      CompleteChain(v, h, status, g);
    }
    SameChainsOk(v, Complete(v, h, status));
  }

  lemma CompleteMoves(v: Ring, h: nat, status: int)
    requires Shape(v) && Counters(v) && h in v.reqs && h < NUM
    ensures var v' := Complete(v, h, status); Shape(v') && Counters(v') && SameChains(v, v')
  {
    NextCount(|v.done|);
  }

  lemma InRange(v: Ring, h: nat)
    requires Ok(v) && h in v.reqs
    ensures h < NUM && v.reqs[h].i1 < NUM && v.reqs[h].i2 < NUM
  {
    assert ChainOk(v, h);
  }

  lemma CompleteChain(v: Ring, h: nat, status: int, g: nat)
    requires Shape(v) && h in v.reqs && g in v.reqs && v.reqs[h].stage.Taken? && h < NUM
    ensures Shape(Complete(v, h, status)) && (ChainOk(v, g) ==> ChainOk(Complete(v, h, status), g))
  {
  }

  lemma CompleteQueued(v: Ring, h: nat, status: int)
    requires Shape(v) && Queued(v) && h in v.reqs && v.reqs[h].stage.Taken? && h < NUM
    requires |v.done| - v.seen <= 2 && v.usedId % NUM == |v.done| % NUM
    ensures Shape(Complete(v, h, status)) && Queued(Complete(v, h, status))
  {
    var v' := Complete(v, h, status);
    forall k: nat | k < |v'.posted|
      ensures AvailOk(v', k)
    {
      assert AvailOk(v, k);
    }
    forall k: nat | k < |v'.done|
      ensures UsedOk(v', k)
    {
      if k < |v.done| {
        assert UsedOk(v, k);
        Close(k, if v.seen <= k then |v.done| else k);
      }
    }
    forall j: nat, k: nat | v'.seen <= j < k < |v'.done|
      ensures v'.done[j] != v'.done[k]
    {
      assert UsedOk(v, j);
    }
    assert v'.done[v'.seen..] == v.done[v.seen..] + [h];
  }

  /** The completion that the handler finds is that of a request whose buffer is waiting. */
  lemma NextDone(v: Ring)
    requires Ok(v) && v.seen < |v.done|
    ensures v.usedIdx < NUM
    ensures var h := v.elems[v.usedIdx];
            h == v.done[v.seen] && h in v.reqs && h < NUM && v.reqs[h].stage.Done?
            && v.info[h].b == v.reqs[h].b && v.reqs[h].b in v.busy
  {
    TestsExact(v);
    assert UsedOk(v, v.seen);
    assert ChainOk(v, v.done[v.seen]);
  }

  lemma SeeOk(v: Ring)
    requires Ok(v) && v.seen < |v.done|
    ensures v.usedIdx < NUM && v.elems[v.usedIdx] in v.reqs && v.elems[v.usedIdx] < NUM && Ok(See(v, v.elems[v.usedIdx]))
  {
    hide Ok, Queued, ChainOk, Apart;
    Parts(v);
    NextDone(v);
    NextSlot(v.seen);
    var h := v.done[v.seen];
    SeeQueued(v, h);
    forall g: nat | g in v.reqs
      ensures ChainOk(v, g) ==> ChainOk(See(v, h), g)
    {
      BothApart(v, h, g);
      SeeChain(v, h, g);
    }
    SameChainsOk(v, See(v, h));
  }

  lemma BothApart(v: Ring, h: nat, g: nat)
    requires Ok(v) && h in v.reqs && g in v.reqs
    ensures Apart(v, h, g) && Apart(v, g, h)
  {
  }

  lemma SeeChain(v: Ring, h: nat, g: nat)
    requires Shape(v) && v.seen < |v.done| && h in v.reqs && g in v.reqs && h < NUM && Apart(v, h, g)
    requires v.info[h].b == v.reqs[h].b && v.reqs[h].stage.Done?
    ensures Shape(See(v, h)) && (ChainOk(v, g) ==> ChainOk(See(v, h), g))
  {
  }

  lemma SeeQueued(v: Ring, h: nat)
    requires Shape(v) && Queued(v) && v.seen < |v.done| && h == v.done[v.seen] && h in v.reqs && h < NUM
    requires v.reqs[h].stage.Done?
    ensures Shape(See(v, h)) && Queued(See(v, h))
  {
    var v' := See(v, h);
    forall k: nat | k < |v'.posted|
      ensures AvailOk(v', k)
    {
      assert AvailOk(v, k);
    }
    forall k: nat | k < |v'.done|
      ensures UsedOk(v', k)
    {
      assert UsedOk(v, k);
    }
    assert v.done[v.seen..] == [h] + v'.done[v'.seen..];
  }

  // ----- giving descriptors back

  lemma ReleaseOk(v: Ring, h: nat)
    requires Ok(v) && h in v.reqs && v.reqs[h].stage.Seen?
    ensures h < NUM && v.reqs[h].i1 < NUM && v.reqs[h].i2 < NUM && Ok(Release(v, h))
  {
    InRange(v, h);
    assert ChainOk(v, h);
    hide Queued, ChainOk, Apart, Placed, Counters, InChain;
    var v' := Release(v, h);
    assert Shape(v') && Counters(v') by { Unmoved(v, v'); }
    ReleaseQueued(v, h);
    forall g: nat | g in v'.reqs
      ensures ChainOk(v', g)
    {
      assert ChainOk(v, g) && Apart(v, h, g);
      ReleaseChain(v, h, g);
    }
    forall f: nat, g: nat | f in v'.reqs && g in v'.reqs
      ensures Apart(v', f, g)
    {
      assert Apart(v, f, g);
      ReleaseApart(v, h, f, g);
    }
    forall i: nat | i < NUM
      ensures Placed(v', i)
    {
      ReleasePlaced(v, h, i);
    }
  }

  lemma Unmoved(v: Ring, v': Ring)
    requires Counters(v)
    requires v'.availIdx == v.availIdx && v'.devIdx == v.devIdx && v'.usedId == v.usedId && v'.usedIdx == v.usedIdx
    requires v'.posted == v.posted && v'.taken == v.taken && v'.done == v.done && v'.seen == v.seen
    ensures Counters(v')
  {
  }

  lemma ReleaseChain(v: Ring, h: nat, g: nat)
    requires Shape(v) && h in v.reqs && g in v.reqs && g != h && ChainOk(v, h) && ChainOk(v, g) && Apart(v, h, g)
    ensures Shape(Release(v, h)) && ChainOk(Release(v, h), g)
  {
  }

  lemma ReleaseApart(v: Ring, h: nat, f: nat, g: nat)
    requires Shape(v) && h in v.reqs && ChainOk(v, h) && f in v.reqs && g in v.reqs && f != h && g != h && Apart(v, f, g)
    ensures Apart(Release(v, h), f, g)
  {
  }

  lemma ReleasePlaced(v: Ring, h: nat, i: nat)
    requires Shape(v) && h in v.reqs && ChainOk(v, h) && i < NUM && Placed(v, i)
    requires forall g: nat :: g in v.reqs ==> Apart(v, h, g)
    ensures Placed(Release(v, h), i)
  {
    var v' := Release(v, h);
    forall g: nat | g in v'.reqs
      ensures InChain(v', g, i) <==> InChain(v, g, i)
      ensures InChain(v, h, i) ==> !InChain(v, g, i)
    {
      assert Apart(v, h, g);
    }
    assert v'.free[i] == (v.free[i] || InChain(v, h, i));
  }

  lemma ReleaseQueued(v: Ring, h: nat)
    requires Shape(v) && Queued(v) && h in v.reqs && v.reqs[h].stage.Seen? && ChainOk(v, h)
    ensures Shape(Release(v, h)) && Queued(Release(v, h))
  {
    var v' := Release(v, h);
    forall k: nat | k < |v'.posted|
      ensures AvailOk(v', k)
    {
      assert AvailOk(v, k);
    }
    forall k: nat | k < |v'.done|
      ensures UsedOk(v', k)
    {
      assert UsedOk(v, k);
    }
  }
}
