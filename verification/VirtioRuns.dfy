/** The rings over whole runs: requests are posted and given back, the device fetches and
    completes, and the interrupt handler looks at one completion at a time, in any order
    and with anything in between. */
module VirtioRuns {
  import opened VirtioRing

  datatype Event =
    | DoPost(b: nat, write: bool, sector: nat, i0: nat, i1: nat, i2: nat)  // virtio_disk_rw up to its wait
    | DoFetch                                                             // the device takes the next request
    | DoComplete(h: nat, status: int)                                     // and completes one it has taken
    | DoSee                                                               // one turn of virtio_disk_intr's loop
    | DoRelease(h: nat)                                                   // virtio_disk_rw after its wait

  /** The state with the count of requests given back. */
  datatype Sys = Sys(v: Ring, released: nat)

  /** The tests of the code, on wrapped counters and ring slots; the device may complete
      any request it has taken, and a caller waits until its buffer is not busy. */
  ghost predicate Enabled(s: Sys, e: Event) {
    var v := s.v;
    Shape(v) &&
    match e
    case DoPost(b, _, _, i0, i1, i2) =>
      && i0 < NUM && i1 < NUM && i2 < NUM && i0 != i1 && i0 != i2 && i1 != i2
      && v.free[i0] && v.free[i1] && v.free[i2] && forall h: nat :: h in v.reqs ==> v.reqs[h].b != b
    case DoFetch => v.devIdx != v.availIdx
    case DoComplete(h, _) => h in v.reqs && v.reqs[h].stage.Taken?
    case DoSee => v.usedIdx % NUM != v.usedId % NUM && v.info[v.elems[v.usedIdx % NUM] % NUM].status == 0
    case DoRelease(h) => h in v.reqs && v.reqs[h].b !in v.busy
  }

  /** The head that a step is about, as the rings have it. */
  ghost function Head(s: Sys, e: Event): (h: nat)
    requires Enabled(s, e)
  {
    match e
    case DoFetch => s.v.avail[s.v.devIdx % NUM]
    case DoSee => s.v.elems[s.v.usedIdx % NUM]
    case DoPost(_, _, _, i0, _, _) => i0
    case DoComplete(h, _) => h
    case DoRelease(h) => h
  }

  /** Head is a request whose descriptors are in range. */
  ghost predicate Proper(v: Ring, h: nat) {
    h in v.reqs && h < NUM && v.reqs[h].i1 < NUM && v.reqs[h].i2 < NUM
  }

  /** The step; on a head that is not a request, which never happens, it does nothing. */
  ghost function Apply(s: Sys, e: Event): (s': Sys)
    requires Enabled(s, e)
  {
    var h := Head(s, e);
    match e
    case DoPost(b, write, sector, i0, i1, i2) => s.(v := Post(s.v, b, write, sector, i0, i1, i2))
    case DoFetch => if Proper(s.v, h) then s.(v := Fetch(s.v, h)) else s
    case DoComplete(_, status) => if Proper(s.v, h) then s.(v := Complete(s.v, h, status)) else s
    case DoSee => if Proper(s.v, h) then s.(v := See(s.v, h)) else s
    case DoRelease(_) => if Proper(s.v, h) then Sys(Release(s.v, h), s.released + 1) else s
  }

  lemma FreeIsNoHead(v: Ring, i: nat)
    requires Ok(v) && i < NUM && v.free[i]
    ensures i !in v.reqs
  {
    assert Placed(v, i);
    assert i in v.reqs ==> InChain(v, i, i);
  }

  lemma BusyUntilSeen(v: Ring, h: nat)
    requires Ok(v) && h in v.reqs
    ensures v.reqs[h].b in v.busy <==> !v.reqs[h].stage.Seen?
  {
    assert ChainOk(v, h);
  }

  /** What the tests come to while the rings are in order. */
  lemma EnabledMeans(s: Sys, e: Event)
    requires Ok(s.v) && Enabled(s, e)
    ensures e.DoFetch? ==> s.v.taken < |s.v.posted| && Head(s, e) == s.v.posted[s.v.taken]
    ensures e.DoFetch? ==> Head(s, e) in s.v.reqs && s.v.reqs[Head(s, e)].stage.Posted?
    ensures e.DoSee? ==> s.v.seen < |s.v.done| && Head(s, e) == s.v.done[s.v.seen] && s.v.usedIdx < NUM
    ensures e.DoSee? ==> Head(s, e) in s.v.reqs && s.v.reqs[Head(s, e)].stage.Done?
    ensures e.DoPost? ==> e.i0 !in s.v.reqs
    ensures e.DoRelease? ==> s.v.reqs[e.h].stage.Seen?
    ensures !e.DoPost? ==> Proper(s.v, Head(s, e))
  {
    hide Ok;
    var v := s.v;
    match e {
      case DoPost(_, _, _, i0, _, _) => FreeIsNoHead(v, i0);
      case DoFetch => FetchMeans(v);
      case DoComplete(h, _) => InRange(v, h);
      case DoSee => SeeMeans(v);
      case DoRelease(h) =>
        InRange(v, h);
        BusyUntilSeen(v, h);
    }
  }

  lemma FetchMeans(v: Ring)
    requires Ok(v) && v.devIdx != v.availIdx
    ensures var h := v.avail[v.devIdx % NUM];
            v.taken < |v.posted| && h == v.posted[v.taken] && Proper(v, h) && v.reqs[h].stage.Posted?
  {
    hide Ok;
    Parts(v);
    TestsExact(v);
    NextPosted(v);
    InRange(v, v.posted[v.taken]);
  }

  lemma SeeMeans(v: Ring)
    requires Ok(v) && v.usedIdx % NUM != v.usedId % NUM
    ensures v.usedIdx < NUM
    ensures var h := v.elems[v.usedIdx];
            v.seen < |v.done| && h == v.done[v.seen] && Proper(v, h) && v.reqs[h].stage.Done?
  {
    hide Ok;
    Parts(v);
    TestsExact(v);
    NextDone(v);
    InRange(v, v.done[v.seen]);
  }

  lemma StepOk(s: Sys, e: Event)
    requires Ok(s.v) && Enabled(s, e)
    ensures Ok(Apply(s, e).v)
  {
    hide Ok;
    EnabledMeans(s, e);
    match e
    case DoPost(b, write, sector, i0, i1, i2) => PostOk(s.v, b, write, sector, i0, i1, i2);
    case DoFetch => FetchOk(s.v);
    case DoComplete(h, status) => CompleteOk(s.v, h, status);
    case DoSee => SeeOk(s.v);
    case DoRelease(h) => ReleaseOk(s.v, h);
  }

  // ----- no request is lost or served twice

  /** The requests at a stage. */
  ghost function At(reqs: map<nat, Req>, g: Stage): (r: set<nat>) {
    set h | h in reqs && reqs[h].stage == g
  }

  /** Every request ever posted is at one stage or has been given back, and the histories
      are as long as the stages say. */
  ghost predicate Balanced(s: Sys) {
    var r := s.v.reqs;
    && |s.v.posted| == s.v.taken + |At(r, Posted)|
    && s.v.taken == |s.v.done| + |At(r, Taken)|
    && |s.v.done| == s.v.seen + |At(r, Done)|
    && s.v.seen == s.released + |At(r, Seen)|
  }

  lemma Advance(r: map<nat, Req>, h: nat, to: Stage)
    requires h in r && r[h].stage != to
    ensures var r' := r[h := r[h].(stage := to)];
            && |At(r', to)| == |At(r, to)| + 1 && |At(r', r[h].stage)| == |At(r, r[h].stage)| - 1
            && forall g :: g != to && g != r[h].stage ==> At(r', g) == At(r, g)
  {
    var r' := r[h := r[h].(stage := to)];
    assert At(r', to) == At(r, to) + {h};
    assert At(r', r[h].stage) == At(r, r[h].stage) - {h};
  }

  lemma Appear(r: map<nat, Req>, h: nat, q: Req)
    requires h !in r
    ensures |At(r[h := q], q.stage)| == |At(r, q.stage)| + 1
    ensures forall g :: g != q.stage ==> At(r[h := q], g) == At(r, g)
  {
    assert At(r[h := q], q.stage) == At(r, q.stage) + {h};
  }

  lemma Vanish(r: map<nat, Req>, h: nat)
    requires h in r
    ensures |At(r - {h}, r[h].stage)| == |At(r, r[h].stage)| - 1
    ensures forall g :: g != r[h].stage ==> At(r - {h}, g) == At(r, g)
  {
    assert At(r - {h}, r[h].stage) == At(r, r[h].stage) - {h};
  }

  lemma StepBalanced(s: Sys, e: Event)
    requires Ok(s.v) && Enabled(s, e) && Balanced(s)
    ensures Balanced(Apply(s, e))
  {
    hide Ok, At, Shape;
    EnabledMeans(s, e);
    var h := Head(s, e);
    match e
    case DoPost(b, write, sector, i0, i1, i2) => PostBalanced(s, Apply(s, e), i0, Req(b, write, sector, i1, i2, Posted));
    case DoFetch => MoveBalanced(s, Apply(s, e), h, Taken);
    case DoComplete(_, _) => MoveBalanced(s, Apply(s, e), h, Done);
    case DoSee => MoveBalanced(s, Apply(s, e), h, Seen);
    case DoRelease(_) => DropBalanced(s, Apply(s, e), h);
  }

  lemma PostBalanced(s: Sys, s': Sys, h: nat, q: Req)
    requires Balanced(s) && h !in s.v.reqs && q.stage.Posted? && s'.v.reqs == s.v.reqs[h := q]
    requires |s'.v.posted| == |s.v.posted| + 1 && s'.v.taken == s.v.taken && s'.v.done == s.v.done
    requires s'.v.seen == s.v.seen && s'.released == s.released
    ensures Balanced(s')
  {
    hide At;
    Appear(s.v.reqs, h, q);
  }

  /** A request goes on to the next stage, and the count of that stage with it. */
  lemma MoveBalanced(s: Sys, s': Sys, h: nat, to: Stage)
    requires Balanced(s) && h in s.v.reqs && s'.v.reqs == s.v.reqs[h := s.v.reqs[h].(stage := to)]
    requires !to.Posted? && s.v.reqs[h].stage == if to.Taken? then Posted else if to.Done? then Taken else Done
    requires s'.v.posted == s.v.posted && s'.released == s.released
    requires s'.v.taken == s.v.taken + (if to.Taken? then 1 else 0)
    requires |s'.v.done| == |s.v.done| + (if to.Done? then 1 else 0)
    requires s'.v.seen == s.v.seen + (if to.Seen? then 1 else 0)
    ensures Balanced(s')
  {
    hide At;
    Advance(s.v.reqs, h, to);
  }

  lemma DropBalanced(s: Sys, s': Sys, h: nat)
    requires Balanced(s) && h in s.v.reqs && s.v.reqs[h].stage.Seen? && s'.v.reqs == s.v.reqs - {h}
    requires s'.v.posted == s.v.posted && s'.v.taken == s.v.taken && s'.v.done == s.v.done && s'.v.seen == s.v.seen
    requires s'.released == s.released + 1
    ensures Balanced(s')
  {
    hide At;
    Vanish(s.v.reqs, h);
  }

  // ----- runs

  ghost predicate Init(s: Sys) {
    && Ok(s.v) && s.v.reqs == map[] && s.v.posted == [] && s.v.done == [] && s.released == 0 && s.v.busy == {}
  }

  ghost predicate Runs(s: Sys, es: seq<Event>)
    decreases |es|
  {
    es == [] || (Enabled(s, es[0]) && Runs(Apply(s, es[0]), es[1..]))
  }

  ghost function After(s: Sys, es: seq<Event>): (t: Sys)
    requires Runs(s, es)
    decreases |es|
  {
    if es == [] then s else After(Apply(s, es[0]), es[1..])
  }

  lemma {:induction false} RunKeeps(s: Sys, es: seq<Event>)
    requires Ok(s.v) && Balanced(s) && Runs(s, es)
    ensures Ok(After(s, es).v) && Balanced(After(s, es))
    decreases |es|
  {
    hide Ok, Balanced, Apply, Enabled;
    if es != [] {
      StepOk(s, es[0]);
      StepBalanced(s, es[0]);
      RunKeeps(Apply(s, es[0]), es[1..]);
    }
  }

  /** Whatever the order of the device's steps and the handler's, in every state of every
      run the rings are in order, at most two requests are in flight, and every request
      ever posted is waiting, with the device, completed, seen or given back: none is lost
      and none is completed or seen twice. */
  lemma NothingLost(s: Sys, es: seq<Event>)
    requires Init(s) && Runs(s, es)
    ensures var t := After(s, es);
            Ok(t.v) && |t.v.reqs| <= 2 && Balanced(t)
  {
    Parts(s.v);
    assert forall g :: At(s.v.reqs, g) == {};
    hide Ok;
    RunKeeps(s, es);
    AtMostTwoInFlight(After(s, es).v);
  }

  /** A turn of the handler in any state of a run ends the wait of exactly one request: the
      oldest completion not seen, whose buffer stops being busy; all other buffers and
      requests are as they were. */
  lemma HandlerServesOwner(s: Sys, es: seq<Event>)
    requires Init(s) && Runs(s, es) && Enabled(After(s, es), DoSee)
    ensures var t := After(s, es);
            var u := Apply(t, DoSee);
            && t.v.seen < |t.v.done|
            && var h := t.v.done[t.v.seen];
            && h in t.v.reqs && t.v.reqs[h].stage.Done? && t.v.reqs[h].b in t.v.busy
            && |t.v.info| == NUM && h < NUM && t.v.info[h].status == 0
            && u.v.busy == t.v.busy - {t.v.reqs[h].b}
            && u.v.reqs == t.v.reqs[h := t.v.reqs[h].(stage := Seen)]
            && forall g: nat :: g in t.v.reqs && g != h && !t.v.reqs[g].stage.Seen? ==> t.v.reqs[g].b in u.v.busy
  {
    hide Ok, Runs, After, Balanced;
    NothingLost(s, es);
    var t := After(s, es);
    EnabledMeans(t, DoSee);
    NextDone(t.v);
    var h := t.v.done[t.v.seen];
    forall g: nat | g in t.v.reqs && g != h && !t.v.reqs[g].stage.Seen?
      ensures t.v.reqs[g].b in t.v.busy && t.v.reqs[g].b != t.v.reqs[h].b
    {
      BusyUntilSeen(t.v, g);
      BothApart(t.v, g, h);
    }
  }

  // ----- what the device does with a request

  /** The outcome of a transfer: the disk by sectors, memory by buffers, and the status. */
  datatype Io<T> = Io(disk: map<nat, T>, mem: map<nat, T>, status: int)

  /** The device serves the request at descriptor h.  It goes by the descriptors alone: a
      header of 16 bytes that it may read, 1024 bytes of data that it must be allowed to
      write when it reads the disk and only then, and a status byte that it may write. */
  function Served<T>(v: Ring, h: nat, disk: map<nat, T>, mem: map<nat, T>): (io: Io<T>)
    requires Shape(v) && h < NUM
  {
    var d0 := v.desc[h];
    if !(d0.addr.Header? && d0.len == 16 && !d0.devWrites && d0.hasNext && d0.next < NUM) then Io(disk, mem, 1)
    else
      var d1 := v.desc[d0.next];
      if !(d1.addr.Data? && d1.len == 1024 && d1.devWrites == !d0.addr.write && d1.hasNext && d1.next < NUM) then
        Io(disk, mem, 1)
      else
        var d2 := v.desc[d1.next];
        var sector, b := d0.addr.sector, d1.addr.b;
        if !(d2.addr == StatusOf(h) && d2.len == 1 && d2.devWrites && !d2.hasNext) || sector !in disk || b !in mem then
          Io(disk, mem, 1)
        else if d0.addr.write then Io(disk[sector := mem[b]], mem, 0)
        else Io(disk, mem[b := disk[sector]], 0)
  }

  /** In every state of every run, serving any request in flight moves the data of that
      request's buffer to or from its sectors, as the caller asked, and moves nothing else. */
  lemma RequestsAreServed<T>(s: Sys, es: seq<Event>, h: nat, disk: map<nat, T>, mem: map<nat, T>)
    requires Init(s) && Runs(s, es) && h in After(s, es).v.reqs
    ensures var v := After(s, es).v;
            var r := v.reqs[h];
            && Shape(v) && h < NUM
            && (r.sector in disk && r.b in mem ==>
                  Served(v, h, disk, mem) ==
                  if r.write then Io(disk[r.sector := mem[r.b]], mem, 0) else Io(disk, mem[r.b := disk[r.sector]], 0))
  {
    hide Ok, Runs, After, Balanced;
    NothingLost(s, es);
    var v := After(s, es).v;
    Parts(v);
    ChainThere(v, h);
    hide Ok, Init;
  }

  lemma ChainThere(v: Ring, h: nat)
    requires Ok(v) && h in v.reqs
    ensures ChainOk(v, h)
  {
  }
}
