/** The runs of the block machine that the code can make.  A block that is not cached goes
    to the least recently used free buffer, and only the committing process asks for blocks
    of the log.

    A process keeps the buffer that bread gave it and goes on to use it without looking at
    its block number again.  As long as every count is right the buffer stays the block's;
    when a count is wrong it may not, and then log_write logs whatever block the buffer is
    for by then. */
module CodeRuns {
  import opened Common
  import opened RedoLog
  import opened LruList
  import opened BlockMachine
  import opened BlockLayer
  import LA = LogAdmission

  /** The machine, the order in which its buffers were used, and the block that process p
      asked for when it was given buffer i, under (p, i). */
  datatype Code = Code(s: Sys, order: seq<nat>, asked: map<(nat, nat), nat>)

  datatype Step =
    | Plain(e: Event)
    | Stray(p: nat, i: nat, b: nat, data: Block)  // an update of block b in a buffer that is for another block by now

  /** The blocks that process p has reason to read. */
  predicate MayAsk(s: Sys, p: nat, b: nat) {
    || s.g.Home(|s.disk|, b)
    || match s.phase
       case WriteLog(q, t) => q == p && b == if t < |s.adm.lh| then s.g.start + 1 + t else s.g.start
       case Install(q, t) => q == p && t < |s.adm.lh| && b == s.g.start + 1 + t
       case Clear(q) => q == p && b == s.g.start
       case _ => false
  }

  ghost predicate CanStep(c: Code, x: Step) {
    match x
    case Plain(e) =>
      && Enabled(c.s, e)
      && (e.Lookup? ==> MayAsk(c.s, e.p, e.b) && (c.s.bufs[e.i].For(e.b) || LastFree(c.order, c.s.bufs, e.i)))
      && (e.Update? ==> (e.p, e.i) in c.asked && c.asked[(e.p, e.i)] == e.b)
      && (e.Deref? ==> e.i in c.order)
    case Stray(p, i, b, _) =>
      && i < |c.s.bufs| && c.s.bufs[i].lock == Held(p) && (p, i) in c.asked && c.asked[(p, i)] == b
      && !c.s.bufs[i].For(b) && LA.Enabled(c.s.g.size, c.s.adm, LA.Write(p, c.s.bufs[i].blockno))
  }

  ghost function Take(c: Code, x: Step): (r: Code)
    requires CanStep(c, x)
  {
    match x
    case Plain(e) =>
      var t := Apply(c.s, e);
      (match e
       case Lookup(p, b, i) => Code(t, c.order, c.asked[(p, i) := b])
       case Deref(p, i) =>
         Code(t, if t.bufs[i].refcnt == 0 then ToFront(c.order, i) else c.order, c.asked - {(p, i)})
       case _ => c.(s := t))
    case Stray(p, i, _, data) =>
      var b := c.s.bufs[i].blockno;
      var buf := c.s.bufs[i].(data := data);
      var buf' := if b in c.s.adm.lh then buf else buf.(refcnt := Inc(buf.refcnt));
      c.(s := c.s.(bufs := c.s.bufs[i := buf'], adm := LA.Apply(c.s.adm, LA.Write(p, b))))
  }

  /** What the processes mean the store to hold. */
  function Meant(f: Flat, x: Step): (r: Flat) {
    match x
    case Plain(e) => FlatApply(f, e)
    case Stray(_, _, b, data) => if b < |f.current| then f.(current := f.current[b := data]) else f
  }

  ghost predicate Goes(c: Code, xs: seq<Step>)
    decreases |xs|
  {
    xs == [] || (CanStep(c, xs[0]) && Goes(Take(c, xs[0]), xs[1..]))
  }

  ghost function Then(c: Code, xs: seq<Step>): (r: Code)
    requires Goes(c, xs)
    decreases |xs|
  {
    if xs == [] then c else Then(Take(c, xs[0]), xs[1..])
  }

  function MeantAfter(f: Flat, xs: seq<Step>): (r: Flat)
    decreases |xs|
  {
    if xs == [] then f else MeantAfter(Meant(f, xs[0]), xs[1..])
  }

  /** After xs, whoever has a home block locked and filled sees the last contents given
      to that block. */
  ghost predicate SeesLast(c: Code, xs: seq<Step>)
    requires Goes(c, xs)
  {
    Truthful(Then(c, xs).s, MeantAfter(Flat(c.s.disk, c.s.disk), xs))
  }

  ghost predicate Truthful(t: Sys, f: Flat) {
    forall p: nat, i: nat, b: nat :: t.Holds(p, i, b) && t.g.Home(|t.disk|, b) ==>
      b < |f.current| && t.bufs[i].data == f.current[b]
  }

  /** Crash after xs, then once more in recovery for each element of cuts: the recovery
      that completes gives every home block what it was meant to hold when the last header
      write completed. */
  ghost predicate CrashSafe(c: Code, xs: seq<Step>, cuts: seq<nat>)
    requires Goes(c, xs)
  {
    Restores(c.s.g, Then(c, xs).s.disk, MeantAfter(Flat(c.s.disk, c.s.disk), xs).committed, cuts)
  }

  ghost predicate Restores(g: Geometry, d: Image, committed: Image, cuts: seq<nat>) {
    && ValidImage(g, d) && |d| == |committed|
    && var r := Recovered(g, BootLoop(g, d, cuts));
    && |r| == |d| && HeaderBlocks(r[g.start]) == []
    && forall b: nat :: g.Home(|d|, b) ==> r[b] == committed[b]
  }

  // ----- while the counts are right

  /** Every buffer that was given out is still for the block that was asked for. */
  ghost predicate Kept(c: Code) {
    && |c.s.users| == |c.s.bufs|
    && forall k :: k in c.asked ==>
         k.1 < |c.s.bufs| && k.0 in c.s.users[k.1] && c.s.bufs[k.1].For(c.asked[k])
  }

  lemma StepKept(c: Code, f: Flat, x: Step)
    requires Inv(c.s, f) && Kept(c) && CanStep(c, x)
    ensures x.Plain? && Kept(Take(c, x))
  {
    hide Inv, Enabled, Apply, LA.Enabled, LastFree, MayAsk, ToFront;
    if x.Plain? {
      SameBlocks(c.s, x.e);
      if x.e.Lookup? {
        RecycledUnused(c.s, f, x.e.i);
      }
    }
  }

  /** Which blocks the buffers are for, and who uses them, changes in lookups and releases. */
  lemma SameBlocks(s: Sys, e: Event)
    requires Enabled(s, e) && |s.users| == |s.bufs|
    ensures var t := Apply(s, e);
            && |t.bufs| == |t.users| == |s.bufs|
            && (forall i :: 0 <= i < |s.bufs| && !(e.Lookup? && e.i == i) ==>
                  t.bufs[i].dev == s.bufs[i].dev && t.bufs[i].blockno == s.bufs[i].blockno)
            && (forall i :: 0 <= i < |s.bufs| && !((e.Lookup? || e.Deref?) && e.i == i) ==> t.users[i] == s.users[i])
            && (e.Lookup? ==> e.i < |s.bufs| && t.bufs[e.i].For(e.b) && t.users[e.i] == s.users[e.i] + {e.p}
                              && (s.bufs[e.i].For(e.b) || s.bufs[e.i].refcnt == 0))
            && (e.Deref? ==> e.i < |s.bufs| && t.users[e.i] == s.users[e.i] - {e.p})
  {
    hide LA.Apply, LA.Enabled;
  }

  lemma RecycledUnused(s: Sys, f: Flat, i: nat)
    requires Inv(s, f) && i < |s.bufs|
    ensures |s.bufs| == |s.users| && (s.bufs[i].refcnt == 0 ==> s.users[i] == {})
  {
    assert BufOk(|s.disk|, Pinned(s), s.bufs[i], s.users[i]);
  }

  lemma {:induction false} GoesKept(c: Code, f: Flat, xs: seq<Step>)
    requires Inv(c.s, f) && Kept(c) && Goes(c, xs)
    ensures Inv(Then(c, xs).s, MeantAfter(f, xs))
    ensures Then(c, xs).s.g == c.s.g && |Then(c, xs).s.disk| == |c.s.disk|
    decreases |xs|
  {
    hide Inv, Kept, CanStep, Apply, Enabled;
    if xs != [] {
      StepKept(c, f, xs[0]);
      PlainTaken(c, f, xs[0]);
      GoesKept(Take(c, xs[0]), Meant(f, xs[0]), xs[1..]);
    }
  }

  lemma PlainTaken(c: Code, f: Flat, x: Step)
    requires Inv(c.s, f) && CanStep(c, x) && x.Plain?
    ensures Inv(Take(c, x).s, Meant(f, x)) && Take(c, x).s.g == c.s.g && |Take(c, x).s.disk| == |c.s.disk|
  {
    hide Inv;
    StepInv(c.s, f, x.e);
  }

  /** From a state in which the counts are right, every run of the code is one of the
      machine: reads see the last write and crashes are atomic. */
  lemma RightCounts(c: Code, xs: seq<Step>, cuts: seq<nat>)
    requires Inv(c.s, Flat(c.s.disk, c.s.disk)) && Kept(c) && Goes(c, xs)
    ensures SeesLast(c, xs) && CrashSafe(c, xs, cuts)
  {
    var f := Flat(c.s.disk, c.s.disk);
    GoesKept(c, f, xs);
    InvTruthful(Then(c, xs).s, MeantAfter(f, xs));
    InvRestores(Then(c, xs).s, MeantAfter(f, xs), cuts);
  }

  lemma InvRestores(t: Sys, f: Flat, cuts: seq<nat>)
    requires Inv(t, f)
    ensures Restores(t.g, t.disk, f.committed, cuts)
  {
    hide Inv;
    DiskMeansCommitted(t, f);
    RecoverySurvivesCrashes(t.g, t.disk, cuts);
    InvLengths(t, f);
  }

  lemma InvTruthful(t: Sys, f: Flat)
    requires Inv(t, f)
    ensures Truthful(t, f)
  {
    forall p: nat, i: nat, b: nat | t.Holds(p, i, b) && t.g.Home(|t.disk|, b)
      ensures b < |f.current| && t.bufs[i].data == f.current[b]
    {
      DataAt(t, f, i);
    }
  }

  lemma InvLengths(t: Sys, f: Flat)
    requires Inv(t, f)
    ensures |f.current| == |f.committed| == |t.disk| && t.g.Fits(|t.disk|)
  {
  }

  // ----- putting runs together

  /** xs takes c to c', and what the store is meant to hold from f to f'. */
  ghost predicate Leads(c: Code, f: Flat, xs: seq<Step>, c': Code, f': Flat) {
    Goes(c, xs) && Then(c, xs) == c' && MeantAfter(f, xs) == f'
  }

  lemma LeadStart(c: Code, f: Flat)
    ensures Leads(c, f, [], c, f)
  {
  }

  lemma OneStep(c: Code, f: Flat, x: Step)
    requires CanStep(c, x)
    ensures Leads(c, f, [x], Take(c, x), Meant(f, x))
  {
    hide CanStep, Take, Meant;
    assert [x][0] == x && [x][1..] == [];
    LeadStart(Take(c, x), Meant(f, x));
  }

  lemma {:induction false} LeadStep(c: Code, f: Flat, xs: seq<Step>, m: Code, f': Flat, x: Step)
    requires Leads(c, f, xs, m, f') && CanStep(m, x)
    ensures Leads(c, f, xs + [x], Take(m, x), Meant(f', x))
    decreases |xs|
  {
    hide CanStep, Take, Meant;
    if xs == [] {
      OneStep(m, f', x);
      assert xs + [x] == [x];
    } else {
      LeadStep(Take(c, xs[0]), Meant(f, xs[0]), xs[1..], m, f', x);
      assert (xs + [x])[0] == xs[0] && (xs + [x])[1..] == xs[1..] + [x];
    }
  }

  /** Every buffer is in the order of use, once. */
  ghost predicate Whole(order: seq<nat>) {
    && Distinct(order) && (forall x :: 0 <= x < |order| ==> order[x] < NBUF)
    && forall i :: 0 <= i < NBUF ==> i in order
  }

  lemma WholeAfter(order: seq<nat>, i: nat)
    requires Whole(order) && i < NBUF
    ensures Whole(ToFront(order, i))
  {
    assert i in order;
    var k :| 0 <= k < |order| && order[k] == i;
    ToFrontAt(order, k);
    hide ToFront;
    StillThere(order, k);
    StillDistinct(order, k);
  }

  lemma StillDistinct(order: seq<nat>, k: nat)
    requires k < |order| && Distinct(order)
    ensures Distinct([order[k]] + Without(order, k))
  {
  }

  lemma SomeLastFree(order: seq<nat>, bufs: seq<Buf>) returns (i: nat)
    requires Whole(order) && |bufs| == NBUF && HasFree(bufs)
    ensures LastFree(order, bufs, i)
  {
    var j :| 0 <= j < NBUF && bufs[j].refcnt == 0;
    assert j in order;
    var k :| 0 <= k < |order| && order[k] == j;
    i := LastFreeFrom(order, bufs, k, |order|);
  }

  lemma {:induction false} LastFreeFrom(order: seq<nat>, bufs: seq<Buf>, k: nat, n: nat) returns (i: nat)
    requires Whole(order) && |bufs| == NBUF && k < n <= |order| && bufs[order[k]].refcnt == 0
    requires forall j :: n <= j < |order| ==> bufs[order[j]].refcnt != 0
    ensures LastFree(order, bufs, i)
    decreases n
  {
    if bufs[order[n - 1]].refcnt == 0 {
      i := order[n - 1];
    } else {
      i := LastFreeFrom(order, bufs, k, n - 1);
    }
  }

  // ----- calls as runs

  /** bread(b) by process p finds a buffer at once. */
  ghost predicate CanFetch(c: Code, p: nat, b: nat) {
    && |c.s.bufs| == |c.s.users| == NBUF && Whole(c.order) && p < LA.NPROC && b < |c.s.disk| && MayAsk(c.s, p, b)
    && (Has(c.s.bufs, b) || HasFree(c.s.bufs))
    && forall i :: 0 <= i < NBUF && (c.s.bufs[i].refcnt == 0 || c.s.bufs[i].For(b)) ==>
         c.s.bufs[i].lock.Free? && p !in c.s.users[i] && (c.s.bufs[i].For(b) ==> c.s.bufs[i].valid)
  }

  /** Block b has been read into buffer i, which was for it or was the last free one. */
  ghost predicate Fetched(c: Code, c': Code, p: nat, b: nat, i: nat) {
    && i < |c.s.bufs| == |c.s.users| && b < |c.s.disk|
    && (c.s.bufs[i].For(b) || (LastFree(c.order, c.s.bufs, i) && !Has(c.s.bufs, b)))
    && c' == Code(c.s.(bufs := c.s.bufs[i := ReadIn(c.s.bufs[i], p, b, c.s.disk[b])],
                       users := c.s.users[i := c.s.users[i] + {p}]),
                  c.order, c.asked[(p, i) := b])
  }

  function ReadIn(x: Buf, p: nat, b: nat, data: Block): (r: Buf) {
    if x.For(b) then x.(refcnt := Inc(x.refcnt), lock := Held(p)) else Buf(true, ROOTDEV, b, 1, data, Held(p))
  }

  lemma Fetch(c0: Code, f0: Flat, xs: seq<Step>, c: Code, f: Flat, p: nat, b: nat)
    returns (xs': seq<Step>, i: nat, c': Code)
    requires Leads(c0, f0, xs, c, f) && CanFetch(c, p, b)
    ensures Leads(c0, f0, xs', c', f) && Fetched(c, c', p, b, i)
  {
    hide Leads, LastFree, Has, HasFree, MayAsk;
    i := FindBuffer(c, b);
    var x1, x2, x3 := Plain(Lookup(p, b, i)), Plain(Lock(p, i)), Plain(Fill(p, i));
    NotHad(c.s.bufs, b);
    LeadStep(c0, f0, xs, c, f, x1);
    var c1 := Take(c, x1);
    LeadStep(c0, f0, xs + [x1], c1, f, x2);
    var c2 := Take(c1, x2);
    xs', c' := xs + [x1] + [x2], c2;
    if !c2.s.bufs[i].valid {
      LeadStep(c0, f0, xs', c2, f, x3);
      xs', c' := xs' + [x3], Take(c2, x3);
    }
    assert c'.s.bufs == c.s.bufs[i := ReadIn(c.s.bufs[i], p, b, c.s.disk[b])];
  }

  lemma NotHad(bufs: seq<Buf>, b: nat)
    ensures !Has(bufs, b) ==> forall j :: 0 <= j < |bufs| ==> !bufs[j].For(b)
  {
  }

  lemma FindBuffer(c: Code, b: nat) returns (i: nat)
    requires |c.s.bufs| == NBUF && Whole(c.order) && (Has(c.s.bufs, b) || HasFree(c.s.bufs))
    ensures i < NBUF && (c.s.bufs[i].For(b) || (LastFree(c.order, c.s.bufs, i) && !Has(c.s.bufs, b)))
    ensures c.s.bufs[i].For(b) || c.s.bufs[i].refcnt == 0
  {
    if Has(c.s.bufs, b) {
      i :| i < NBUF && c.s.bufs[i].For(b);
    } else {
      i := SomeLastFree(c.order, c.s.bufs);
    }
  }

  /** c after process p's brelse of buffer i. */
  ghost function Dropped(c: Code, p: nat, i: nat): (r: Code)
    requires i < |c.s.bufs| == |c.s.users| && i in c.order
  {
    var refcnt := Dec(c.s.bufs[i].refcnt);
    Code(c.s.(bufs := c.s.bufs[i := c.s.bufs[i].(refcnt := refcnt, lock := Free)],
              users := c.s.users[i := c.s.users[i] - {p}]),
         if refcnt == 0 then ToFront(c.order, i) else c.order, c.asked - {(p, i)})
  }

  lemma Drop(c0: Code, f0: Flat, xs: seq<Step>, c: Code, f: Flat, p: nat, i: nat) returns (xs': seq<Step>)
    requires Leads(c0, f0, xs, c, f) && i < |c.s.bufs| == |c.s.users| == NBUF && Whole(c.order)
    requires c.s.bufs[i].lock == Held(p) && p in c.s.users[i]
    ensures i in c.order && Leads(c0, f0, xs', Dropped(c, p, i), f) && Whole(Dropped(c, p, i).order)
  {
    hide Leads;
    assert i in c.order;
    WholeAfter(c.order, i);
    hide Leads, Whole, ToFront;
    var x1, x2 := Plain(Unlock(p, i)), Plain(Deref(p, i));
    LeadStep(c0, f0, xs, c, f, x1);
    var c1 := Take(c, x1);
    LeadStep(c0, f0, xs + [x1], c1, f, x2);
    xs' := xs + [x1] + [x2];
    assert Take(c1, x2).s.bufs == Dropped(c, p, i).s.bufs;
  }

  // ----- least recently used

  /** The buffer that a step gives up for good, if any: a release that leaves its count 0. */
  ghost function ReleaseOf(c: Code, x: Step): (r: seq<nat>)
    requires CanStep(c, x)
  {
    match x
    case Plain(Deref(p, i)) => if Apply(c.s, x.e).bufs[i].refcnt == 0 then [i] else []
    case _ => []
  }

  ghost function Releases(c: Code, xs: seq<Step>): (r: seq<nat>)
    requires Goes(c, xs)
    decreases |xs|
  {
    if xs == [] then [] else ReleaseOf(c, xs[0]) + Releases(Take(c, xs[0]), xs[1..])
  }

  /** When i was last released; 0 if never. */
  function LastAt(rel: seq<nat>, i: nat): (n: nat)
    ensures n <= |rel|
  {
    if rel == [] then 0 else if rel[|rel| - 1] == i then |rel| else LastAt(rel[..|rel| - 1], i)
  }

  lemma LastAtMore(rel: seq<nat>, i: nat, j: nat)
    ensures LastAt(rel + [i], j) == if i == j then |rel| + 1 else LastAt(rel, j)
  {
    assert (rel + [i])[..|rel|] == rel;
  }

  /** i was released later than j, or j never. */
  predicate Later(rel: seq<nat>, i: nat, j: nat) { LastAt(rel, j) == 0 || LastAt(rel, j) < LastAt(rel, i) }

  ghost predicate ByRelease(rel: seq<nat>, order: seq<nat>) {
    forall a, b :: 0 <= a < b < |order| ==> Later(rel, order[a], order[b])
  }

  lemma ReleasedToFront(rel: seq<nat>, order: seq<nat>, i: nat)
    requires ByRelease(rel, order) && Whole(order) && i < NBUF
    ensures i in order && ByRelease(rel + [i], ToFront(order, i))
  {
    assert i in order;
    var k :| 0 <= k < |order| && order[k] == i;
    ToFrontAt(order, k);
    assert Distinct(order);
    hide ToFront, LastAt, Later, ByRelease, Whole, Without;
    var order' := [i] + Without(order, k);
    forall a, b | 0 <= a < b < |order'|
      ensures Later(rel + [i], order'[a], order'[b])
    {
      PairInOrder(rel, order, k, a, b);
    }
    assert ByRelease(rel + [i], order') by { AllInOrder(rel + [i], order'); }
  }

  lemma AllInOrder(rel: seq<nat>, order: seq<nat>)
    requires forall a, b :: 0 <= a < b < |order| ==> Later(rel, order[a], order[b])
    ensures ByRelease(rel, order)
  {
  }

  lemma PairInOrder(rel: seq<nat>, order: seq<nat>, k: nat, a: nat, b: nat)
    requires ByRelease(rel, order) && Distinct(order) && k < |order| && a < b < |[order[k]] + Without(order, k)|
    ensures var order' := [order[k]] + Without(order, k); Later(rel + [order[k]], order'[a], order'[b])
  {
    hide LastAt;
    var order' := [order[k]] + Without(order, k);
    LastAtMore(rel, order[k], order'[a]);
    LastAtMore(rel, order[k], order'[b]);
    var y := if b <= k then b - 1 else b;
    assert order'[b] == order[y] && y != k;
    if a > 0 {
      var x := if a <= k then a - 1 else a;
      assert order'[a] == order[x] && x != k && Later(rel, order[x], order[y]);
    }
  }

  lemma StepLru(c: Code, rel: seq<nat>, x: Step)
    requires ByRelease(rel, c.order) && Whole(c.order) && CanStep(c, x)
    ensures ByRelease(rel + ReleaseOf(c, x), Take(c, x).order) && Whole(Take(c, x).order)
  {
    hide Whole, ByRelease, CanStep, ReleaseOf, Take, ToFront;
    OrderTaken(c, x);
    if ReleaseOf(c, x) == [] {
      assert rel + ReleaseOf(c, x) == rel;
    } else {
      WholeBelow(c.order, x.e.i);
      ReleasedToFront(rel, c.order, x.e.i);
      WholeAfter(c.order, x.e.i);
    }
  }

  lemma OrderTaken(c: Code, x: Step)
    requires CanStep(c, x)
    ensures ReleaseOf(c, x) == [] ==> Take(c, x).order == c.order
    ensures ReleaseOf(c, x) != [] ==>
              && x.Plain? && x.e.Deref? && ReleaseOf(c, x) == [x.e.i]
              && x.e.i in c.order && Take(c, x).order == ToFront(c.order, x.e.i)
  {
    hide ToFront, LA.Enabled, LA.Apply, LastFree, MayAsk;
  }

  lemma WholeBelow(order: seq<nat>, i: nat)
    requires Whole(order) && i in order
    ensures i < NBUF
  {
  }

  lemma {:induction false} RunLru(c: Code, rel: seq<nat>, xs: seq<Step>)
    requires ByRelease(rel, c.order) && Whole(c.order) && Goes(c, xs)
    ensures ByRelease(rel + Releases(c, xs), Then(c, xs).order) && Whole(Then(c, xs).order)
    decreases |xs|
  {
    hide Whole, ByRelease, CanStep, Take, ReleaseOf;
    if xs == [] {
      assert rel + Releases(c, xs) == rel;
    } else {
      StepLru(c, rel, xs[0]);
      var rest := Releases(Take(c, xs[0]), xs[1..]);
      RunLru(Take(c, xs[0]), rel + ReleaseOf(c, xs[0]), xs[1..]);
      assert rel + ReleaseOf(c, xs[0]) + rest == rel + (ReleaseOf(c, xs[0]) + rest);
    }
  }

  /** After every run, a miss takes, of the buffers not in use, one that was never released or
      else the one released longest ago. */
  lemma LeastRecentlyUsed(c: Code, xs: seq<Step>, p: nat, b: nat, i: nat, j: nat)
    requires Whole(c.order) && Goes(c, xs) && CanStep(Then(c, xs), Plain(Lookup(p, b, i)))
    requires var bufs := Then(c, xs).s.bufs;
             !bufs[i].For(b) && j < |bufs| && j < NBUF && j != i && bufs[j].refcnt == 0
    ensures Later(Releases(c, xs), j, i)
  {
    hide Goes, Then, Releases, Enabled, MayAsk;
    assert [] + Releases(c, xs) == Releases(c, xs);
    RunLru(c, [], xs);
    var order, bufs := Then(c, xs).order, Then(c, xs).s.bufs;
    assert LastFree(order, bufs, i);
    var k :| 0 <= k < |order| && order[k] == i && forall a :: k < a < |order| ==> order[a] < |bufs| && bufs[order[a]].refcnt != 0;
    assert j in order;
    var a :| 0 <= a < |order| && order[a] == j;
    assert a < k;
  }
}
