/** Disks all of whose home blocks were installed by the recovery.  When they are few
    enough for the cache to hold them together with the log, no buffer is ever recycled,
    and the wrong counts do no harm: with 1 added to the counts of the installed blocks the
    run is one of the machine with right counts. */
module FewBlocks {
  import opened Common
  import opened RedoLog
  import opened BlockMachine
  import opened BlockLayer
  import opened Recovery
  import opened CodeRuns
  import opened Reboot
  import LA = LogAdmission

  function Righted(x: Buf, bs: seq<nat>): (r: Buf) {
    if x.dev == ROOTDEV && x.blockno in bs then x.(refcnt := Inc(x.refcnt)) else x
  }

  /** t is s with 1 added to the counts of the blocks bs. */
  ghost predicate Mends(s: Sys, t: Sys, bs: seq<nat>) {
    && t == s.(bufs := t.bufs) && |t.bufs| == |s.bufs|
    && forall i :: 0 <= i < |s.bufs| ==> t.bufs[i] == Righted(s.bufs[i], bs) && s.bufs[i].refcnt < UINT_MOD
  }

  /** Events that touch buffers alone, or none. */
  predicate Light(e: Event) {
    e.Lookup? || e.Lock? || e.Fill? || e.Unlock? || e.Deref? || e.BeginOp? || e.TestLog? || e.EndOp? || e.FinishCommit?
  }

  lemma MendLight(s: Sys, t: Sys, e: Event, bs: seq<nat>)
    requires Mends(s, t, bs) && Enabled(s, e) && Light(e) && (e.Lookup? ==> s.bufs[e.i].For(e.b))
    ensures Enabled(t, e) && Mends(Apply(s, e), Apply(t, e), bs)
  {
    hide LA.Enabled, LA.Apply;
  }

  lemma MendHeavy(s: Sys, t: Sys, e: Event, bs: seq<nat>)
    requires Mends(s, t, bs) && Enabled(s, e) && !Light(e)
    ensures Enabled(t, e) && Mends(Apply(s, e), Apply(t, e), bs)
  {
    hide LA.Enabled, LA.Apply;
  }

  lemma MendStep(s: Sys, t: Sys, e: Event, bs: seq<nat>)
    requires Mends(s, t, bs) && Enabled(s, e) && (e.Lookup? ==> s.bufs[e.i].For(e.b))
    ensures Enabled(t, e) && Mends(Apply(s, e), Apply(t, e), bs)
  {
    hide Enabled, Apply, Mends;
    if Light(e) {
      MendLight(s, t, e, bs);
    } else {
      MendHeavy(s, t, e, bs);
    }
  }

  /** Everything that can be asked for is cached. */
  ghost predicate AllCached(s: Sys, bs: seq<nat>) {
    && (forall b: nat :: s.g.Home(|s.disk|, b) ==> b in bs)
    && forall b: nat :: s.g.start <= b <= s.g.start + |bs| || b in bs ==> Has(s.bufs, b)
  }

  lemma FewLogged(s: Sys, f: Flat, bs: seq<nat>)
    requires Inv(s, f) && (forall b: nat :: s.g.Home(|s.disk|, b) ==> b in bs)
    ensures |s.adm.lh| <= |bs|
  {
    assert Distinct(s.adm.lh) && forall k :: 0 <= k < |s.adm.lh| ==> s.adm.lh[k] in bs;
    hide Inv;
    Pigeons(s.adm.lh, bs);
  }

  lemma {:induction false} Pigeons(a: seq<nat>, b: seq<nat>)
    requires Distinct(a) && forall k :: 0 <= k < |a| ==> a[k] in b
    ensures |a| <= |b|
  {
    if a != [] {
      var x, a' := a[|a| - 1], a[..|a| - 1];
      var i :| 0 <= i < |b| && b[i] == x;
      var b' := b[..i] + b[i + 1..];
      forall k | 0 <= k < |a'|
        ensures a'[k] in b'
      {
        assert a[k] in b;
        var j :| 0 <= j < |b| && b[j] == a[k];
        assert b'[if j < i then j else j - 1] == a[k];
      }
      Pigeons(a', b');
    }
  }

  /** The state of the simulation: c, its mended state t, and the flat store. */
  ghost predicate Mended(c: Code, t: Sys, f: Flat, bs: seq<nat>) {
    Mends(c.s, t, bs) && Inv(t, f) && Kept(c) && AllCached(c.s, bs)
  }

  lemma LookupHits(c: Code, t: Sys, f: Flat, bs: seq<nat>, p: nat, b: nat, i: nat)
    requires Mended(c, t, f, bs) && CanStep(c, Plain(Lookup(p, b, i)))
    ensures c.s.bufs[i].For(b)
  {
    hide Inv, LastFree;
    FewLogged(t, f, bs);
    assert Has(c.s.bufs, b);
  }

  lemma CachedStep(s: Sys, e: Event, bs: seq<nat>)
    requires Enabled(s, e) && AllCached(s, bs) && |s.users| == |s.bufs| && (e.Lookup? ==> s.bufs[e.i].For(e.b))
    ensures AllCached(Apply(s, e), bs) && Apply(s, e).g == s.g && |Apply(s, e).disk| == |s.disk|
  {
    CodeRuns.SameBlocks(s, e);
    var t := Apply(s, e);
    assert t.g == s.g && |t.disk| == |s.disk|;
    hide Apply, Enabled;
    BlockLayer.SameBlocks(s.bufs, t.bufs);
    hide Has;
  }

  lemma StepMended(c: Code, t: Sys, f: Flat, bs: seq<nat>, x: Step)
    requires Mended(c, t, f, bs) && CanStep(c, x)
    ensures x.Plain? && Enabled(t, x.e) && Mended(Take(c, x), Apply(t, x.e), Meant(f, x), bs)
    ensures Take(c, x).s.g == c.s.g && |Take(c, x).s.disk| == |c.s.disk|
  {
    hide Inv, Apply, Enabled, Mends, AllCached, LastFree, MayAsk, ToFront;
    if x.Plain? {
      if x.e.Lookup? {
        LookupHits(c, t, f, bs, x.e.p, x.e.b, x.e.i);
      }
      MendStep(c.s, t, x.e, bs);
      StepInv(t, f, x.e);
      CachedStep(c.s, x.e, bs);
      CodeRuns.SameBlocks(c.s, x.e);
    }
  }

  lemma {:induction false} GoesMended(c: Code, t: Sys, f: Flat, bs: seq<nat>, xs: seq<Step>) returns (t': Sys)
    requires Mended(c, t, f, bs) && Goes(c, xs)
    ensures Mended(Then(c, xs), t', MeantAfter(f, xs), bs)
    ensures Then(c, xs).s.g == c.s.g && |Then(c, xs).s.disk| == |c.s.disk|
    decreases |xs|
  {
    hide Mended, CanStep, Take, Apply, Enabled;
    t' := t;
    if xs != [] {
      StepMended(c, t, f, bs, xs[0]);
      t' := GoesMended(Take(c, xs[0]), Apply(t, xs[0].e), Meant(f, xs[0]), bs, xs[1..]);
    }
  }

  lemma {:induction false} MendAll(bufs: seq<Buf>, bs: seq<nat>) returns (r: seq<Buf>)
    ensures |r| == |bufs| && forall i :: 0 <= i < |bufs| ==> r[i] == Righted(bufs[i], bs)
  {
    r := [];
    if bufs != [] {
      r := MendAll(bufs[..|bufs| - 1], bs);
      r := r + [Righted(bufs[|bufs| - 1], bs)];
    }
  }

  lemma MendedStart(c: Code, bs: seq<nat>) returns (t: Sys)
    requires BackUp(c, bs) && !Spare(c.s, bs) && 2 * |bs| < NBUF
    ensures Mended(c, t, Flat(c.s.disk, c.s.disk), bs)
  {
    hide LA.Booted, Whole, Sunk, Inv, BootCache;
    var r := MendAll(c.s.bufs, bs);
    t := c.s.(bufs := r);
    BootSizes(c.s, bs);
    MendedInv(c.s, t, bs);
  }

  lemma BootSizes(s: Sys, bs: seq<nat>)
    requires Rebooted(s, bs)
    ensures |s.bufs| == NBUF && forall i :: 0 <= i < NBUF ==> s.bufs[i].refcnt < UINT_MOD
  {
    forall i | 0 <= i < NBUF
      ensures s.bufs[i].refcnt < UINT_MOD
    {
      assert BootBuf(s.g, s.disk, bs, s.bufs[i]);
    }
  }

  lemma MendedInv(s: Sys, t: Sys, bs: seq<nat>)
    requires Rebooted(s, bs) && Mends(s, t, bs)
    ensures Inv(t, Flat(t.disk, t.disk))
  {
    hide LA.Booted, LA.Inv;
    LA.BootedInv();
    BootedPinsNone();
    assert Pinned(t) == [];
    hide BufOk, DataOk;
    forall i | 0 <= i < NBUF
      ensures BufOk(|t.disk|, [], t.bufs[i], t.users[i]) && DataOk(t.g, t.disk, t.disk, t.bufs[i])
      ensures t.bufs[i].dev == s.bufs[i].dev && t.bufs[i].blockno == s.bufs[i].blockno
    {
      MendedBuf(s.g, s.disk, bs, s.bufs[i], t.users[i]);
    }
  }

  lemma MendedBuf(g: Geometry, disk: Image, bs: seq<nat>, x: Buf, us: set<nat>)
    requires BootBuf(g, disk, bs, x) && us == {}
    ensures BufOk(|disk|, [], Righted(x, bs), us) && DataOk(g, disk, disk, Righted(x, bs))
  {
  }

  lemma BootedPinsNone()
    ensures LA.Booted().lh == [] && !LA.Booted().committing && LA.Booted().passed == {}
  {
  }

  lemma MendedTrue(s: Sys, t: Sys, f: Flat, bs: seq<nat>)
    requires Mends(s, t, bs) && Truthful(t, f)
    ensures Truthful(s, f)
  {
    forall p: nat, i: nat, b: nat | s.Holds(p, i, b) && s.g.Home(|s.disk|, b)
      ensures b < |f.current| && s.bufs[i].data == f.current[b]
    {
      assert t.Holds(p, i, b);
    }
  }

  /** When the recovery installed every home block there is and they are fewer than half as
      many as the buffers, reads see the last write and crashes are atomic all the same. */
  lemma FewBlocksAreSafe(c: Code, bs: seq<nat>, xs: seq<Step>, cuts: seq<nat>)
    requires BackUp(c, bs) && !Spare(c.s, bs) && 2 * |bs| < NBUF && Goes(c, xs)
    ensures SeesLast(c, xs) && CrashSafe(c, xs, cuts)
  {
    hide BackUp, Spare, Inv, Kept, AllCached, Restores, Truthful;
    var f := Flat(c.s.disk, c.s.disk);
    var t := MendedStart(c, bs);
    var t' := GoesMended(c, t, f, bs, xs);
    InvTruthful(t', MeantAfter(f, xs));
    MendedTrue(Then(c, xs).s, t', MeantAfter(f, xs), bs);
    InvRestores(t', MeantAfter(f, xs), cuts);
  }
}
