/** What wait knows of a process's children, over every run. */
module ProcWaits {
  import opened Common
  import opened ProcMachine
  import opened ProcRuns

  ghost predicate HasChild(ps: seq<Proc>, r: nat) {
    exists j :: 0 <= j < |ps| && ps[j].parent == Some(r)
  }

  /** wait has seen a child, and has not started over since. */
  predicate SawChild(k: Pc) { k.WaitAsleep? || ((k.WaitScan? || k.WaitKid?) && k.kids) }

  predicate SawNone(k: Pc) { (k.WaitScan? || k.WaitKid?) && !k.kids }

  /** A child that wait has seen is still one. */
  ghost predicate KidsOk(ps: seq<Proc>, r: nat)
    requires r < |ps|
  {
    SawChild(ps[r].pc) ==> HasChild(ps, r)
  }

  /** Behind a scan that has seen no child there is none; init can be given one there. */
  predicate NoKidsOk(ps: seq<Proc>, r: nat, j: nat)
    requires r < |ps| && j < |ps|
  {
    r != INIT && SawNone(ps[r].pc) && j < ps[r].pc.i ==> ps[j].parent != Some(r)
  }

  /** Nobody sleeps in wait who has been killed. */
  predicate AliveOk(r: Proc) { r.st.Sleeping? && r.pc.WaitAsleep? ==> !r.killed }

  ghost predicate WaitsInv(s: Sys)
    requires Shape(s)
  {
    && (forall r: nat :: r < |s.ps| ==> KidsOk(s.ps, r) && AliveOk(s.ps[r]))
    && (forall r: nat, j: nat :: r < |s.ps| && j < |s.ps| ==> NoKidsOk(s.ps, r, j))
  }

  /** How a step of p itself moves its wait on. */
  predicate WaitTable(ps: seq<Proc>, p: nat, f: Effect)
    requires p < |ps|
  {
    var k, k' := ps[p].pc, f.me.pc;
    && (SawChild(k') ==> f.x == p && (SawChild(k) || (k.WaitAt? && k.i < |ps| && ps[k.i].parent == Some(p))))
    && (SawNone(k') ==>
          f.x == p
          && (k'.i == 0 || (SawNone(k) && (k'.i == k.i || (k'.i == k.i + 1 && k.i < |ps| && ps[k.i].parent != Some(p))))))
    && AliveOk(f.me)
  }

  lemma SchedWaits(s: Sys, c: nat, p: nat, a: SchedAct)
    requires Shape(s) && p < |s.ps| && SchedEnabled(s, p, a) && Placed(s, c, p)
    ensures WaitTable(s.ps, p, SchedEffect(s, p, a))
  {
  }

  lemma ForkWaits(s: Sys, c: nat, p: nat, a: ForkAct)
    requires Shape(s) && p < |s.ps| && ForkEnabled(s, p, a) && Placed(s, c, p)
    ensures WaitTable(s.ps, p, ForkEffect(s, p, a))
  {
  }

  lemma ExitWaits(s: Sys, c: nat, p: nat, a: ExitAct)
    requires Shape(s) && p < |s.ps| && ExitEnabled(s, p, a) && Placed(s, c, p)
    ensures WaitTable(s.ps, p, ExitEffect(s, p, a))
  {
  }

  lemma WaitWaits(s: Sys, c: nat, p: nat, a: WaitAct)
    requires Shape(s) && p < |s.ps| && WaitEnabled(s, p, a) && Placed(s, c, p)
    ensures WaitTable(s.ps, p, WaitEffect(s, p, a))
  {
  }

  lemma DoWaits(s: Sys, c: nat, a: Act)
    requires SchedInv(s) && Enabled(s, Do(c, a))
    ensures WaitTable(s.ps, s.cpu[c].p, EffectOf(s, s.cpu[c].p, a))
  {
    var p := s.cpu[c].p;
    DoFacts(s, c, a, 0);
    hide SchedInv, WaitTable, SchedEffect, ForkEffect, ExitEffect, WaitEffect, Placed, SchedEnabled, ForkEnabled,
      ExitEnabled, WaitEnabled, EffectOk, LocksFit, Holds;
    match a
    case SchedStep(y) => SchedWaits(s, c, p, y);
    case ForkStep(f) => ForkWaits(s, c, p, f);
    case ExitStep(x) => ExitWaits(s, c, p, x);
    case WaitStep(w) => WaitWaits(s, c, p, w);
  }

  lemma KidsKept(ps: seq<Proc>, ps': seq<Proc>, p: nat, f: Effect, r: nat)
    requires Moved(ps, ps', p, f) && r < |ps| && KidsOk(ps, r) && WaitTable(ps, p, f) && ps[p].st.Running?
    requires f.me.parent == ps[p].parent && VacantOk(ps, f.x) && (f.x != p ==> Change(ps[f.x], f.other, p))
    ensures KidsOk(ps', r)
  {
    if SawChild(ps'[r].pc) {
      var j: nat;
      if r == p && !SawChild(ps[p].pc) {
        j := ps[p].pc.i;
      } else {
        assert SawChild(ps[r].pc);
        j :| 0 <= j < |ps| && ps[j].parent == Some(r);
      }
      assert ps'[j].parent == Some(r);
    }
  }

  lemma NoKidsKept(ps: seq<Proc>, ps': seq<Proc>, p: nat, f: Effect, r: nat, j: nat)
    requires Moved(ps, ps', p, f) && r < |ps| && j < |ps| && NoKidsOk(ps, r, j) && WaitTable(ps, p, f)
    requires f.me.parent == ps[p].parent && (f.x != p ==> Change(ps[f.x], f.other, p))
    ensures NoKidsOk(ps', r, j)
  {
  }

  lemma AliveKept(ps: seq<Proc>, ps': seq<Proc>, p: nat, f: Effect, r: nat)
    requires Moved(ps, ps', p, f) && r < |ps| && AliveOk(ps[r]) && WaitTable(ps, p, f)
    requires f.x != p ==> Change(ps[f.x], f.other, p)
    ensures AliveOk(ps'[r])
  {
  }

  lemma StepWaits(s: Sys, e: Event)
    requires SchedInv(s) && WaitsInv(s) && Enabled(s, e)
    ensures WaitsInv(Apply(s, e))
  {
    var s' := Apply(s, e);
    if e.Do? {
      var p := s.cpu[e.c].p;
      var f := EffectOf(s, p, e.a);
      DoWaits(s, e.c, e.a);
      DoMoved(s, e.c, e.a);
      DoFacts(s, e.c, e.a, 0);
      assert VacantOk(s.ps, f.x);
      hide SchedInv, Apply, EffectOf, Enabled, WaitTable, Moved, VacantOk, Change, KidsOk, NoKidsOk, AliveOk, LocksFit, SlotOk, PlaceOk;
      forall r: nat | r < |s.ps|
        ensures KidsOk(s'.ps, r) && AliveOk(s'.ps[r])
      {
        KidsKept(s.ps, s'.ps, p, f, r);
        AliveKept(s.ps, s'.ps, p, f, r);
      }
      forall r: nat, j: nat | r < |s.ps| && j < |s.ps|
        ensures NoKidsOk(s'.ps, r, j)
      {
        NoKidsKept(s.ps, s'.ps, p, f, r, j);
      }
    } else {
      QuietSteps(s, e);
      forall r: nat | r < |s.ps|
        ensures KidsOk(s'.ps, r) && AliveOk(s'.ps[r])
      {
        assert KidsOk(s.ps, r) && AliveOk(s.ps[r]);
        QuietWaits(s, e, r);
      }
      forall r: nat, j: nat | r < |s.ps| && j < |s.ps|
        ensures NoKidsOk(s'.ps, r, j)
      {
        assert NoKidsOk(s.ps, r, j) && Quiet(s.ps[r], s'.ps[r]) && Quiet(s.ps[j], s'.ps[j]);
      }
    }
  }

  lemma QuietWaits(s: Sys, e: Event, r: nat)
    requires Shape(s) && Enabled(s, e) && !e.Do? && r < |s.ps| && KidsOk(s.ps, r) && AliveOk(s.ps[r])
    ensures KidsOk(Apply(s, e).ps, r) && AliveOk(Apply(s, e).ps[r])
  {
    QuietSteps(s, e);
    var s' := Apply(s, e);
    assert Quiet(s.ps[r], s'.ps[r]);
    if SawChild(s.ps[r].pc) {
      var j :| 0 <= j < |s.ps| && s.ps[j].parent == Some(r);
      assert Quiet(s.ps[j], s'.ps[j]);
      assert s'.ps[j].parent == Some(r);
    }
  }

  lemma {:induction false} RunWaits(s: Sys, es: seq<Event>)
    requires Inv(s) && WaitsInv(s) && Run(s, es)
    ensures WaitsInv(Exec(s, es))
    decreases |es|
  {
    if es != [] {
      hide Inv, WaitsInv, Apply, Enabled;
      InvShape(s);
      InvSched(s);
      StepWaits(s, es[0]);
      StepInv(s, es[0]);
      RunWaits(Apply(s, es[0]), es[1..]);
    }
  }

  lemma InvSched(s: Sys)
    requires Inv(s)
    ensures SchedInv(s)
  {
  }

  /** In every run: whoever sleeps in wait has a child and has not been killed; and wait says
      that there are no children, without the process having been killed, only when there
      are none (init may have been given one behind its back). */
  lemma WaitKnowsChildren(s: Sys, es: seq<Event>, p: nat)
    requires Boot(s) && Run(s, es) && p < |s.ps|
    ensures var t := Exec(s, es);
            t.ps[p].st.Sleeping? && t.ps[p].pc.WaitAsleep? ==>
              !t.ps[p].killed && exists j: nat :: j < |t.ps| && t.ps[j].parent == Some(p)
    ensures var t := Exec(s, es);
            WaitEnabled(t, p, WaitNone) && !t.ps[p].killed && p != INIT ==>
              forall j: nat :: j < |t.ps| ==> t.ps[j].parent != Some(p)
  {
    hide Run, Exec;
    BootInv(s);
    assert WaitsInv(s);
    RunWaits(s, es);
    var t := Exec(s, es);
    assert KidsOk(t.ps, p) && AliveOk(t.ps[p]);
    if SawChild(t.ps[p].pc) {
      var j :| 0 <= j < |t.ps| && t.ps[j].parent == Some(p);
    }
    if WaitEnabled(t, p, WaitNone) && !t.ps[p].killed && p != INIT {
      forall j: nat | j < |t.ps|
        ensures t.ps[j].parent != Some(p)
      {
        assert NoKidsOk(t.ps, p, j);
      }
    }
  }
}
