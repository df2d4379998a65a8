/** What every run of the process table keeps: families, and the records of exits. */
module ProcRuns {
  import opened Common
  import opened ProcMachine

  // ----- parents and children

  /** What the lemmas below need to know of a step of p. */
  predicate Orderly(ps: seq<Proc>, p: nat, f: Effect)
    requires p < |ps|
  {
    && ps[p].st.Running? && SlotOk(ps[p], p) && PlaceOk(ps, p) && f.x < |ps|
    && (f.x != p ==> Change(ps[f.x], f.other, p))
    && f.me.parent == ps[p].parent && !f.me.st.Unused?
    && (f.me.st.Zombie? ==> ps[p].pc.Reparent? && ps[p].pc.i == |ps| && f.x == ps[p].pc.op && f.x != p
                            && f.other == Wake1(ps[f.x], f.x))
    && (f.x != p && ps[f.x].st.Unused? && !f.other.st.Unused? ==> ps[p].pc == ForkReady(f.x))
    && OwnTable(ps, p, f)
  }

  lemma DoOrderly(s: Sys, c: nat, a: Act)
    requires SchedInv(s) && Enabled(s, Do(c, a))
    ensures var p := s.cpu[c].p;
            Orderly(s.ps, p, EffectOf(s, p, a)) && Moved(s.ps, Apply(s, Do(c, a)).ps, p, EffectOf(s, p, a))
  {
    DoFacts(s, c, a, 0);
    DoMoved(s, c, a);
    DoOwn(s, c, a);
    hide SchedInv, EffectOf, Apply, ActEnabled, SlotOk, PlaceOk, OwnTable, Change;
  }

  lemma ParentKept(ps: seq<Proc>, ps': seq<Proc>, p: nat, f: Effect, q: nat)
    requires Moved(ps, ps', p, f) && Orderly(ps, p, f) && q < |ps| && INIT < |ps| && SlotOk(ps[INIT], INIT)
    requires ParentOk(ps, q) && SweptOk(ps, p, q)
    ensures ParentOk(ps', q)
  {
    SweptAll(ps, p, q);
    hide OwnTable, SweptOk;
  }

  lemma SweptAll(ps: seq<Proc>, p: nat, q: nat)
    requires p < |ps| && q < |ps| && SweptOk(ps, p, q) && ps[p].st.Running?
    ensures ps[p].pc.Reparent? && ps[p].pc.i == |ps| ==> ps[q].parent != Some(p)
  {
  }

  lemma SweptKept(ps: seq<Proc>, ps': seq<Proc>, p: nat, f: Effect, q: nat, j: nat)
    requires Moved(ps, ps', p, f) && Orderly(ps, p, f) && q < |ps| && j < |ps| && SlotOk(ps[q], q)
    requires SweptOk(ps, q, j)
    requires SlotOk(ps'[p], p)
    ensures SweptOk(ps', q, j)
  {
    hide PlaceOk;
    if q == p {
      assert Sweeps(f.me.pc) ==> p != INIT;
    } else {
      assert ps'[q].st.Running? ==> ps[q].st.Running? && ps'[q].pc == ps[q].pc;
      assert ps[q].st.Running? && Sweeps(ps[q].pc) ==> q != INIT;
    }
  }

  /** A process other than p that waits. */
  lemma WaitKeptOther(ps: seq<Proc>, ps': seq<Proc>, p: nat, f: Effect, r: nat, j: nat)
    requires Moved(ps, ps', p, f) && Orderly(ps, p, f) && r < |ps| && j < |ps| && r != p && SlotOk(ps[r], r)
    requires WaitOk(ps, r, j) && (f.x != p && ps[r].st.Running? ==> !Holds(ps[r].pc, r, f.x))
    ensures WaitOk(ps', r, j)
  {
    hide OwnTable;
  }

  lemma WaitKeptOwn(ps: seq<Proc>, ps': seq<Proc>, p: nat, f: Effect, j: nat)
    requires Moved(ps, ps', p, f) && Orderly(ps, p, f) && j < |ps| && WaitOk(ps, p, j)
    ensures WaitOk(ps', p, j)
  {
    hide PlaceOk, SlotOk;
  }

  lemma DoFamily(s: Sys, c: nat, a: Act)
    requires SchedInv(s) && FamilyInv(s) && Enabled(s, Do(c, a))
    ensures FamilyInv(Apply(s, Do(c, a)))
  {
    var s' := Apply(s, Do(c, a));
    var p := s.cpu[c].p;
    var f := EffectOf(s, p, a);
    DoOrderly(s, c, a);
    DoSlot(s, c, a, p);
    assert SlotOk(s.ps[INIT], INIT);
    hide EffectOf, Apply, ActEnabled, SlotOk, PlaceOk, Orderly, Moved, ParentOk, SweptOk, WaitOk, Holds;
    forall q: nat | q < |s.ps|
      ensures ParentOk(s'.ps, q)
    {
      ParentKept(s.ps, s'.ps, p, f, q);
    }
    forall q: nat, j: nat | q < |s.ps| && j < |s.ps|
      ensures SweptOk(s'.ps, q, j) && WaitOk(s'.ps, q, j)
    {
      assert SlotOk(s.ps[q], q);
      SweptKept(s.ps, s'.ps, p, f, q, j);
      if q == p {
        WaitKeptOwn(s.ps, s'.ps, p, f, j);
      } else {
        if s.ps[q].st.Running? {
          DoExclusive(s, c, a, q);
        }
        WaitKeptOther(s.ps, s'.ps, p, f, q, j);
      }
    }
  }

  /** Steps that change no parent, make no zombie, and start or wake a process. */
  predicate Quiet(o: Proc, r: Proc) {
    && r.parent == o.parent && r.pid == o.pid && r.xstate == o.xstate && r.pc == o.pc
    && (r.st == o.st || (o.st.Runnable? && r.st.Running?) || (o.st.Sleeping? && r.st.Runnable?))
  }

  lemma QuietFamily(s: Sys, s': Sys)
    requires SchedInv(s) && FamilyInv(s) && Shape(s') && |s'.ps| == |s.ps|
    requires forall i: nat :: i < |s.ps| ==> Quiet(s.ps[i], s'.ps[i])
    ensures FamilyInv(s')
  {
    hide SlotOk, PlaceOk;
    forall q: nat | q < |s.ps|
      ensures ParentOk(s'.ps, q)
    {
      assert ParentOk(s.ps, q);
    }
    forall q: nat, j: nat | q < |s.ps| && j < |s.ps|
      ensures SweptOk(s'.ps, q, j) && WaitOk(s'.ps, q, j)
    {
      assert SweptOk(s.ps, q, j) && WaitOk(s.ps, q, j);
      assert s.ps[q].st.Runnable? ==> !Sweeps(s.ps[q].pc) && !Waits(s.ps[q].pc) by { assert SlotOk(s.ps[q], q); NotMidway(s.ps[q], q); }
    }
  }

  lemma NotMidway(r: Proc, q: nat)
    requires SlotOk(r, q)
    ensures r.st.Runnable? ==> !Sweeps(r.pc) && !Waits(r.pc)
  {
  }

  lemma QuietSteps(s: Sys, e: Event)
    requires Shape(s) && Enabled(s, e) && !e.Do?
    ensures var s' := Apply(s, e);
            && (forall i: nat :: i < |s.ps| ==> Quiet(s.ps[i], s'.ps[i]))
            && s'.nextpid == s.nextpid && s'.exits == s.exits && s'.reaped == s.reaped
  {
  }

  // ----- the records

  predicate SameRecord(o: Proc, r: Proc) {
    r.pid == o.pid && r.xstate == o.xstate && (r.st.Zombie? <==> o.st.Zombie?) && (r.st.Unused? <==> o.st.Unused?)
  }

  /** What a step of p puts on record. */
  datatype Note = Nothing | Took | Went | Collected

  predicate Recorded(s: Sys, s': Sys, p: nat, f: Effect, n: Note)
    requires p < |s.ps| && f.x < |s.ps|
  {
    var o := s.ps[f.x];
    && f.me.pid == s.ps[p].pid && !f.me.st.Unused?
    && (n.Took? || s'.nextpid == s.nextpid) && (n.Went? || s'.exits == s.exits) && (n.Collected? || s'.reaped == s.reaped)
    && (f.me.st.Zombie? <==> n.Went?)
    && match n
       case Nothing =>
         f.x == p || SameRecord(o, f.other)
         || (o.st.Unused? && (f.other == Freed || (f.other.st.Runnable? && o.pid != 0 && f.other.pid == o.pid)))
       case Took => f.x != p && o.st.Unused? && f.other == o.(pid := s.nextpid) && s'.nextpid == s.nextpid + 1
       case Went => f.x != p && SameRecord(o, f.other) && s'.exits == s.exits[f.me.pid := f.me.xstate]
       case Collected => f.x != p && o.st.Zombie? && f.other == Freed && s'.reaped == s.reaped[o.pid := o.xstate]
  }

  function NoteOf(a: Act): (n: Note) {
    if a == ForkStep(ForkTake) then Took
    else if a.ExitStep? && a.x.ExitZombie? then Went
    else if a == WaitStep(WaitReap) then Collected
    else Nothing
  }

  lemma SchedRecord(s: Sys, s': Sys, c: nat, p: nat, a: SchedAct)
    requires Shape(s) && p < |s.ps| && SchedEnabled(s, p, a) && Placed(s, c, p) && SchedEffect(s, p, a).x < |s.ps|
    requires s' == Noted(s, p, SchedStep(a), s'.(nextpid := s.nextpid, exits := s.exits, reaped := s.reaped))
    ensures Recorded(s, s', p, SchedEffect(s, p, a), NoteOf(SchedStep(a)))
  {
  }

  lemma ForkRecord(s: Sys, s': Sys, c: nat, p: nat, a: ForkAct)
    requires Shape(s) && p < |s.ps| && ForkEnabled(s, p, a) && Placed(s, c, p) && ForkEffect(s, p, a).x < |s.ps|
    requires s' == Noted(s, p, ForkStep(a), s'.(nextpid := s.nextpid, exits := s.exits, reaped := s.reaped))
    ensures Recorded(s, s', p, ForkEffect(s, p, a), NoteOf(ForkStep(a)))
  {
  }

  lemma ExitRecord(s: Sys, s': Sys, c: nat, p: nat, a: ExitAct)
    requires Shape(s) && p < |s.ps| && ExitEnabled(s, p, a) && Placed(s, c, p) && ExitEffect(s, p, a).x < |s.ps|
    requires s' == Noted(s, p, ExitStep(a), s'.(nextpid := s.nextpid, exits := s.exits, reaped := s.reaped))
    ensures Recorded(s, s', p, ExitEffect(s, p, a), NoteOf(ExitStep(a)))
  {
  }

  lemma WaitRecord(s: Sys, s': Sys, c: nat, p: nat, a: WaitAct)
    requires Shape(s) && p < |s.ps| && WaitEnabled(s, p, a) && Placed(s, c, p) && WaitEffect(s, p, a).x < |s.ps|
    requires s' == Noted(s, p, WaitStep(a), s'.(nextpid := s.nextpid, exits := s.exits, reaped := s.reaped))
    ensures Recorded(s, s', p, WaitEffect(s, p, a), NoteOf(WaitStep(a)))
  {
  }

  lemma DoRecorded(s: Sys, c: nat, a: Act)
    requires SchedInv(s) && Enabled(s, Do(c, a))
    ensures var p := s.cpu[c].p;
            EffectOf(s, p, a).x < |s.ps| && Recorded(s, Apply(s, Do(c, a)), p, EffectOf(s, p, a), NoteOf(a))
  {
    var p := s.cpu[c].p;
    var s' := Apply(s, Do(c, a));
    DoFacts(s, c, a, 0);
    assert s' == Noted(s, p, a, s'.(nextpid := s.nextpid, exits := s.exits, reaped := s.reaped)) by { hide EffectOf; }
    hide SchedInv, Apply, SlotOk, PlaceOk, Recorded, Placed, NoteOf, Noted, SchedEffect, ForkEffect, ExitEffect, WaitEffect;
    match a
    case SchedStep(y) => SchedRecord(s, s', c, p, y);
    case ForkStep(f) => ForkRecord(s, s', c, p, f);
    case ExitStep(x) => ExitRecord(s, s', c, p, x);
    case WaitStep(w) => WaitRecord(s, s', c, p, w);
  }

  lemma PidKept(s: Sys, s': Sys, p: nat, f: Effect, n: Note, i: nat)
    requires Moved(s.ps, s'.ps, p, f) && Recorded(s, s', p, f, n) && i < |s.ps|
    requires PidOk(s, i) && PidOk(s, p) && PidOk(s, f.x) && s.nextpid > 0 && s.ps[p].st.Running?
    ensures PidOk(s', i)
  {
  }

  lemma PidsKept(s: Sys, s': Sys, p: nat, f: Effect, n: Note, i: nat, j: nat)
    requires Moved(s.ps, s'.ps, p, f) && Recorded(s, s', p, f, n) && i < |s.ps| && j < |s.ps|
    requires PidOk(s, i) && PidOk(s, j) && PidsDiffer(s, i, j)
    ensures PidsDiffer(s', i, j)
  {
  }

  lemma RecordKept(s: Sys, s': Sys, p: nat, f: Effect, n: Note, i: nat)
    requires Moved(s.ps, s'.ps, p, f) && Recorded(s, s', p, f, n) && i < |s.ps| && s.ps[p].st.Running?
    requires PidOk(s, i) && PidOk(s, p) && RecordOk(s, i) && RecordOk(s, p) && PidsDiffer(s, p, i) && PidsDiffer(s, f.x, i)
    requires HistoryOk(s, 0) && HistoryOk(s, s.nextpid) && HistoryOk(s, s.ps[p].pid) && PidOk(s, f.x)
    ensures RecordOk(s', i)
  {
    hide ZombieWith;
  }

  lemma HistoryKept(s: Sys, s': Sys, p: nat, f: Effect, n: Note, x: int)
    requires Moved(s.ps, s'.ps, p, f) && Recorded(s, s', p, f, n) && s.ps[p].st.Running?
    requires HistoryOk(s, x) && RecordOk(s, f.x) && RecordOk(s, p) && PidOk(s, p) && HistoryOk(s, s.ps[p].pid)
    ensures HistoryOk(s', x)
  {
    if x in s'.exits && x !in s'.reaped {
      if n.Went? && x == f.me.pid {
        assert s'.ps[p].st.Zombie? && s'.ps[p].pid == x;
      } else {
        assert ZombieWith(s, x);
        var i :| 0 <= i < |s.ps| && s.ps[i].st.Zombie? && s.ps[i].pid == x;
        assert i != p;
        assert s'.ps[i].st.Zombie? && s'.ps[i].pid == x;
      }
    }
  }

  lemma DoRecords(s: Sys, c: nat, a: Act)
    requires SchedInv(s) && RecordInv(s) && Enabled(s, Do(c, a))
    ensures RecordInv(Apply(s, Do(c, a)))
  {
    var s' := Apply(s, Do(c, a));
    var p := s.cpu[c].p;
    var f := EffectOf(s, p, a);
    DoRecorded(s, c, a);
    DoOrderly(s, c, a);
    assert s.nextpid > 0 && s.ps[p].st.Running?;
    assert PidOk(s, p) && PidOk(s, f.x) && RecordOk(s, p) && RecordOk(s, f.x);
    hide SchedInv, EffectOf, Apply, ActEnabled, SlotOk, PlaceOk, Orderly, Moved, Recorded, PidOk, PidsDiffer, RecordOk, HistoryOk;
    forall i: nat | i < |s.ps|
      ensures PidOk(s', i) && RecordOk(s', i)
    {
      PidKept(s, s', p, f, NoteOf(a), i);
      RecordKept(s, s', p, f, NoteOf(a), i);
    }
    forall i: nat, j: nat | i < |s.ps| && j < |s.ps|
      ensures PidsDiffer(s', i, j)
    {
      PidsKept(s, s', p, f, NoteOf(a), i, j);
    }
    forall x
      ensures HistoryOk(s', x)
    {
      HistoryKept(s, s', p, f, NoteOf(a), x);
    }
  }

  lemma QuietRecords(s: Sys, s': Sys)
    requires Shape(s) && RecordInv(s) && Shape(s') && |s'.ps| == |s.ps|
    requires forall i: nat :: i < |s.ps| ==> Quiet(s.ps[i], s'.ps[i])
    requires s'.nextpid == s.nextpid && s'.exits == s.exits && s'.reaped == s.reaped
    ensures RecordInv(s')
  {
    forall i: nat | i < |s.ps|
      ensures PidOk(s', i) && RecordOk(s', i)
    {
      assert PidOk(s, i) && RecordOk(s, i) && Quiet(s.ps[i], s'.ps[i]);
    }
    forall i: nat, j: nat | i < |s.ps| && j < |s.ps|
      ensures PidsDiffer(s', i, j)
    {
      assert PidsDiffer(s, i, j);
      assert Quiet(s.ps[i], s'.ps[i]) && Quiet(s.ps[j], s'.ps[j]);
    }
    forall x
      ensures HistoryOk(s', x)
    {
      assert HistoryOk(s, x);
      if x in s.exits && x !in s.reaped {
        var i :| 0 <= i < |s.ps| && s.ps[i].st.Zombie? && s.ps[i].pid == x;
        assert Quiet(s.ps[i], s'.ps[i]);
        assert s'.ps[i].st.Zombie? && s'.ps[i].pid == x;
      }
    }
  }

  lemma StepInv(s: Sys, e: Event)
    requires Inv(s) && Enabled(s, e)
    ensures Inv(Apply(s, e))
  {
    InvShape(s);
    hide SchedInv, FamilyInv, RecordInv, Apply, Enabled;
    StepSched(s, e);
    if e.Do? {
      DoFamily(s, e.c, e.a);
      DoRecords(s, e.c, e.a);
    } else {
      QuietSteps(s, e);
      QuietFamily(s, Apply(s, e));
      QuietRecords(s, Apply(s, e));
    }
  }

  // ----- whole runs

  /** After userinit: init alone, runnable, with pid 1. */
  predicate Boot(s: Sys) {
    && Shape(s) && s.nextpid == 2 && s.exits == map[] && s.reaped == map[]
    && s.ps[INIT] == Proc(Runnable, NoChan, None, 1, 0, false, Resuming(Outside))
    && (forall i :: 0 <= i < |s.ps| && i != INIT ==> s.ps[i] == Freed)
    && (forall i :: 0 <= i < |s.ps| ==> s.plock[i].None?)
    && (forall c :: 0 <= c < |s.cpu| ==> s.cpu[c].Idle?)
  }

  lemma BootInv(s: Sys)
    requires Boot(s)
    ensures Inv(s)
  {
  }

  ghost predicate Run(s: Sys, es: seq<Event>)
    requires Shape(s)
    decreases |es|
  {
    es == [] || (Enabled(s, es[0]) && Run(Apply(s, es[0]), es[1..]))
  }

  ghost function Exec(s: Sys, es: seq<Event>): (r: Sys)
    requires Shape(s) && Run(s, es)
    ensures Shape(r) && |r.ps| == |s.ps| && |r.cpu| == |s.cpu|
    decreases |es|
  {
    if es == [] then s else Exec(Apply(s, es[0]), es[1..])
  }

  lemma {:induction false} RunInv(s: Sys, es: seq<Event>)
    requires Inv(s) && Run(s, es)
    ensures Inv(Exec(s, es))
    decreases |es|
  {
    if es != [] {
      hide Inv, Apply, Enabled;
      InvShape(s);
      StepInv(s, es[0]);
      RunInv(Apply(s, es[0]), es[1..]);
    }
  }

  lemma InvShape(s: Sys)
    requires Inv(s)
    ensures Shape(s)
  {
  }

  /** c->proc == p. */
  predicate HasProc(s: Sys, c: nat, p: nat)
    requires c < |s.cpu|
  {
    Serves(s.cpu[c], p)
  }

  /** In every run, while p->lock is free: p is RUNNING exactly when some CPU's c->proc is
      p, and then just one CPU's is. */
  lemma RunningIffOnCpu(s: Sys, es: seq<Event>, p: nat)
    requires Boot(s) && Run(s, es) && p < |s.ps|
    ensures var r := Exec(s, es);
            Free(r, p) ==>
              && (r.ps[p].st.Running? <==> exists c: nat :: c < |r.cpu| && HasProc(r, c, p))
              && (forall c: nat, d: nat :: c < |r.cpu| && d < |r.cpu| && HasProc(r, c, p) && HasProc(r, d, p) ==> c == d)
  {
    hide Run, Exec;
    BootInv(s);
    RunInv(s, es);
    var r := Exec(s, es);
    if Free(r, p) {
      if r.ps[p].st.Running? {
        assert HasCpu(r, p);
        var c :| 0 <= c < |r.cpu| && r.cpu[c] == On(p);
        assert HasProc(r, c, p);
      }
      forall c: nat | c < |r.cpu| && HasProc(r, c, p)
        ensures r.ps[p].st.Running?
      {
        assert CpuOk(r, c) && LockOk(r, c, p);
      }
      forall c: nat, d: nat | c < |r.cpu| && d < |r.cpu| && HasProc(r, c, p) && HasProc(r, d, p)
        ensures c == d
      {
        assert OneCpu(r, c, d);
      }
    }
  }

  /** In every run, a process other than init that exists has a living parent. */
  lemma NoOrphans(s: Sys, es: seq<Event>, q: nat)
    requires Boot(s) && Run(s, es) && q < |s.ps| && q != INIT && !Exec(s, es).ps[q].st.Unused?
    ensures var r := Exec(s, es).ps;
            && r[q].parent.Some? && r[q].parent.value < |r|
            && !r[r[q].parent.value].st.Unused? && !r[r[q].parent.value].st.Zombie?
  {
    hide Run, Exec;
    BootInv(s);
    RunInv(s, es);
    assert ParentOk(Exec(s, es).ps, q);
  }

  /** In every run, a process other than init that sleeps in wait has no zombie child. */
  lemma WaitMissesNoExit(s: Sys, es: seq<Event>, r: nat, j: nat)
    requires Boot(s) && Run(s, es) && r < |s.ps| && j < |s.ps| && r != INIT
    ensures var ps := Exec(s, es).ps;
            ps[r].st.Sleeping? && ps[r].chan == OnProc(r) && ps[j].parent == Some(r) ==> !ps[j].st.Zombie?
  {
    hide Run, Exec;
    BootInv(s);
    RunInv(s, es);
    var t := Exec(s, es);
    assert WaitOk(t.ps, r, j) && SlotOk(t.ps[r], r);
  }

  // ----- exits and waits, in the order of the run

  /** The pid and status of an exit, if e is one. */
  function ExitOf(s: Sys, e: Event): (l: seq<(int, int)>)
    requires Shape(s) && Enabled(s, e)
  {
    match e
    case Do(c, ExitStep(ExitZombie(v))) => [(s.ps[s.cpu[c].p].pid, v)]
    case _ => []
  }

  /** What a wait returns, if e is a successful one. */
  function ReturnOf(s: Sys, e: Event): (l: seq<(int, int)>)
    requires Shape(s) && Enabled(s, e)
  {
    match e
    case Do(c, WaitStep(WaitReap)) => var z := s.ps[s.ps[s.cpu[c].p].pc.i]; [(z.pid, z.xstate)]
    case _ => []
  }

  ghost function Exited(s: Sys, es: seq<Event>): (l: seq<(int, int)>)
    requires Shape(s) && Run(s, es)
    decreases |es|
  {
    if es == [] then [] else ExitOf(s, es[0]) + Exited(Apply(s, es[0]), es[1..])
  }

  ghost function Returned(s: Sys, es: seq<Event>): (l: seq<(int, int)>)
    requires Shape(s) && Run(s, es)
    decreases |es|
  {
    if es == [] then [] else ReturnOf(s, es[0]) + Returned(Apply(s, es[0]), es[1..])
  }

  ghost predicate Fresh(l: seq<(int, int)>, m: map<int, int>) {
    && (forall i, j :: 0 <= i < j < |l| ==> l[i].0 != l[j].0)
    && forall i :: 0 <= i < |l| ==> l[i].0 !in m
  }

  /** m' is m with the pairs of l. */
  ghost predicate Extended(m: map<int, int>, l: seq<(int, int)>, m': map<int, int>) {
    forall x, v :: (x in m' && m'[x] == v) <==> ((x in m && m[x] == v) || (x, v) in l)
  }

  /** h adds at most one pair, with a key that m does not have. */
  predicate OneMore(m: map<int, int>, h: seq<(int, int)>, m1: map<int, int>) {
    if h == [] then m1 == m else |h| == 1 && h[0].0 !in m && m1 == m[h[0].0 := h[0].1]
  }

  lemma ExtendOne(m: map<int, int>, h: seq<(int, int)>, m1: map<int, int>, l: seq<(int, int)>, m': map<int, int>)
    requires OneMore(m, h, m1) && Fresh(l, m1) && Extended(m1, l, m')
    ensures Fresh(h + l, m) && Extended(m, h + l, m')
  {
    var hl := h + l;
    forall i, j | 0 <= i < j < |hl|
      ensures hl[i].0 != hl[j].0
    {
      if h != [] && i == 0 {
        assert hl[j] == l[j - 1];
      } else {
        assert hl[i] == l[i - |h|] && hl[j] == l[j - |h|];
      }
    }
    forall x, v
      ensures (x in m' && m'[x] == v) <==> ((x in m && m[x] == v) || (x, v) in hl)
    {
      assert (x, v) in hl <==> (x, v) in h || (x, v) in l;
      assert h != [] ==> ((x, v) in h <==> (x, v) == h[0]);
    }
  }

  lemma StepHistory(s: Sys, e: Event)
    requires Inv(s) && Enabled(s, e)
    ensures OneMore(s.exits, ExitOf(s, e), Apply(s, e).exits) && OneMore(s.reaped, ReturnOf(s, e), Apply(s, e).reaped)
  {
    if e.Do? {
      var p := s.cpu[e.c].p;
      assert CpuOk(s, e.c) && RecordOk(s, p);
      if e.a == WaitStep(WaitReap) {
        assert RecordOk(s, s.ps[p].pc.i);
      }
    }
    hide Inv, EffectOf;
  }

  lemma {:induction false} Histories(s: Sys, es: seq<Event>)
    requires Inv(s) && Run(s, es)
    ensures Fresh(Exited(s, es), s.exits) && Extended(s.exits, Exited(s, es), Exec(s, es).exits)
    ensures Fresh(Returned(s, es), s.reaped) && Extended(s.reaped, Returned(s, es), Exec(s, es).reaped)
    decreases |es|
  {
    if es != [] {
      InvShape(s);
      hide Inv, Apply, Enabled, Fresh, Extended, ExitOf, ReturnOf, OneMore;
      var e := es[0];
      var s1 := Apply(s, e);
      StepInv(s, e);
      StepHistory(s, e);
      Histories(s1, es[1..]);
      ExtendOne(s.exits, ExitOf(s, e), s1.exits, Exited(s1, es[1..]), Exec(s, es).exits);
      ExtendOne(s.reaped, ReturnOf(s, e), s1.reaped, Returned(s1, es[1..]), Exec(s, es).reaped);
    }
  }

  /** Over a whole run: no process exits twice, no two waits return the same process, what
      a wait returns is the pid and status of an exit, and every exit has either been
      returned or is that of a process that is still a zombie. */
  lemma EachZombieCollectedOnce(s: Sys, es: seq<Event>)
    requires Boot(s) && Run(s, es)
    ensures var out, ret := Exited(s, es), Returned(s, es);
            && (forall i, j :: 0 <= i < j < |out| ==> out[i].0 != out[j].0)
            && (forall i, j :: 0 <= i < j < |ret| ==> ret[i].0 != ret[j].0)
            && (forall e :: e in ret ==> e in out)
            && (forall e :: e in out ==> e in ret || ZombieWith(Exec(s, es), e.0))
  {
    hide Run, Exec, Exited, Returned;
    BootInv(s);
    RunInv(s, es);
    Histories(s, es);
    var r, out, ret := Exec(s, es), Exited(s, es), Returned(s, es);
    assert s.exits == map[] && s.reaped == map[];
    assert RecordInv(r);
    hide *;
    MatchedUp(r, out, ret);
  }

  lemma MatchedUp(r: Sys, out: seq<(int, int)>, ret: seq<(int, int)>)
    requires Shape(r) && RecordInv(r)
    requires Fresh(out, map[]) && Extended(map[], out, r.exits) && Fresh(ret, map[]) && Extended(map[], ret, r.reaped)
    ensures forall i, j :: 0 <= i < j < |out| ==> out[i].0 != out[j].0
    ensures forall i, j :: 0 <= i < j < |ret| ==> ret[i].0 != ret[j].0
    ensures forall e :: e in ret ==> e in out
    ensures forall e :: e in out ==> e in ret || ZombieWith(r, e.0)
  {
    hide PidOk, PidsDiffer, RecordOk, ZombieWith;
    forall e | e in ret
      ensures e in out
    {
      var (x, v) := e;
      assert x in r.reaped && r.reaped[x] == v && HistoryOk(r, x);
    }
    forall e | e in out
      ensures e in ret || ZombieWith(r, e.0)
    {
      var (x, v) := e;
      assert x in r.exits && r.exits[x] == v && HistoryOk(r, x);
      if x in r.reaped {
        assert (x, r.reaped[x]) in ret;
      }
    }
  }

  /** The slot that a successful wait frees is a zombie child of the caller, whose exit is on
      record and has not been collected; afterwards the slot is free and the exit collected. */
  lemma WaitCollectsOwnChild(s: Sys, c: nat)
    requires Inv(s) && Enabled(s, Do(c, WaitStep(WaitReap)))
    ensures var p := s.cpu[c].p;
            var i := s.ps[p].pc.i;
            var z := s.ps[i];
            var s' := Apply(s, Do(c, WaitStep(WaitReap)));
            && i != p && z.parent == Some(p) && z.st.Zombie?
            && z.pid in s.exits && s.exits[z.pid] == z.xstate && z.pid !in s.reaped
            && s'.ps[i] == Freed && s'.plock[i].None? && z.pid in s'.reaped && s'.reaped[z.pid] == z.xstate
  {
    var p := s.cpu[c].p;
    var i := s.ps[p].pc.i;
    assert CpuOk(s, c) && PlaceOk(s.ps, p) && RecordOk(s, i);
    hide Inv;
  }
}
