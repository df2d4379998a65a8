/** What a process on a CPU can do next: its code decides, and waits for locks only.  And
    what kill leaves is not lost. */
module ProcProgress {
  import opened Common
  import opened ProcMachine
  import opened ProcRuns

  // ----- the next step

  /** The process lock that the code at k is about to acquire. */
  function Wants(k: Pc, slots: nat, p: nat): (q: Option<nat>) {
    match k
    case ForkScan(i) => if i < slots then Some(i) else None
    case ExitWoke => Some(p)
    case ExitRead(op) => Some(op)
    case ExitParent(_) => Some(p)
    case ReparentAt(_, i) => Some(i)
    case WaitKid(i, _) => Some(i)
    case _ => None
  }

  /** A step of the code, not of the timer. */
  predicate Own(a: Act) { a != SchedStep(YieldLock) }

  ghost predicate CanGoOn(s: Sys, p: nat)
    requires Shape(s) && p < |s.ps|
  {
    exists a: Act :: Own(a) && ActEnabled(s, p, a)
  }

  /** The step that the code at p's place takes when it can. */
  function NextAct(s: Sys, p: nat): (a: Act)
    requires Shape(s) && p < |s.ps|
  {
    var k := s.ps[p].pc;
    match k
    case User => ForkStep(ForkStart)
    case YieldHeld(_) => SchedStep(YieldSwitch)
    case SleepHeld => SchedStep(SleepSwitch(0))
    case Resuming(_) => SchedStep(Resume)
    case ResumingSleep => SchedStep(Resume)
    case ForkScan(i) => ForkStep(if i < |s.ps| then ForkLock else ForkNone)
    case ForkAt(i) => ForkStep(if i < |s.ps| && s.ps[i].st.Unused? then ForkTake else ForkNext)
    case ForkMade(_) => ForkStep(ForkParent)
    case ForkReady(_) => ForkStep(ForkGo)
    case ExitWoke => ExitStep(ExitCopy)
    case ExitRead(_) => ExitStep(ExitLockParent)
    case ExitParent(_) => ExitStep(ExitLockSelf)
    case Reparent(_, i) => ExitStep(if i < |s.ps| then ReparentTest else ExitZombie(0))
    case ReparentAt(_, _) => ExitStep(ReparentSet)
    case Dead => SchedStep(Resume)
    case WaitScan(i, kids) =>
      WaitStep(if i < |s.ps| then WaitTest else if kids && !s.ps[p].killed then WaitSleep else WaitNone)
    case WaitKid(_, _) => WaitStep(WaitLock)
    case WaitAt(i) => WaitStep(if i < |s.ps| && s.ps[i].st.Zombie? then WaitReap else WaitSkip)
    case WaitAsleep => WaitStep(WaitResume)
  }

  lemma GoesOnIff(s: Sys, p: nat)
    requires Shape(s) && p < |s.ps| && s.ps[p].st.Running? && SlotOk(s.ps[p], p) && PlaceOk(s.ps, p)
    requires p != INIT ==> s.ps[p].parent.Some?
    ensures var q := Wants(s.ps[p].pc, |s.ps|, p);
            CanGoOn(s, p) <==> q.None? || Free(s, q.value)
  {
    var k := s.ps[p].pc;
    var q := Wants(k, |s.ps|, p);
    if q.None? || Free(s, q.value) {
      assert Own(NextAct(s, p)) && ActEnabled(s, p, NextAct(s, p));
    } else {
      forall a: Act | Own(a)
        ensures !ActEnabled(s, p, a)
      {
      }
    }
  }

  /** In every run, a process on a CPU can take a step of its own code, unless the lock that
      this code is about to acquire is held. */
  lemma StuckOnlyOnLocks(s: Sys, es: seq<Event>, c: nat)
    requires Boot(s) && Run(s, es) && c < |s.cpu| && Exec(s, es).cpu[c].On?
    ensures var t := Exec(s, es);
            var p := t.cpu[c].p;
            p < |t.ps| && (CanGoOn(t, p) <==> var q := Wants(t.ps[p].pc, |t.ps|, p); q.None? || Free(t, q.value))
  {
    hide Run, Exec;
    BootInv(s);
    RunInv(s, es);
    var t := Exec(s, es);
    var p := t.cpu[c].p;
    assert CpuOk(t, c) && ParentOk(t.ps, p) && SlotOk(t.ps[p], p) && PlaceOk(t.ps, p);
    hide Inv, CanGoOn;
    GoesOnIff(t, p);
  }

  /** Two acts that differ only in what the outside decides: which call a program makes, the
      status or channel it gives, whether memory lasts in fork and whether wait's copyout
      succeeds. */
  predicate OutsideDecides(k: Pc, a: Act, b: Act) {
    || k.User? || k.ForkMade? || (a.SchedStep? && a.y.SleepSwitch? && b.SchedStep? && b.y.SleepSwitch?)
    || (a.ExitStep? && a.x.ExitZombie? && b.ExitStep? && b.x.ExitZombie?)
    || {a, b} == {WaitStep(WaitReap), WaitStep(WaitCopyFail)}
  }

  /** The code's tests leave one way to go on. */
  lemma CodeDecides(s: Sys, p: nat, a: Act, b: Act)
    requires Shape(s) && p < |s.ps| && ActEnabled(s, p, a) && ActEnabled(s, p, b) && Own(a) && Own(b) && a != b
    ensures OutsideDecides(s.ps[p].pc, a, b)
  {
  }

  // ----- kill is remembered

  /** The slot still has its pid and mark, or has been freed, or has a new pid. */
  predicate MarkKept(o: Proc, r: Proc, next: int) {
    (r.pid == o.pid && (o.killed ==> r.killed)) || r.pid == 0 || r.pid == next
  }

  lemma SchedMark(s: Sys, p: nat, a: SchedAct)
    requires Shape(s) && p < |s.ps| && SchedEnabled(s, p, a)
    ensures var f := SchedEffect(s, p, a); MarkKept(s.ps[p], f.me, s.nextpid) && f.x == p
  {
  }

  lemma ForkMark(s: Sys, p: nat, a: ForkAct)
    requires Shape(s) && p < |s.ps| && ForkEnabled(s, p, a)
    ensures var f := ForkEffect(s, p, a);
            MarkKept(s.ps[p], f.me, s.nextpid) && (f.x != p ==> f.x < |s.ps| && MarkKept(s.ps[f.x], f.other, s.nextpid))
  {
  }

  lemma ExitMark(s: Sys, p: nat, a: ExitAct)
    requires Shape(s) && p < |s.ps| && ExitEnabled(s, p, a)
    ensures var f := ExitEffect(s, p, a);
            MarkKept(s.ps[p], f.me, s.nextpid) && (f.x != p ==> f.x < |s.ps| && MarkKept(s.ps[f.x], f.other, s.nextpid))
  {
  }

  lemma WaitMark(s: Sys, p: nat, a: WaitAct)
    requires Shape(s) && p < |s.ps| && WaitEnabled(s, p, a)
    ensures var f := WaitEffect(s, p, a);
            MarkKept(s.ps[p], f.me, s.nextpid) && (f.x != p ==> f.x < |s.ps| && MarkKept(s.ps[f.x], f.other, s.nextpid))
  {
  }

  lemma StepMark(s: Sys, e: Event, i: nat)
    requires Shape(s) && Enabled(s, e) && i < |s.ps|
    ensures MarkKept(s.ps[i], Apply(s, e).ps[i], s.nextpid) && Apply(s, e).nextpid >= s.nextpid
  {
    if e.Do? {
      hide SchedEffect, ForkEffect, ExitEffect, WaitEffect, SchedEnabled, ForkEnabled, ExitEnabled, WaitEnabled;
      var p := s.cpu[e.c].p;
      match e.a
      case SchedStep(y) => SchedMark(s, p, y);
      case ForkStep(f) => ForkMark(s, p, f);
      case ExitStep(x) => ExitMark(s, p, x);
      case WaitStep(w) => WaitMark(s, p, w);
    }
  }

  /** Once killed, a process stays marked for as long as it has its pid, over every run. */
  lemma {:induction false} KillIsRemembered(s: Sys, es: seq<Event>, i: nat, pid: int)
    requires Shape(s) && Run(s, es) && i < |s.ps| && 0 < pid < s.nextpid
    requires s.ps[i].pid == pid ==> s.ps[i].killed
    ensures Exec(s, es).ps[i].pid == pid ==> Exec(s, es).ps[i].killed
    decreases |es|
  {
    if es != [] {
      hide Apply, Enabled;
      StepMark(s, es[0], i);
      KillIsRemembered(Apply(s, es[0]), es[1..], i, pid);
    }
  }
}
