/** sleep(), wakeup() and the sleeplocks built on them, as a transition system whose steps
    are the acquisitions and releases of spinlocks and what is done in between.

    A channel c has a spinlock and a word that the spinlock protects; the condition that
    sleepers on c wait for is that the word is 0.  Any number of processes run at a time. */
module SleepWakeup {
  import opened Common

  datatype RunState = Running | Runnable | Sleeping

  /** Where a process is in its kernel code. */
  datatype Pc =
    | Out
    | Want(c: nat)                              // acquire(lk), to wait for the condition
    | Test(c: nat)                              // holds lk
    | Doze(c: nat)                              // in sleep(): acquire(&p->lock)
    | Both(c: nat)                              // holds lk and p->lock
    | Down(c: nat)                              // has released lk, still holds p->lock
    | Asleep(c: nat)                            // in sched()
    | Woken(c: nat)                             // back from sched(), holding p->lock
    | In(c: nat)                                // holds lk, has seen the condition true
    | Signal(c: nat)                            // acquire(lk), to change the word
    | Hold(c: nat)                              // holds lk
    | Scan(c: nat, i: nat, keep: bool)          // in wakeup(c), at proc[i]; keep: holds lk
    | ScanIn(c: nat, i: nat, keep: bool)        // holds proc[i].lock

  datatype Sys = Sys(
    st: seq<RunState>,              // p->state
    chan: seq<Option<nat>>,         // p->chan
    plock: seq<Option<nat>>,        // holder of p->lock
    pc: seq<Pc>,
    spin: seq<Option<nat>>,         // holder of each channel's spinlock
    word: seq<int>)

  datatype Event =
    | Enter(p: nat, c: nat)         // starts to wait for c's condition
    | Call(p: nat, c: nat)          // starts to change c's word and wake its sleepers
    | Acquire(p: nat)               // takes the spinlock it wants
    | TestWord(p: nat)
    | LockSelf(p: nat)              // sleep: acquire(&p->lock)
    | Unlock(p: nat)                // sleep: release(lk)
    | Switch(p: nat)                // sleep: chan, SLEEPING, sched(); the scheduler releases p->lock
    | Dispatch(p: nat)              // the scheduler runs p
    | Resume(p: nat)                // sleep: chan = 0, release(&p->lock)
    | Leave(p: nat, v: int)         // sets the word and releases lk
    | Store(p: nat, v: int)         // sets the word and calls wakeup
    | DropLock(p: nat)              // releases lk before wakeup is done
    | ScanLock(p: nat)              // wakeup: acquire(&p->lock)
    | ScanTest(p: nat)              // wakeup: test, set RUNNABLE, release
    | ScanDone(p: nat)              // wakeup is over; lk is released if it still is held
    | Preempt(p: nat)               // yield
    | Kill(p: nat)                  // kill: a sleeper becomes RUNNABLE

  predicate Shape(s: Sys) {
    && |s.chan| == |s.st| && |s.plock| == |s.st| && |s.pc| == |s.st| && |s.word| == |s.spin|
  }

  /** p's code holds channel c's spinlock. */
  predicate HoldsSpin(k: Pc, c: nat) {
    match k
    case Test(d) => d == c
    case Doze(d) => d == c
    case Both(d) => d == c
    case In(d) => d == c
    case Hold(d) => d == c
    case Scan(d, _, keep) => keep && d == c
    case ScanIn(d, _, keep) => keep && d == c
    case _ => false
  }

  /** p's code holds its own p->lock. */
  predicate HoldsSelf(k: Pc) { k.Both? || k.Down? || k.Woken? }

  predicate NoSpinlock(k: Pc) { k.Out? || k.Want? || k.Signal? || (k.Scan? && !k.keep) }

  predicate Enabled(s: Sys, e: Event)
    requires Shape(s)
  {
    && e.p < |s.st|
    && var k := s.pc[e.p];
    && (!e.Dispatch? && !e.Kill? ==> s.st[e.p].Running?)
    && match e
       case Enter(_, c) => k.Out? && c < |s.spin|
       case Call(_, c) => k.Out? && c < |s.spin|
       case Acquire(_) => (k.Want? || k.Signal?) && k.c < |s.spin| && s.spin[k.c].None?
       case TestWord(_) => k.Test? && k.c < |s.spin|
       case LockSelf(p) => k.Doze? && s.plock[p].None?
       case Unlock(_) => k.Both? && k.c < |s.spin|
       case Switch(_) => k.Down?
       case Dispatch(p) => s.st[p].Runnable? && s.plock[p].None?
       case Resume(_) => k.Woken?
       case Leave(_, _) => k.In? && k.c < |s.spin|
       case Store(_, _) => k.Hold? && k.c < |s.spin|
       case DropLock(_) => k.Scan? && k.keep && k.c < |s.spin|
       case ScanLock(_) => k.Scan? && k.i < |s.st| && s.plock[k.i].None?
       case ScanTest(_) => k.ScanIn? && k.i < |s.st|
       case ScanDone(_) => k.Scan? && k.i == |s.st| && k.c < |s.spin|
       case Preempt(p) => NoSpinlock(k) && s.plock[p].None?
       case Kill(p) => s.plock[p].None?
  }

  function At(s: Sys, p: nat, k: Pc): (r: Sys)
    requires Shape(s) && p < |s.st|
  {
    s.(pc := s.pc[p := k])
  }

  function Apply(s: Sys, e: Event): (r: Sys)
    requires Shape(s) && Enabled(s, e)
  {
    var k := s.pc[e.p];
    match e
    case Enter(p, c) => At(s, p, Want(c))
    case Call(p, c) => At(s, p, Signal(c))
    case Acquire(p) => At(s, p, if k.Want? then Test(k.c) else Hold(k.c)).(spin := s.spin[k.c := Some(p)])
    case TestWord(p) => At(s, p, if s.word[k.c] == 0 then In(k.c) else Doze(k.c))
    case LockSelf(p) => At(s, p, Both(k.c)).(plock := s.plock[p := Some(p)])
    case Unlock(p) => At(s, p, Down(k.c)).(spin := s.spin[k.c := None])
    case Switch(p) =>
      At(s, p, Asleep(k.c)).(chan := s.chan[p := Some(k.c)], st := s.st[p := Sleeping], plock := s.plock[p := None])
    case Dispatch(p) =>
      if k.Asleep? then At(s, p, Woken(k.c)).(st := s.st[p := Running], plock := s.plock[p := Some(p)])
      else s.(st := s.st[p := Running])
    case Resume(p) => At(s, p, Want(k.c)).(chan := s.chan[p := None], plock := s.plock[p := None])
    case Leave(p, v) => At(s, p, Out).(word := s.word[k.c := v], spin := s.spin[k.c := None])
    case Store(p, v) => At(s, p, Scan(k.c, 0, true)).(word := s.word[k.c := v])
    case DropLock(p) => At(s, p, Scan(k.c, k.i, false)).(spin := s.spin[k.c := None])
    case ScanLock(p) => At(s, p, ScanIn(k.c, k.i, k.keep)).(plock := s.plock[k.i := Some(p)])
    case ScanTest(p) =>
      At(s, p, Scan(k.c, k.i + 1, k.keep)).(
      plock := s.plock[k.i := None],
      st := if s.st[k.i].Sleeping? && s.chan[k.i] == Some(k.c) then s.st[k.i := Runnable] else s.st)
    case ScanDone(p) => At(s, p, Out).(spin := if k.keep then s.spin[k.c := None] else s.spin)
    case Preempt(p) => s.(st := s.st[p := Runnable])
    case Kill(p) => s.(st := if s.st[p].Sleeping? then s.st[p := Runnable] else s.st)
  }

  // ----- the invariant

  /** A wakeup(c) under way has yet to reach proc[p]. */
  predicate Coming(k: Pc, c: nat, p: nat) {
    (k.Scan? || k.ScanIn?) && k.c == c && k.i <= p
  }

  ghost predicate WakeupComing(s: Sys, c: nat, p: nat) {
    exists q :: 0 <= q < |s.pc| && Coming(s.pc[q], c, p)
  }

  /** The channel p is going to sleep or sleeping on. */
  predicate Waiting(s: Sys, p: nat, c: nat)
    requires Shape(s) && p < |s.st|
  {
    (s.pc[p].Down? && s.pc[p].c == c) || (s.st[p].Sleeping? && s.chan[p] == Some(c))
  }

  /** Nobody sleeps on a condition that holds, unless a wakeup is on its way. */
  ghost predicate NoLostWakeup(s: Sys)
    requires Shape(s)
  {
    forall p: nat, c: nat :: p < |s.st| && c < |s.spin| && Waiting(s, p, c) && s.word[c] == 0 ==> WakeupComing(s, c, p)
  }

  /** The spinlocks held are those the code says are held. */
  predicate SpinOk(s: Sys, p: nat, c: nat)
    requires Shape(s) && p < |s.st| && c < |s.spin|
  {
    s.spin[c] == Some(p) <==> HoldsSpin(s.pc[p], c)
  }

  predicate PlockOk(s: Sys, p: nat, q: nat)
    requires Shape(s) && p < |s.st| && q < |s.st|
  {
    s.plock[q] == Some(p) <==> (p == q && HoldsSelf(s.pc[p])) || (s.pc[p].ScanIn? && s.pc[p].i == q)
  }

  ghost predicate LocksOk(s: Sys)
    requires Shape(s)
  {
    && (forall p: nat, c: nat :: p < |s.st| && c < |s.spin| ==> SpinOk(s, p, c))
    && (forall p: nat, q: nat :: p < |s.st| && q < |s.st| ==> PlockOk(s, p, q))
  }

  /** What p's place in the code says about its state and about the word it tested. */
  predicate PlaceOk(s: Sys, p: nat)
    requires Shape(s) && p < |s.st|
  {
    var k := s.pc[p];
    && (k.Out? || k.c < |s.spin|)
    && (k.Asleep? ==> s.chan[p] == Some(k.c) && !s.st[p].Running?)
    && (k.Woken? ==> s.st[p].Running?)
    && (!k.Asleep? ==> !s.st[p].Sleeping?)
    && (s.st[p].Runnable? ==> k.Asleep? || NoSpinlock(k))
    && (k.Doze? || k.Both? ==> k.c < |s.spin| && s.word[k.c] != 0)
    && (k.In? ==> k.c < |s.spin| && s.word[k.c] == 0)
    && (k.Scan? || k.ScanIn? ==> k.i <= |s.st|)
    && (k.ScanIn? ==> k.i < |s.st|)
  }

  ghost predicate Inv(s: Sys) {
    && Shape(s) && LocksOk(s) && NoLostWakeup(s)
    && forall p: nat :: p < |s.st| ==> PlaceOk(s, p)
  }

  /** All processes outside, all locks free. */
  predicate Init(s: Sys) {
    && Shape(s)
    && (forall p :: 0 <= p < |s.st| ==> !s.st[p].Sleeping? && s.pc[p] == Out && s.plock[p].None? && s.chan[p].None?)
    && forall c :: 0 <= c < |s.spin| ==> s.spin[c].None?
  }

  lemma InitInv(s: Sys)
    requires Init(s)
    ensures Inv(s)
  {
  }

  lemma StepSpin(s: Sys, e: Event, p: nat, c: nat)
    requires Inv(s) && Enabled(s, e) && p < |s.st| && c < |s.spin|
    ensures SpinOk(Apply(s, e), p, c)
  {
    var q := e.p;
    assert PlaceOk(s, q) && SpinOk(s, p, c) && SpinOk(s, q, c);
    hide Inv;
  }

  lemma StepPlock(s: Sys, e: Event, p: nat, q: nat)
    requires Inv(s) && Enabled(s, e) && p < |s.st| && q < |s.st|
    ensures PlockOk(Apply(s, e), p, q)
  {
    var r := e.p;
    assert PlaceOk(s, r) && PlockOk(s, p, q) && PlockOk(s, r, q);
    hide Inv;
  }

  /** Two processes are never both under one channel's spinlock. */
  lemma OneInside(s: Sys, p: nat, q: nat, c: nat)
    requires Inv(s) && p < |s.st| && q < |s.st| && c < |s.spin|
    requires HoldsSpin(s.pc[p], c) && HoldsSpin(s.pc[q], c)
    ensures p == q
  {
    assert SpinOk(s, p, c) && SpinOk(s, q, c);
  }

  lemma StepPlace(s: Sys, e: Event, p: nat)
    requires Inv(s) && Enabled(s, e) && p < |s.st|
    ensures PlaceOk(Apply(s, e), p)
  {
    var q := e.p;
    assert PlaceOk(s, p) && PlaceOk(s, q);
    if s.pc[p].Doze? || s.pc[p].Both? || s.pc[p].In? {
      assert SpinOk(s, p, s.pc[p].c) && SpinOk(s, q, s.pc[p].c);
    }
    hide Inv;
    if p == q {
      OwnPlace(s, e);
    } else {
      OtherPlace(s, e, p);
    }
  }

  lemma OwnPlace(s: Sys, e: Event)
    requires Shape(s) && Enabled(s, e) && PlaceOk(s, e.p)
    ensures PlaceOk(Apply(s, e), e.p)
  {
  }

  lemma OtherPlace(s: Sys, e: Event, p: nat)
    requires Shape(s) && Enabled(s, e) && p < |s.st| && p != e.p && PlaceOk(s, p)
    requires s.pc[p].Doze? || s.pc[p].Both? || s.pc[p].In? ==>
               SpinOk(s, p, s.pc[p].c) && SpinOk(s, e.p, s.pc[p].c)
    ensures PlaceOk(Apply(s, e), p)
  {
  }

  lemma StepNoLost(s: Sys, e: Event, p: nat, c: nat)
    requires Inv(s) && Enabled(s, e) && p < |s.st| && c < |s.spin|
    ensures var s' := Apply(s, e); Waiting(s', p, c) && s'.word[c] == 0 ==> WakeupComing(s', c, p)
  {
    var s' := Apply(s, e);
    if Waiting(s', p, c) && s'.word[c] == 0 {
      assert PlaceOk(s, p) && PlaceOk(s, e.p);
      if Waiting(s, p, c) && s.word[c] == 0 {
        assert WakeupComing(s, c, p);
        var q :| 0 <= q < |s.pc| && Coming(s.pc[q], c, p);
        assert PlockOk(s, q, p) && PlockOk(s, p, p);
        hide Inv;
        StillComing(s, e, p, c, q);
      } else {
        hide Inv;
        NewlyDue(s, e, p, c);
      }
    }
  }

  /** A wakeup on its way passes p only by waking it. */
  lemma StillComing(s: Sys, e: Event, p: nat, c: nat, q: nat)
    requires Shape(s) && Enabled(s, e) && p < |s.st| && c < |s.spin| && q < |s.pc|
    requires Coming(s.pc[q], c, p) && PlockOk(s, q, p) && PlockOk(s, p, p) && PlaceOk(s, q)
    requires Waiting(Apply(s, e), p, c) && Waiting(s, p, c)
    ensures Coming(Apply(s, e).pc[q], c, p)
  {
  }

  /** A wait begins only on a condition that is false, and a condition becomes true only
      together with a wakeup. */
  lemma NewlyDue(s: Sys, e: Event, p: nat, c: nat)
    requires Shape(s) && Enabled(s, e) && p < |s.st| && c < |s.spin|
    requires PlaceOk(s, p) && PlaceOk(s, e.p)
    requires Waiting(Apply(s, e), p, c) && Apply(s, e).word[c] == 0 && !(Waiting(s, p, c) && s.word[c] == 0)
    ensures Coming(Apply(s, e).pc[e.p], c, p)
  {
    if p == e.p {
      NotDueBySelf(s, e, c);
    }
  }

  /** What a process does itself does not leave it waiting on a condition that holds. */
  lemma NotDueBySelf(s: Sys, e: Event, c: nat)
    requires Shape(s) && Enabled(s, e) && c < |s.spin| && PlaceOk(s, e.p)
    requires !(Waiting(s, e.p, c) && s.word[c] == 0)
    ensures !(Waiting(Apply(s, e), e.p, c) && Apply(s, e).word[c] == 0)
  {
  }

  lemma StepInv(s: Sys, e: Event)
    requires Inv(s) && Enabled(s, e)
    ensures Inv(Apply(s, e))
  {
    forall p: nat, c: nat | p < |s.st| && c < |s.spin|
      ensures SpinOk(Apply(s, e), p, c)
    {
      StepSpin(s, e, p, c);
    }
    forall p: nat, q: nat | p < |s.st| && q < |s.st|
      ensures PlockOk(Apply(s, e), p, q)
    {
      StepPlock(s, e, p, q);
    }
    forall p: nat | p < |s.st|
      ensures PlaceOk(Apply(s, e), p)
    {
      StepPlace(s, e, p);
    }
    forall p: nat, c: nat | p < |s.st| && c < |s.spin| && Waiting(Apply(s, e), p, c) && Apply(s, e).word[c] == 0
      ensures WakeupComing(Apply(s, e), c, p)
    {
      StepNoLost(s, e, p, c);
    }
  }

  // ----- whole runs

  ghost predicate Run(s: Sys, es: seq<Event>)
    requires Shape(s)
    decreases |es|
  {
    es == [] || (Enabled(s, es[0]) && Run(Apply(s, es[0]), es[1..]))
  }

  ghost function Exec(s: Sys, es: seq<Event>): (r: Sys)
    requires Shape(s) && Run(s, es)
    ensures Shape(r)
    decreases |es|
  {
    if es == [] then s else Exec(Apply(s, es[0]), es[1..])
  }

  lemma {:induction false} RunInv(s: Sys, es: seq<Event>)
    requires Inv(s) && Run(s, es)
    ensures Inv(Exec(s, es)) && |Exec(s, es).st| == |s.st| && |Exec(s, es).spin| == |s.spin|
    decreases |es|
  {
    if es != [] {
      hide Inv, Apply, Enabled;
      StepInv(s, es[0]);
      StepSizes(s, es[0]);
      RunInv(Apply(s, es[0]), es[1..]);
    }
  }

  lemma StepSizes(s: Sys, e: Event)
    requires Shape(s) && Enabled(s, e)
    ensures Shape(Apply(s, e)) && |Apply(s, e).st| == |s.st| && |Apply(s, e).spin| == |s.spin|
  {
  }

  /** However the processes interleave, while c's condition holds and no wakeup(c) is
      under way, nobody is sleeping on c or past the point of no return. */
  lemma NobodyStranded(s: Sys, es: seq<Event>, p: nat, c: nat)
    requires Init(s) && Run(s, es) && p < |s.st| && c < |s.spin|
    ensures var r := Exec(s, es);
            |r.st| == |s.st| && |r.word| == |s.spin| &&
            (r.word[c] == 0 && (forall q: nat :: q < |s.st| ==> !((r.pc[q].Scan? || r.pc[q].ScanIn?) && r.pc[q].c == c))
             ==> !Waiting(r, p, c))
  {
    hide Run, Exec;
    InitInv(s);
    RunInv(s, es);
  }

  /** p has been going to sleep or sleeping on c in every state of the run. */
  ghost predicate AlwaysWaiting(s: Sys, es: seq<Event>, p: nat, c: nat)
    requires Shape(s) && Run(s, es) && p < |s.st|
    decreases |es|
  {
    Waiting(s, p, c) && (es != [] ==> |Apply(s, es[0]).st| == |s.st| && AlwaysWaiting(Apply(s, es[0]), es[1..], p, c))
  }

  /** q has been inside one wakeup(c) in every state of the run. */
  ghost predicate AlwaysScanning(s: Sys, es: seq<Event>, q: nat, c: nat)
    requires Shape(s) && Run(s, es) && q < |s.st|
    decreases |es|
  {
    && (s.pc[q].Scan? || s.pc[q].ScanIn?) && s.pc[q].c == c
    && (es != [] ==> |Apply(s, es[0]).st| == |s.st| && AlwaysScanning(Apply(s, es[0]), es[1..], q, c))
  }

  lemma {:induction false} ScanHasNotPassed(s: Sys, es: seq<Event>, p: nat, q: nat, c: nat)
    requires Inv(s) && Run(s, es) && p < |s.st| && q < |s.st| && c < |s.spin|
    requires AlwaysWaiting(s, es, p, c) && AlwaysScanning(s, es, q, c) && Coming(s.pc[q], c, p)
    ensures |Exec(s, es).pc| == |s.st| && Coming(Exec(s, es).pc[q], c, p)
    decreases |es|
  {
    if es != [] {
      var e := es[0];
      assert PlockOk(s, q, p) && PlockOk(s, p, p) && PlaceOk(s, q);
      StepInv(s, e);
      hide Inv;
      StillComing(s, e, p, c, q);
      StepSizes(s, e);
      hide Apply, Enabled;
      ScanHasNotPassed(Apply(s, e), es[1..], p, q, c);
    }
  }

  /** wakeup(c) cannot finish while any process has slept on c all along: from the store
      that called it to the moment it is done, every sleeper has been woken once. */
  lemma WakeupReachesAll(s: Sys, es: seq<Event>, v: int, p: nat, q: nat, c: nat)
    requires Inv(s) && p < |s.st| && q < |s.st| && c < |s.spin|
    requires s.pc[q] == Hold(c) && Enabled(s, Store(q, v))
    requires var s1 := Apply(s, Store(q, v));
             && |s1.st| == |s.st| && Run(s1, es) && AlwaysScanning(s1, es, q, c)
             && |Exec(s1, es).st| == |s.st| && Enabled(Exec(s1, es), ScanDone(q))
    ensures !AlwaysWaiting(Apply(s, Store(q, v)), es, p, c)
  {
    var s1 := Apply(s, Store(q, v));
    StepInv(s, Store(q, v));
    StepSizes(s, Store(q, v));
    assert Coming(s1.pc[q], c, p);
    hide Inv, AlwaysScanning, AlwaysWaiting, Run, Exec;
    if AlwaysWaiting(s1, es, p, c) {
      ScanHasNotPassed(s1, es, p, q, c);
    }
  }

  // ----- what the events say

  /** What a process is doing, by the events alone: waiting for c's condition or changing
      c's word. */
  datatype Doing = Nothing | Awaiting(c: nat) | Changing(c: nat)

  /** Both begin with an event of their own; only Leave ends the one, only ScanDone the other. */
  function CallOf(es: seq<Event>, p: nat): (k: Doing) {
    if es == [] then Nothing
    else
      match es[|es| - 1]
      case Enter(q, c) => if q == p then Awaiting(c) else CallOf(es[..|es| - 1], p)
      case Call(q, c) => if q == p then Changing(c) else CallOf(es[..|es| - 1], p)
      case Leave(q, _) => if q == p then Nothing else CallOf(es[..|es| - 1], p)
      case ScanDone(q) => if q == p then Nothing else CallOf(es[..|es| - 1], p)
      case _ => CallOf(es[..|es| - 1], p)
  }

  /** What a place in the code is part of. */
  function CallAt(k: Pc): (r: Doing) {
    match k
    case Out => Nothing
    case Signal(c) => Changing(c)
    case Hold(c) => Changing(c)
    case Scan(c, _, _) => Changing(c)
    case ScanIn(c, _, _) => Changing(c)
    case _ => Awaiting(k.c)
  }

  lemma StepCall(s: Sys, es: seq<Event>, e: Event, p: nat)
    requires Shape(s) && Enabled(s, e) && p < |s.st| && CallAt(s.pc[p]) == CallOf(es, p)
    ensures CallAt(Apply(s, e).pc[p]) == CallOf(es + [e], p)
  {
    hide Apply, Enabled, CallAt, CallOf;
    CallMoves(es, e, p);
    PlaceMoves(s, e, p);
  }

  function NextCall(k: Doing, e: Event, p: nat): (r: Doing) {
    if e.p != p then k
    else if e.Enter? then Awaiting(e.c)
    else if e.Call? then Changing(e.c)
    else if e.Leave? || e.ScanDone? then Nothing
    else k
  }

  lemma CallMoves(es: seq<Event>, e: Event, p: nat)
    ensures CallOf(es + [e], p) == NextCall(CallOf(es, p), e, p)
  {
    var all := es + [e];
    assert all[..|all| - 1] == es && all[|all| - 1] == e;
  }

  lemma PlaceMoves(s: Sys, e: Event, p: nat)
    requires Shape(s) && Enabled(s, e) && p < |s.st|
    ensures CallAt(Apply(s, e).pc[p]) == NextCall(CallAt(s.pc[p]), e, p)
  {
  }

  lemma {:induction false} RunCalls(s: Sys, past: seq<Event>, es: seq<Event>, p: nat)
    requires Shape(s) && Run(s, es) && p < |s.st| && CallAt(s.pc[p]) == CallOf(past, p)
    ensures |Exec(s, es).pc| == |s.st| && CallAt(Exec(s, es).pc[p]) == CallOf(past + es, p)
    decreases |es|
  {
    if es == [] {
      assert past + es == past;
    } else {
      hide Apply, Enabled, CallOf;
      StepCall(s, past, es[0], p);
      StepSizes(s, es[0]);
      assert past + [es[0]] + es[1..] == past + es;
      RunCalls(Apply(s, es[0]), past + [es[0]], es[1..], p);
    }
  }

  /** Whoever started to wait for a condition is outside again only after it has left with
      the lock, in every run; until then it waits, however often it was woken. */
  lemma WaitEndsByLeaving(s: Sys, es: seq<Event>, p: nat)
    requires Init(s) && Run(s, es) && p < |s.st|
    ensures |Exec(s, es).pc| == |s.st| && CallAt(Exec(s, es).pc[p]) == CallOf(es, p)
    ensures Exec(s, es).pc[p] == Out <==> CallOf(es, p) == Nothing
  {
    hide Run, Exec;
    assert [] + es == es;
    RunCalls(s, [], es, p);
  }

  /** A sleeper becomes runnable only by a wakeup on its own channel or by kill. */
  lemma WokenOnlyBy(s: Sys, e: Event, p: nat)
    requires Shape(s) && Enabled(s, e) && p < |s.st|
    ensures s.st[p].Sleeping? && !Apply(s, e).st[p].Sleeping? <==>
            s.st[p].Sleeping? && (e == Kill(p) || (e.ScanTest? && s.pc[e.p].i == p && s.chan[p] == Some(s.pc[e.p].c)))
  {
  }

  // ----- undisturbed runs

  /** s becomes s' by e. */
  predicate Becomes(s: Sys, e: Event, s': Sys) {
    Shape(s) && Enabled(s, e) && s' == Apply(s, e)
  }

  /** es is a run from s to s'. */
  ghost predicate Goes(s: Sys, es: seq<Event>, s': Sys) {
    Shape(s) && Run(s, es) && Exec(s, es) == s'
  }

  /** Each state becomes the next. */
  ghost predicate Path(ss: seq<Sys>, es: seq<Event>) {
    && |ss| == |es| + 1 && Shape(ss[0])
    && forall i :: 0 <= i < |es| ==> Becomes(ss[i], es[i], ss[i + 1])
  }

  lemma {:induction false} PathGoes(ss: seq<Sys>, es: seq<Event>)
    requires Path(ss, es)
    ensures Goes(ss[0], es, ss[|es|])
    decreases |es|
  {
    if es != [] {
      assert Becomes(ss[0], es[0], ss[1]);
      hide Enabled, Apply;
      forall i | 0 <= i < |es[1..]|
        ensures Becomes(ss[1..][i], es[1..][i], ss[1..][i + 1])
      {
        assert Becomes(ss[i + 1], es[i + 1], ss[i + 2]);
      }
      StepSizes(ss[0], es[0]);
      PathGoes(ss[1..], es[1..]);
    }
  }

  lemma {:induction false} GoesThrough(s: Sys, es: seq<Event>, s1: Sys, fs: seq<Event>, s': Sys)
    requires Goes(s, es, s1) && Goes(s1, fs, s')
    ensures Goes(s, es + fs, s')
    decreases |es|
  {
    hide Goes;
    if es == [] {
      assert es + fs == fs;
      GoesNowhere(s, s1);
    } else {
      FirstGoes(s, es, s1);
      var s2 := Apply(s, es[0]);
      GoesThrough(s2, es[1..], s1, fs, s');
      GoesOn(s, es[0], s2, es[1..] + fs, s');
      assert es + fs == [es[0]] + (es[1..] + fs);
    }
  }

  lemma GoesNowhere(s: Sys, s': Sys)
    requires Goes(s, [], s')
    ensures s == s'
  {
  }

  lemma FirstGoes(s: Sys, es: seq<Event>, s': Sys)
    requires Goes(s, es, s') && es != []
    ensures Shape(s) && Enabled(s, es[0]) && Goes(Apply(s, es[0]), es[1..], s')
  {
    hide Apply, Enabled;
    StepSizes(s, es[0]);
  }

  lemma GoesOn(s: Sys, e: Event, s1: Sys, es: seq<Event>, s': Sys)
    requires Becomes(s, e, s1) && Goes(s1, es, s')
    ensures Goes(s, [e] + es, s')
  {
    hide Apply, Enabled;
    assert ([e] + es)[1..] == es;
  }

  /** Wanting the lock when it is free and the condition holds: the process takes it. */
  lemma Takes(s: Sys, p: nat, c: nat, v: int)
    requires Shape(s) && p < |s.st| && c < |s.spin| && s.pc[p] == Want(c) && s.st[p].Running?
    requires s.spin[c].None? && s.word[c] == 0
    ensures Goes(s, [Acquire(p), TestWord(p), Leave(p, v)], s.(pc := s.pc[p := Out], word := s.word[c := v]))
  {
    var s1 := At(s, p, Test(c)).(spin := s.spin[c := Some(p)]);
    var s2 := s1.(pc := s.pc[p := In(c)]);
    var s3 := s.(pc := s.pc[p := Out], word := s.word[c := v]);
    assert s2.spin[c := None] == s.spin && s1.pc[p := In(c)] == s2.pc && s2.pc[p := Out] == s3.pc;
    assert Becomes(s, Acquire(p), s1) && Becomes(s1, TestWord(p), s2) && Becomes(s2, Leave(p, v), s3);
    hide Becomes, Goes;
    PathGoes([s, s1, s2, s3], [Acquire(p), TestWord(p), Leave(p, v)]);
  }

  /** The condition holds: the process leaves with it, having set the word. */
  lemma TakesAtOnce(s: Sys, p: nat, c: nat, v: int)
    requires Shape(s) && p < |s.st| && c < |s.spin| && s.pc[p] == Out && s.st[p].Running?
    requires s.spin[c].None? && s.word[c] == 0
    ensures Goes(s, [Enter(p, c)] + [Acquire(p), TestWord(p), Leave(p, v)], s.(word := s.word[c := v]))
  {
    var s1 := At(s, p, Want(c));
    assert Becomes(s, Enter(p, c), s1) && s1.pc[p := Out] == s.pc;
    Takes(s1, p, c, v);
    GoesOn(s, Enter(p, c), s1, [Acquire(p), TestWord(p), Leave(p, v)], s.(word := s.word[c := v]));
  }

  lemma FindsFalse(s: Sys, p: nat, c: nat)
    requires Shape(s) && p < |s.st| && c < |s.spin| && s.pc[p] == Out && s.st[p].Running?
    requires s.spin[c].None? && s.word[c] != 0
    ensures Goes(s, [Enter(p, c), Acquire(p), TestWord(p)], At(s, p, Doze(c)).(spin := s.spin[c := Some(p)]))
  {
    var s1 := At(s, p, Want(c));
    var s2 := At(s, p, Test(c)).(spin := s.spin[c := Some(p)]);
    var s3 := s2.(pc := s.pc[p := Doze(c)]);
    assert s1.pc[p := Test(c)] == s2.pc && s2.pc[p := Doze(c)] == s3.pc;
    assert Becomes(s, Enter(p, c), s1) && Becomes(s1, Acquire(p), s2) && Becomes(s2, TestWord(p), s3);
    hide Becomes, Goes;
    PathGoes([s, s1, s2, s3], [Enter(p, c), Acquire(p), TestWord(p)]);
  }

  /** The condition does not hold: the process ends up asleep on c, holding no lock. */
  lemma FallsAsleep(s: Sys, p: nat, c: nat)
    requires Shape(s) && p < |s.st| && c < |s.spin| && s.pc[p] == Out && s.st[p].Running?
    requires s.spin[c].None? && s.plock[p].None? && s.word[c] != 0
    ensures Goes(s, [Enter(p, c), Acquire(p), TestWord(p)] + [LockSelf(p), Unlock(p), Switch(p)],
                 s.(pc := s.pc[p := Asleep(c)], chan := s.chan[p := Some(c)], st := s.st[p := Sleeping]))
  {
    FindsFalse(s, p, c);
    var s3 := At(s, p, Doze(c)).(spin := s.spin[c := Some(p)]);
    var s4 := s3.(pc := s.pc[p := Both(c)], plock := s.plock[p := Some(p)]);
    var s5 := s.(pc := s.pc[p := Down(c)], plock := s.plock[p := Some(p)]);
    var s6 := s.(pc := s.pc[p := Asleep(c)], chan := s.chan[p := Some(c)], st := s.st[p := Sleeping]);
    assert s4.spin[c := None] == s.spin && s5.plock[p := None] == s.plock;
    assert s3.pc[p := Both(c)] == s4.pc && s4.pc[p := Down(c)] == s5.pc && s5.pc[p := Asleep(c)] == s6.pc;
    assert Becomes(s3, LockSelf(p), s4) && Becomes(s4, Unlock(p), s5) && Becomes(s5, Switch(p), s6);
    hide Becomes, Goes;
    PathGoes([s3, s4, s5, s6], [LockSelf(p), Unlock(p), Switch(p)]);
    GoesThrough(s, [Enter(p, c), Acquire(p), TestWord(p)], s3, [LockSelf(p), Unlock(p), Switch(p)], s6);
  }

  /** A process that was woken and picked goes back for the lock. */
  lemma Wakes(s: Sys, p: nat, c: nat)
    requires Shape(s) && p < |s.st| && c < |s.spin| && s.pc[p] == Asleep(c) && s.st[p].Runnable? && s.plock[p].None?
    ensures Goes(s, [Dispatch(p), Resume(p)],
                 s.(pc := s.pc[p := Want(c)], chan := s.chan[p := None], st := s.st[p := Running]))
  {
    var s1 := At(s, p, Woken(c)).(st := s.st[p := Running], plock := s.plock[p := Some(p)]);
    var s2 := At(s, p, Want(c)).(st := s.st[p := Running], chan := s.chan[p := None]);
    assert s1.plock[p := None] == s.plock && s1.pc[p := Want(c)] == s2.pc;
    assert Becomes(s, Dispatch(p), s1) && Becomes(s1, Resume(p), s2);
    hide Becomes, Goes;
    PathGoes([s, s1, s2], [Dispatch(p), Resume(p)]);
  }

  /** A process that was woken when the condition holds takes it. */
  lemma WakesAndTakes(s: Sys, p: nat, c: nat, v: int)
    requires Shape(s) && p < |s.st| && c < |s.spin| && s.pc[p] == Asleep(c) && s.st[p].Runnable?
    requires s.spin[c].None? && s.plock[p].None? && s.word[c] == 0
    ensures Goes(s, [Dispatch(p), Resume(p)] + [Acquire(p), TestWord(p), Leave(p, v)],
                 s.(pc := s.pc[p := Out], chan := s.chan[p := None], st := s.st[p := Running], word := s.word[c := v]))
  {
    hide Becomes, Goes;
    var s2 := s.(pc := s.pc[p := Want(c)], chan := s.chan[p := None], st := s.st[p := Running]);
    Wakes(s, p, c);
    Takes(s2, p, c, v);
    assert s2.pc[p := Out] == s.pc[p := Out];
    GoesThrough(s, [Dispatch(p), Resume(p)], s2, [Acquire(p), TestWord(p), Leave(p, v)],
                s2.(pc := s.pc[p := Out], word := s.word[c := v]));
  }

  /** A process that yields is runnable, and goes on where it was when it is picked. */
  lemma YieldsAndGoesOn(s: Sys, p: nat)
    requires Shape(s) && p < |s.st| && s.st[p].Running? && NoSpinlock(s.pc[p]) && s.plock[p].None?
    ensures Goes(s, [Preempt(p)], s.(st := s.st[p := Runnable])) && Goes(s, [Preempt(p), Dispatch(p)], s)
  {
    var s1 := s.(st := s.st[p := Runnable]);
    assert s1.st[p := Running] == s.st;
    assert Becomes(s, Preempt(p), s1) && Becomes(s1, Dispatch(p), s);
    hide Becomes, Goes;
    PathGoes([s, s1], [Preempt(p)]);
    PathGoes([s, s1, s], [Preempt(p), Dispatch(p)]);
  }

  /** wakeup's loop from proc[i] on. */
  function Scans(q: nat, i: nat, n: nat): (es: seq<Event>)
    requires i <= n
    decreases n - i
  {
    if i == n then [] else [ScanLock(q), ScanTest(q)] + Scans(q, i + 1, n)
  }

  /** The sleepers on c from proc[i] on made runnable. */
  function Roused(st: seq<RunState>, chan: seq<Option<nat>>, c: nat, i: nat): (r: seq<RunState>)
    requires |chan| == |st|
    ensures |r| == |st|
    ensures forall k :: 0 <= k < |st| ==> r[k] == if i <= k && st[k].Sleeping? && chan[k] == Some(c) then Runnable else st[k]
  {
    seq(|st|, (k: nat) requires k < |st| => if i <= k && st[k].Sleeping? && chan[k] == Some(c) then Runnable else st[k])
  }

  lemma ScanOne(s: Sys, q: nat, c: nat, i: nat)
    requires Shape(s) && q < |s.st| && s.st[q].Running? && i < |s.st| && s.pc[q] == Scan(c, i, true) && s.plock[i].None?
    ensures var woken := if s.st[i].Sleeping? && s.chan[i] == Some(c) then s.st[i := Runnable] else s.st;
            Goes(s, [ScanLock(q), ScanTest(q)], s.(pc := s.pc[q := Scan(c, i + 1, true)], st := woken))
  {
    var woken := if s.st[i].Sleeping? && s.chan[i] == Some(c) then s.st[i := Runnable] else s.st;
    var s1 := At(s, q, ScanIn(c, i, true)).(plock := s.plock[i := Some(q)]);
    var s2 := s.(pc := s.pc[q := Scan(c, i + 1, true)], st := woken);
    assert s1.plock[i := None] == s.plock && s1.pc[q := Scan(c, i + 1, true)] == s2.pc;
    assert Becomes(s, ScanLock(q), s1) && Becomes(s1, ScanTest(q), s2);
    hide Becomes, Goes;
    PathGoes([s, s1, s2], [ScanLock(q), ScanTest(q)]);
  }

  lemma {:induction false} ScanAll(s: Sys, q: nat, c: nat, i: nat)
    requires Shape(s) && q < |s.st| && s.st[q].Running? && i <= |s.st| && s.pc[q] == Scan(c, i, true)
    requires forall k :: 0 <= k < |s.st| ==> s.plock[k].None?
    ensures Goes(s, Scans(q, i, |s.st|), s.(pc := s.pc[q := Scan(c, |s.st|, true)], st := Roused(s.st, s.chan, c, i)))
    decreases |s.st| - i
  {
    var r := s.(pc := s.pc[q := Scan(c, |s.st|, true)], st := Roused(s.st, s.chan, c, i));
    if i == |s.st| {
      assert r == s;
    } else {
      ScanOne(s, q, c, i);
      var woken := if s.st[i].Sleeping? && s.chan[i] == Some(c) then s.st[i := Runnable] else s.st;
      var s1 := s.(pc := s.pc[q := Scan(c, i + 1, true)], st := woken);
      ScanAll(s1, q, c, i + 1);
      assert s1.pc[q := Scan(c, |s.st|, true)] == r.pc;
      assert Roused(s1.st, s1.chan, c, i + 1) == r.st;
      hide Goes;
      GoesThrough(s, [ScanLock(q), ScanTest(q)], s1, Scans(q, i + 1, |s.st|), r);
    }
  }

  lemma Stores(s: Sys, q: nat, c: nat, v: int)
    requires Shape(s) && q < |s.st| && c < |s.spin| && s.pc[q] == Out && s.st[q].Running? && s.spin[c].None?
    ensures Goes(s, [Call(q, c), Acquire(q), Store(q, v)],
                 At(s, q, Scan(c, 0, true)).(spin := s.spin[c := Some(q)], word := s.word[c := v]))
  {
    var s1 := At(s, q, Signal(c));
    var s2 := At(s, q, Hold(c)).(spin := s.spin[c := Some(q)]);
    var s3 := At(s, q, Scan(c, 0, true)).(spin := s.spin[c := Some(q)], word := s.word[c := v]);
    assert s1.pc[q := Hold(c)] == s2.pc && s2.pc[q := Scan(c, 0, true)] == s3.pc;
    assert Becomes(s, Call(q, c), s1) && Becomes(s1, Acquire(q), s2) && Becomes(s2, Store(q, v), s3);
    hide Becomes, Goes;
    PathGoes([s, s1, s2, s3], [Call(q, c), Acquire(q), Store(q, v)]);
  }

  /** Changing the word and waking: every sleeper on c is runnable afterwards, and nothing
      else has changed. */
  lemma ChangesAndWakes(s: Sys, q: nat, c: nat, v: int)
    requires Shape(s) && q < |s.st| && c < |s.spin| && s.pc[q] == Out && s.st[q].Running? && s.spin[c].None?
    requires forall k :: 0 <= k < |s.st| ==> s.plock[k].None?
    ensures Goes(s, [Call(q, c), Acquire(q), Store(q, v)] + Scans(q, 0, |s.st|) + [ScanDone(q)],
                 s.(word := s.word[c := v], st := Roused(s.st, s.chan, c, 0)))
  {
    var s3 := At(s, q, Scan(c, 0, true)).(spin := s.spin[c := Some(q)], word := s.word[c := v]);
    var s4 := s3.(pc := s.pc[q := Scan(c, |s.st|, true)], st := Roused(s.st, s.chan, c, 0));
    var s5 := s.(word := s.word[c := v], st := Roused(s.st, s.chan, c, 0));
    assert s3.pc[q := Scan(c, |s.st|, true)] == s4.pc && s4.pc[q := Out] == s.pc && s4.spin[c := None] == s.spin;
    assert Becomes(s4, ScanDone(q), s5);
    hide Becomes, Goes, Scans;
    Stores(s, q, c, v);
    ScanAll(s3, q, c, 0);
    PathGoes([s4, s5], [ScanDone(q)]);
    GoesThrough(s, [Call(q, c), Acquire(q), Store(q, v)], s3, Scans(q, 0, |s.st|), s4);
    GoesThrough(s, [Call(q, c), Acquire(q), Store(q, v)] + Scans(q, 0, |s.st|), s4, [ScanDone(q)], s5);
  }
}

/** Sleeplocks: the word is 0 when the lock is free, and else names its holder. */
module SleepLocks {
  import opened SleepWakeup

  /** held[p]: the sleeplocks p has acquired and not yet released. */
  type Holdings = seq<set<nat>>

  function Pid(p: nat): (pid: int) { p + 1 }

  /** The code of acquiresleep and releasesleep: the word is only set to the caller's pid
      when leaving with the lock, and to 0 on release, which only a holder calls. */
  predicate Permitted(s: Sys, held: Holdings, e: Event)
    requires Shape(s) && |held| == |s.st| && Enabled(s, e)
  {
    match e
    case Leave(p, v) => v == Pid(p)
    case Store(_, v) => v == 0
    case Call(p, c) => c in held[p]
    case DropLock(_) => false
    case _ => true
  }

  function HeldAfter(s: Sys, held: Holdings, e: Event): (h: Holdings)
    requires Shape(s) && |held| == |s.st| && Enabled(s, e)
    ensures |h| == |held|
  {
    match e
    case Leave(p, _) => held[p := held[p] + {s.pc[p].c}]
    case Store(p, _) => held[p := held[p] - {s.pc[p].c}]
    case _ => held
  }

  /** A lock names a process exactly when that process holds it. */
  predicate HolderOk(s: Sys, held: Holdings, p: nat, c: nat)
    requires Shape(s) && |held| == |s.st| && p < |s.st| && c < |s.spin|
  {
    && (c in held[p] <==> s.word[c] == Pid(p))
    && (s.pc[p] == Signal(c) || s.pc[p] == Hold(c) ==> c in held[p])
  }

  ghost predicate LockInv(s: Sys, held: Holdings) {
    && Inv(s) && |held| == |s.st|
    && forall p: nat, c: nat :: p < |s.st| && c < |s.spin| ==> HolderOk(s, held, p, c)
  }

  predicate LockInit(s: Sys, held: Holdings) {
    && Init(s) && |held| == |s.st| && (forall c :: 0 <= c < |s.word| ==> s.word[c] == 0)
    && forall p :: 0 <= p < |held| ==> held[p] == {}
  }

  lemma StepHolder(s: Sys, held: Holdings, e: Event, p: nat, c: nat)
    requires LockInv(s, held) && Enabled(s, e) && Permitted(s, held, e) && p < |s.st| && c < |s.spin|
    ensures HolderOk(Apply(s, e), HeldAfter(s, held, e), p, c)
  {
    assert PlaceOk(s, e.p) && HolderOk(s, held, p, c) && HolderOk(s, held, e.p, c);
    hide LockInv, Inv;
  }

  lemma StepLockInv(s: Sys, held: Holdings, e: Event)
    requires LockInv(s, held) && Enabled(s, e) && Permitted(s, held, e)
    ensures LockInv(Apply(s, e), HeldAfter(s, held, e))
  {
    StepInv(s, e);
    StepSizes(s, e);
    forall p: nat, c: nat | p < |s.st| && c < |s.spin|
      ensures HolderOk(Apply(s, e), HeldAfter(s, held, e), p, c)
    {
      StepHolder(s, held, e, p, c);
    }
  }

  ghost predicate LockRun(s: Sys, held: Holdings, es: seq<Event>)
    requires Shape(s) && |held| == |s.st|
    decreases |es|
  {
    es == [] ||
    (Enabled(s, es[0]) && Permitted(s, held, es[0]) && |Apply(s, es[0]).st| == |s.st|
     && LockRun(Apply(s, es[0]), HeldAfter(s, held, es[0]), es[1..]))
  }

  /** The state and the holdings at the end. */
  ghost function LockExec(s: Sys, held: Holdings, es: seq<Event>): (r: (Sys, Holdings))
    requires Shape(s) && |held| == |s.st| && LockRun(s, held, es)
    decreases |es|
  {
    if es == [] then (s, held) else LockExec(Apply(s, es[0]), HeldAfter(s, held, es[0]), es[1..])
  }

  lemma {:induction false} LockRunInv(s: Sys, held: Holdings, es: seq<Event>)
    requires LockInv(s, held) && LockRun(s, held, es)
    ensures var (r, h) := LockExec(s, held, es); LockInv(r, h) && |r.st| == |s.st| && |r.spin| == |s.spin|
    decreases |es|
  {
    if es != [] {
      hide LockInv, Inv, Apply, Enabled, Permitted, HeldAfter;
      LockShape(s, held);
      StepLockInv(s, held, es[0]);
      StepSizes(s, es[0]);
      LockRunInv(Apply(s, es[0]), HeldAfter(s, held, es[0]), es[1..]);
    }
  }

  lemma LockShape(s: Sys, held: Holdings)
    requires LockInv(s, held)
    ensures Shape(s) && |held| == |s.st|
  {
  }

  /** In every run a sleeplock has at most one holder, holdingsleep's answer is right, and
      no process is asleep waiting for a free lock unless a releasesleep is still waking. */
  lemma SleeplocksWork(s: Sys, held: Holdings, es: seq<Event>, p: nat, q: nat, c: nat)
    requires LockInit(s, held) && LockRun(s, held, es) && p < |s.st| && q < |s.st| && c < |s.spin|
    ensures var (r, h) := LockExec(s, held, es);
            && Shape(r) && |r.st| == |h| == |s.st| && |r.spin| == |s.spin|
            && (c in h[p] && c in h[q] ==> p == q)
            && (c in h[p] <==> r.word[c] == Pid(p))
            && (Waiting(r, p, c) && r.word[c] == 0 ==> WakeupComing(r, c, p))
  {
    hide LockRun, LockExec;
    InitInv(s);
    assert LockInv(s, held);
    LockRunInv(s, held, es);
    var (r, h) := LockExec(s, held, es);
    assert HolderOk(r, h, p, c) && HolderOk(r, h, q, c);
  }

  /** A lock that is not free is held by a process of the table. */
  lemma {:induction false} NoOrphanLock(s: Sys, held: Holdings, es: seq<Event>, c: nat)
    requires LockInv(s, held) && LockRun(s, held, es) && c < |s.spin|
    requires s.word[c] == 0 || exists p: nat :: p < |s.st| && s.word[c] == Pid(p)
    ensures var (r, h) := LockExec(s, held, es);
            && LockInv(r, h) && |r.spin| == |s.spin| && |r.st| == |s.st|
            && (r.word[c] == 0 || exists p: nat :: p < |s.st| && r.word[c] == Pid(p) && c in h[p])
    decreases |es|
  {
    if es == [] {
      if s.word[c] != 0 {
        var p: nat :| p < |s.st| && s.word[c] == Pid(p);
        assert HolderOk(s, held, p, c);
      }
    } else {
      var e := es[0];
      StepLockInv(s, held, e);
      StepSizes(s, e);
      var s1 := Apply(s, e);
      assert s1.word[c] == s.word[c] || s1.word[c] == 0 || s1.word[c] == Pid(e.p);
      hide LockInv, Inv, Apply, Enabled, Permitted, HeldAfter;
      NoOrphanLock(s1, HeldAfter(s, held, e), es[1..], c);
    }
  }

  // ----- what the events say

  /** The locks p has come back with from acquiresleep and not yet called releasesleep for. */
  function Due(es: seq<Event>, p: nat): (cs: set<nat>) {
    if es == [] then {}
    else
      var before := es[..|es| - 1];
      match es[|es| - 1]
      case Leave(q, _) =>
        if q == p && CallOf(before, p).Awaiting? then Due(before, p) + {CallOf(before, p).c} else Due(before, p)
      case Call(q, c) => if q == p then Due(before, p) - {c} else Due(before, p)
      case _ => Due(before, p)
  }

  /** p is in the call its events say, and holds what it is due and nothing else, but for the
      lock it is releasing. */
  predicate Follows(s: Sys, held: Holdings, es: seq<Event>, p: nat)
    requires Shape(s) && |held| == |s.st| && p < |s.st|
  {
    && CallAt(s.pc[p]) == CallOf(es, p) && (s.pc[p].Scan? || s.pc[p].ScanIn? ==> s.pc[p].c !in held[p])
    && (CallOf(es, p).Changing? ==> CallOf(es, p).c !in Due(es, p))
    && Due(es, p) <= held[p] && forall c :: c in held[p] && c !in Due(es, p) ==> CallOf(es, p) == Changing(c)
  }

  lemma StepFollows(s: Sys, held: Holdings, es: seq<Event>, e: Event, p: nat)
    requires LockInv(s, held) && Enabled(s, e) && Permitted(s, held, e) && p < |s.st| && Follows(s, held, es, p)
    ensures Follows(Apply(s, e), HeldAfter(s, held, e), es + [e], p)
  {
    assert PlaceOk(s, e.p);
    hide LockInv, Inv;
    CallMoves(es, e, p);
    PlaceMoves(s, e, p);
    hide CallOf, CallAt;
    var all := es + [e];
    assert all[..|all| - 1] == es && all[|all| - 1] == e;
  }

  lemma {:induction false} RunFollows(s: Sys, held: Holdings, past: seq<Event>, es: seq<Event>, p: nat)
    requires LockInv(s, held) && LockRun(s, held, es) && p < |s.st| && Follows(s, held, past, p)
    ensures var (r, h) := LockExec(s, held, es);
            Shape(r) && |h| == |r.st| == |s.st| && Follows(r, h, past + es, p)
    decreases |es|
  {
    LockShape(s, held);
    if es == [] {
      assert past + es == past;
    } else {
      hide LockInv, Inv, Apply, Enabled, Permitted, HeldAfter, Follows;
      var e := es[0];
      StepFollows(s, held, past, e, p);
      StepLockInv(s, held, e);
      assert past + [e] + es[1..] == past + es;
      RunFollows(Apply(s, e), HeldAfter(s, held, e), past + [e], es[1..], p);
    }
  }

  /** Over every run: a process that called acquiresleep is outside again only after leaving
      with the lock, it holds every lock it came back with until it calls releasesleep for
      it, and it holds no other but the one it is releasing. */
  lemma AcquiredIsHeld(s: Sys, held: Holdings, es: seq<Event>, p: nat)
    requires LockInit(s, held) && LockRun(s, held, es) && p < |s.st|
    ensures var (r, h) := LockExec(s, held, es);
            && Shape(r) && |h| == |r.st| == |s.st|
            && (r.pc[p] == Out <==> CallOf(es, p) == Nothing) && CallAt(r.pc[p]) == CallOf(es, p)
            && Due(es, p) <= h[p] && forall c :: c in h[p] && c !in Due(es, p) ==> CallOf(es, p) == Changing(c)
  {
    hide LockRun, LockExec;
    InitInv(s);
    assert LockInv(s, held);
    assert Follows(s, held, [], p);
    assert [] + es == es;
    RunFollows(s, held, [], es, p);
  }
}
