/** Calls that run without interference, as runs of the process table; and with them a run
    in which init sleeps over a zombie that was handed to it. */
module ProcCalls {
  import opened Common
  import opened ProcMachine
  import opened ProcRuns

  ghost predicate Path(s: Sys, es: seq<Event>, t: Sys) {
    Shape(s) && Run(s, es) && Exec(s, es) == t
  }

  lemma Nothing(s: Sys)
    requires Shape(s)
    ensures Path(s, [], s)
  {
  }

  lemma OneStep(s: Sys, e: Event)
    requires Shape(s) && Enabled(s, e)
    ensures Path(s, [e], Apply(s, e))
  {
    hide Apply, Enabled;
    var t := Apply(s, e);
    assert [e][1..] == [];
    assert Run(t, []) && Exec(t, []) == t;
  }

  lemma {:induction false} Join(s: Sys, es: seq<Event>, m: Sys, es': seq<Event>, t: Sys)
    requires Path(s, es, m) && Path(m, es', t)
    ensures Path(s, es + es', t)
    decreases |es|
  {
    hide Apply, Enabled;
    if es == [] {
      assert es + es' == es';
    } else {
      assert (es + es')[1..] == es[1..] + es';
      Join(Apply(s, es[0]), es[1..], m, es', t);
    }
  }

  // ----- single steps

  /** p runs on c, and no process lock is held. */
  predicate Calm(s: Sys, c: nat, p: nat) {
    && Shape(s) && c < |s.cpu| && s.cpu[c] == On(p) && p < |s.ps| && s.ps[p].st.Running?
    && forall q :: 0 <= q < |s.plock| ==> s.plock[q].None?
  }

  function Goto(s: Sys, p: nat, k: Pc): (t: Sys)
    requires p < |s.ps|
  {
    s.(ps := s.ps[p := s.ps[p].(pc := k)])
  }

  /** A step that only moves p on. */
  lemma Moves(s: Sys, c: nat, p: nat, a: Act, k: Pc)
    requires Shape(s) && c < |s.cpu| && s.cpu[c] == On(p) && p < |s.ps| && ActEnabled(s, p, a)
    requires EffectOf(s, p, a) == Solo(p, s.ps[p].(pc := k)) && NoteOf(a).Nothing?
    ensures Path(s, [Do(c, a)], Goto(s, p, k))
  {
    var f := EffectOf(s, p, a);
    assert LocksAfter(s.plock, c, f) == s.plock;
    hide EffectOf, ActEnabled;
    assert Apply(s, Do(c, a)) == Goto(s, p, k);
    OneStep(s, Do(c, a));
  }

  // ----- fork

  const L: Act := ForkStep(ForkLock)

  /** allocproc passes a slot in use. */
  lemma ForkSkips(s: Sys, c: nat, p: nat, i: nat)
    requires Calm(s, c, p) && s.ps[p].pc == ForkScan(i) && i < |s.ps| && !s.ps[i].st.Unused?
    ensures Path(s, [Do(c, L), Do(c, ForkStep(ForkNext))], Goto(s, p, ForkScan(i + 1)))
  {
    var s1 := Apply(s, Do(c, L));
    var next := Do(c, ForkStep(ForkNext));
    assert s1.ps == s.ps[p := s.ps[p].(pc := ForkAt(i))];
    assert s1.plock == s.plock[i := Some(c)];
    var s2 := Apply(s1, next);
    assert s2.ps == s.ps[p := s.ps[p].(pc := ForkScan(i + 1))];
    assert s2.plock == s.plock;
    assert s2 == Goto(s, p, ForkScan(i + 1));
    OneStep(s, Do(c, L));
    OneStep(s1, next);
    Join(s, [Do(c, L)], s1, [next], s2);
    assert [Do(c, L)] + [next] == [Do(c, L), next];
  }

  lemma {:induction false} ForkScans(s: Sys, c: nat, p: nat, k: nat) returns (es: seq<Event>)
    requires Calm(s, c, p) && s.ps[p].pc == ForkScan(0) && k <= |s.ps|
    requires forall i :: 0 <= i < k ==> !s.ps[i].st.Unused?
    ensures Path(s, es, Goto(s, p, ForkScan(k)))
    decreases k
  {
    hide Path;
    if k == 0 {
      es := [];
      assert Goto(s, p, ForkScan(0)) == s by { assert s.ps[p := s.ps[p]] == s.ps; }
      Nothing(s);
    } else {
      es := ForkScans(s, c, p, k - 1);
      var m := Goto(s, p, ForkScan(k - 1));
      ForkSkips(m, c, p, k - 1);
      assert Goto(m, p, ForkScan(k)) == Goto(s, p, ForkScan(k));
      Join(s, es, m, [Do(c, L), Do(c, ForkStep(ForkNext))], Goto(s, p, ForkScan(k)));
      es := es + [Do(c, L), Do(c, ForkStep(ForkNext))];
    }
  }

  /** The new process that fork leaves in slot k. */
  function Child(s: Sys, p: nat, k: nat): (r: Proc)
    requires k < |s.ps|
  {
    s.ps[k].(st := Runnable, parent := Some(p), pid := s.nextpid, pc := Resuming(Outside))
  }

  function Forked(s: Sys, p: nat, k: nat): (t: Sys)
    requires p < |s.ps| && k < |s.ps|
  {
    s.(ps := s.ps[k := Child(s, p, k)], nextpid := s.nextpid + 1)
  }

  /** The four steps of a fork that has found a free slot. */
  function At(s: Sys, c: nat, p: nat, k: nat, pc: Pc, r: Proc, held: bool): (t: Sys)
    requires Shape(s) && p < |s.ps| && k < |s.ps|
  {
    s.(ps := s.ps[p := s.ps[p].(pc := pc)][k := r], plock := if held then s.plock[k := Some(c)] else s.plock)
  }

  predicate Slot(s: Sys, c: nat, p: nat, k: nat) {
    Calm(s, c, p) && k < |s.ps| && k != p
  }

  lemma Take1(s: Sys, c: nat, p: nat, k: nat)
    requires Slot(s, c, p, k) && s.ps[p].pc == ForkScan(k) && s.ps[k].st.Unused?
    ensures Path(s, [Do(c, L)], At(s, c, p, k, ForkAt(k), s.ps[k], true))
  {
    OneStep(s, Do(c, L));
    var t := Apply(s, Do(c, L));
    assert t.ps == s.ps[p := s.ps[p].(pc := ForkAt(k))][k := s.ps[k]];
    assert t.plock == s.plock[k := Some(c)];
  }

  lemma Take2(s: Sys, c: nat, p: nat, k: nat)
    requires Slot(s, c, p, k) && s.ps[k].st.Unused?
    ensures var t := At(s, c, p, k, ForkAt(k), s.ps[k], true);
            Path(t, [Do(c, ForkStep(ForkTake))],
                 At(s, c, p, k, ForkMade(k), s.ps[k].(pid := s.nextpid), true).(nextpid := s.nextpid + 1))
  {
    var t := At(s, c, p, k, ForkAt(k), s.ps[k], true);
    OneStep(t, Do(c, ForkStep(ForkTake)));
    var u := Apply(t, Do(c, ForkStep(ForkTake)));
    assert u.ps == s.ps[p := s.ps[p].(pc := ForkMade(k))][k := s.ps[k].(pid := s.nextpid)];
    assert u.plock == t.plock;
  }

  lemma Take3(s: Sys, c: nat, p: nat, k: nat, r: Proc)
    requires Slot(s, c, p, k)
    ensures var t := At(s, c, p, k, ForkMade(k), r, true);
            Path(t, [Do(c, ForkStep(ForkParent))], At(s, c, p, k, ForkReady(k), r.(parent := Some(p)), true))
  {
    var t := At(s, c, p, k, ForkMade(k), r, true);
    OneStep(t, Do(c, ForkStep(ForkParent)));
    var u := Apply(t, Do(c, ForkStep(ForkParent)));
    assert u.ps == s.ps[p := s.ps[p].(pc := ForkReady(k))][k := r.(parent := Some(p))];
    assert u.plock == t.plock;
  }

  lemma Take4(s: Sys, c: nat, p: nat, k: nat, r: Proc)
    requires Slot(s, c, p, k)
    ensures var t := At(s, c, p, k, ForkReady(k), r, true);
            Path(t, [Do(c, ForkStep(ForkGo))], At(s, c, p, k, User, r.(st := Runnable, pc := Resuming(Outside)), false))
  {
    var t := At(s, c, p, k, ForkReady(k), r, true);
    OneStep(t, Do(c, ForkStep(ForkGo)));
    var u := Apply(t, Do(c, ForkStep(ForkGo)));
    assert u.ps == s.ps[p := s.ps[p].(pc := User)][k := r.(st := Runnable, pc := Resuming(Outside))];
    assert u.plock == s.plock;
  }

  /** fork, undisturbed, with slot k the first free one: k becomes a child of p with the next
      pid, ready to run, and nothing else changes. */
  lemma ForkCall(s: Sys, c: nat, p: nat, k: nat) returns (es: seq<Event>)
    requires Slot(s, c, p, k) && s.ps[p].pc.User? && s.ps[k].st.Unused?
    requires forall i :: 0 <= i < k ==> !s.ps[i].st.Unused?
    ensures Path(s, es, Forked(s, p, k))
  {
    hide Path;
    es := ForkReaches(s, c, p, k);
    var s1 := Goto(s, p, ForkScan(k));
    var tail := ForkTail(s1, c, p, k);
    assert s.ps[p := s.ps[p].(pc := ForkScan(k))][p := s.ps[p]] == s.ps;
    assert Forked(Goto(s1, p, User), p, k) == Forked(s, p, k);
    Join(s, es, s1, tail, Forked(s, p, k));
    es := es + tail;
  }

  lemma ForkTail(s: Sys, c: nat, p: nat, k: nat) returns (es: seq<Event>)
    requires Slot(s, c, p, k) && s.ps[p].pc == ForkScan(k) && s.ps[k].st.Unused?
    ensures Path(s, es, Forked(Goto(s, p, User), p, k))
  {
    hide Path;
    var r := s.ps[k].(pid := s.nextpid);
    var n := s.nextpid + 1;
    var s' := s.(nextpid := n);
    Take1(s, c, p, k);
    Take2(s, c, p, k);
    Take3(s', c, p, k, r);
    Take4(s', c, p, k, r.(parent := Some(p)));
    var a, b, d := At(s, c, p, k, ForkAt(k), s.ps[k], true), At(s', c, p, k, ForkMade(k), r, true),
                   At(s', c, p, k, ForkReady(k), r.(parent := Some(p)), true);
    var t := Forked(Goto(s, p, User), p, k);
    assert t == At(s', c, p, k, User, Child(s, p, k), false);
    Join(s, [Do(c, L)], a, [Do(c, ForkStep(ForkTake))], b);
    Join(s, [Do(c, L)] + [Do(c, ForkStep(ForkTake))], b, [Do(c, ForkStep(ForkParent))], d);
    es := [Do(c, L)] + [Do(c, ForkStep(ForkTake))] + [Do(c, ForkStep(ForkParent))];
    Join(s, es, d, [Do(c, ForkStep(ForkGo))], t);
    es := es + [Do(c, ForkStep(ForkGo))];
  }

  /** fork, undisturbed, out of memory: when allocproc finds no page for the trap frame, the
      slot it took stays unused but keeps the pid; later failures free the slot.  Either way
      the pid is spent and nothing else has changed. */
  lemma ForkOutOfMemory(s: Sys, c: nat, p: nat, k: nat, early: bool) returns (es: seq<Event>)
    requires Slot(s, c, p, k) && s.ps[p].pc.User? && s.ps[k].st.Unused?
    requires forall i :: 0 <= i < k ==> !s.ps[i].st.Unused?
    ensures Path(s, es, s.(ps := s.ps[k := if early then s.ps[k].(pid := s.nextpid) else Freed], nextpid := s.nextpid + 1))
  {
    hide Path;
    es := ForkReaches(s, c, p, k);
    var s1 := Goto(s, p, ForkScan(k));
    var s3 := At(s1, c, p, k, ForkMade(k), s.ps[k].(pid := s.nextpid), true).(nextpid := s.nextpid + 1);
    TakesPid(s1, c, p, k);
    Untakes(s3, c, p, k, early);
    var slot := if early then s.ps[k].(pid := s.nextpid) else Freed;
    var t := s.(ps := s.ps[k := slot], nextpid := s.nextpid + 1);
    assert s3.ps[p := s3.ps[p].(pc := User)][k := slot] == t.ps && s3.plock[k := None] == s.plock;
    Join(s, es, s1, [Do(c, L)] + [Do(c, ForkStep(ForkTake))], s3);
    es := es + ([Do(c, L)] + [Do(c, ForkStep(ForkTake))]);
    Join(s, es, s3, [Do(c, ForkStep(if early then ForkFailEarly else ForkFail))], t);
    es := es + [Do(c, ForkStep(if early then ForkFailEarly else ForkFail))];
  }

  /** From the call to slot k, all before it being in use. */
  lemma ForkReaches(s: Sys, c: nat, p: nat, k: nat) returns (es: seq<Event>)
    requires Calm(s, c, p) && s.ps[p].pc.User? && k <= |s.ps| && forall i :: 0 <= i < k ==> !s.ps[i].st.Unused?
    ensures Path(s, es, Goto(s, p, ForkScan(k)))
  {
    var s0 := Goto(s, p, ForkScan(0));
    Moves(s, c, p, ForkStep(ForkStart), ForkScan(0));
    es := ForkScans(s0, c, p, k);
    assert Goto(s0, p, ForkScan(k)) == Goto(s, p, ForkScan(k));
    hide Path;
    Join(s, [Do(c, ForkStep(ForkStart))], s0, es, Goto(s, p, ForkScan(k)));
    es := [Do(c, ForkStep(ForkStart))] + es;
  }

  lemma TakesPid(s: Sys, c: nat, p: nat, k: nat)
    requires Slot(s, c, p, k) && s.ps[p].pc == ForkScan(k) && s.ps[k].st.Unused?
    ensures Path(s, [Do(c, L)] + [Do(c, ForkStep(ForkTake))],
                 At(s, c, p, k, ForkMade(k), s.ps[k].(pid := s.nextpid), true).(nextpid := s.nextpid + 1))
  {
    hide Path;
    Take1(s, c, p, k);
    Take2(s, c, p, k);
    Join(s, [Do(c, L)], At(s, c, p, k, ForkAt(k), s.ps[k], true), [Do(c, ForkStep(ForkTake))],
         At(s, c, p, k, ForkMade(k), s.ps[k].(pid := s.nextpid), true).(nextpid := s.nextpid + 1));
  }

  lemma Untakes(s: Sys, c: nat, p: nat, k: nat, early: bool)
    requires Runs(s, c, p) && s.ps[p].pc == ForkMade(k) && k < |s.ps| && k != p
    ensures Path(s, [Do(c, ForkStep(if early then ForkFailEarly else ForkFail))],
                 s.(ps := s.ps[p := s.ps[p].(pc := User)][k := if early then s.ps[k] else Freed], plock := s.plock[k := None]))
  {
    var e := Do(c, ForkStep(if early then ForkFailEarly else ForkFail));
    OneStep(s, e);
    var t := Apply(s, e);
    assert t.ps == s.ps[p := s.ps[p].(pc := User)][k := if early then s.ps[k] else Freed] && t.plock == s.plock[k := None];
  }

  /** fork, undisturbed, with no free slot: it fails, and nothing has changed. */
  lemma ForkFails(s: Sys, c: nat, p: nat) returns (es: seq<Event>)
    requires Calm(s, c, p) && s.ps[p].pc.User? && forall i :: 0 <= i < |s.ps| ==> !s.ps[i].st.Unused?
    ensures Path(s, es, s)
  {
    var s1 := Goto(s, p, ForkScan(|s.ps|));
    Moves(s1, c, p, ForkStep(ForkNone), User);
    assert Goto(s1, p, User) == s by { assert s.ps[p := s.ps[p]] == s.ps; }
    hide Path;
    es := ForkReaches(s, c, p, |s.ps|);
    Join(s, es, s1, [Do(c, ForkStep(ForkNone))], s);
    es := es + [Do(c, ForkStep(ForkNone))];
  }

  /** kill marks whatever slot has the pid it looks for, and an unused one can: pid 0, or one
      that a failed fork left there.  fork does not clear the mark, so the next process made
      in that slot starts out killed. */
  lemma KilledBeforeBirth(s: Sys, c: nat, p: nat, k: nat) returns (es: seq<Event>)
    requires Slot(s, c, p, k) && s.ps[p].pc.User? && s.ps[k].st.Unused?
    requires forall i :: 0 <= i < k ==> !s.ps[i].st.Unused?
    ensures Path(s, [Poke(k, true)] + es, s.(ps := s.ps[k := Child(s, p, k).(killed := true)], nextpid := s.nextpid + 1))
  {
    var s1 := s.(ps := s.ps[k := s.ps[k].(killed := true)]);
    KillCall(s, k);
    es := ForkCall(s1, c, p, k);
    assert Forked(s1, p, k) == s.(ps := s.ps[k := Child(s, p, k).(killed := true)], nextpid := s.nextpid + 1);
    hide Path;
    Join(s, [Poke(k, true)], s1, es, Forked(s1, p, k));
  }

  // ----- starting a process

  /** The scheduler on c picks p, which goes on where it was: at the start of its life, where
      the timer found it, or behind its sleep. */
  lemma Starts(s: Sys, c: nat, p: nat)
    requires Shape(s) && c < |s.cpu| && s.cpu[c].Idle? && p < |s.ps| && s.ps[p].st.Runnable? && s.plock[p].None?
    requires s.ps[p].pc.Resuming? || s.ps[p].pc.ResumingSleep?
    ensures var r := s.ps[p];
            var gone := if r.pc.Resuming? then r.(st := Running, pc := PcOf(r.pc.at)) else r.(st := Running, pc := User, chan := NoChan);
            Path(s, [Pick(c, p), Do(c, SchedStep(Resume))], s.(ps := s.ps[p := gone], cpu := s.cpu[c := On(p)]))
  {
    var r := s.ps[p];
    var gone := if r.pc.Resuming? then r.(st := Running, pc := PcOf(r.pc.at)) else r.(st := Running, pc := User, chan := NoChan);
    var e := Do(c, SchedStep(Resume));
    OneStep(s, Pick(c, p));
    var s1 := Apply(s, Pick(c, p));
    OneStep(s1, e);
    var s2 := Apply(s1, e);
    assert s2.ps == s.ps[p := gone];
    assert s2.plock == s.plock;
    Join(s, [Pick(c, p)], s1, [e], s2);
    assert [Pick(c, p)] + [e] == [Pick(c, p), e];
  }

  // ----- yield and sleep

  /** yield, undisturbed: p is runnable and will go on where it was; the CPU is idle. */
  lemma YieldCall(s: Sys, c: nat, p: nat)
    requires Calm(s, c, p) && Preemptible(s.ps[p].pc)
    ensures Path(s, [Do(c, SchedStep(YieldLock)), Do(c, SchedStep(YieldSwitch)), Return(c)],
                 s.(ps := s.ps[p := s.ps[p].(st := Runnable, pc := Resuming(SpotOf(s.ps[p].pc)))], cpu := s.cpu[c := Idle]))
  {
    var e1, e2 := Do(c, SchedStep(YieldLock)), Do(c, SchedStep(YieldSwitch));
    var held := s.ps[p].(pc := YieldHeld(SpotOf(s.ps[p].pc)));
    OneStep(s, e1);
    var s1 := Apply(s, e1);
    assert s1.ps == s.ps[p := held] && s1.plock == s.plock[p := Some(c)];
    SwitchesOut(s1, c, p, e2, held.(st := Runnable, pc := Resuming(held.pc.at)));
    hide Path;
    var t := s.(ps := s.ps[p := held.(st := Runnable, pc := Resuming(held.pc.at))], cpu := s.cpu[c := Idle]);
    assert s1.ps[p := t.ps[p]] == t.ps && s1.plock[p := None] == s.plock;
    Join(s, [e1], s1, [e2, Return(c)], t);
    assert [e1] + [e2, Return(c)] == [e1, e2, Return(c)];
  }

  /** sched(), and the scheduler's release of the lock. */
  lemma SwitchesOut(s: Sys, c: nat, p: nat, e: Event, me: Proc)
    requires Runs(s, c, p) && e.Do? && e.c == c && e.a.SchedStep? && ActEnabled(s, p, e.a)
    requires EffectOf(s, p, e.a) == Solo(p, me).(leave := true)
    ensures Path(s, [e, Return(c)],
                 s.(ps := s.ps[p := me], plock := s.plock[p := None], cpu := s.cpu[c := Idle]))
  {
    OneStep(s, e);
    var s1 := Apply(s, e);
    assert s1.ps == s.ps[p := me] && s1.plock == s.plock;
    OneStep(s1, Return(c));
    var s2 := Apply(s1, Return(c));
    assert s2.cpu == s.cpu[c := Idle];
    hide Path;
    Join(s, [e], s1, [Return(c)], s2);
    assert [e] + [Return(c)] == [e, Return(c)];
  }

  /** sleep(chan), undisturbed: p sleeps on chan; the CPU is idle. */
  lemma SleepCall(s: Sys, c: nat, p: nat, n: nat)
    requires Calm(s, c, p) && s.ps[p].pc.User?
    ensures Path(s, [Do(c, SchedStep(SleepLock)), Do(c, SchedStep(SleepSwitch(n))), Return(c)],
                 s.(ps := s.ps[p := s.ps[p].(st := Sleeping, chan := OnOther(n), pc := ResumingSleep)], cpu := s.cpu[c := Idle]))
  {
    var e1, e2 := Do(c, SchedStep(SleepLock)), Do(c, SchedStep(SleepSwitch(n)));
    var asleep := s.ps[p].(st := Sleeping, chan := OnOther(n), pc := ResumingSleep);
    OneStep(s, e1);
    var s1 := Apply(s, e1);
    assert s1.ps == s.ps[p := s.ps[p].(pc := SleepHeld)] && s1.plock == s.plock[p := Some(c)];
    SwitchesOut(s1, c, p, e2, asleep);
    hide Path;
    var t := s.(ps := s.ps[p := asleep], cpu := s.cpu[c := Idle]);
    assert s1.ps[p := asleep] == t.ps && s1.plock[p := None] == s.plock;
    Join(s, [e1], s1, [e2, Return(c)], t);
    assert [e1] + [e2, Return(c)] == [e1, e2, Return(c)];
  }

  /** kill of slot i: it is marked, and runnable if it slept, wherever that was; nothing else
      changes. */
  lemma KillCall(s: Sys, i: nat)
    requires Shape(s) && i < |s.ps| && s.plock[i].None?
    ensures Path(s, [Poke(i, true)],
                 s.(ps := s.ps[i := s.ps[i].(killed := true, st := if s.ps[i].st.Sleeping? then Runnable else s.ps[i].st)]))
  {
    OneStep(s, Poke(i, true));
  }

  // ----- exit

  function X(a: ExitAct): (r: Act) { ExitStep(a) }

  /** wakeup1(initproc), whether or not init sleeps in wait. */
  function InitWoken(s: Sys): (t: Sys)
    requires Shape(s)
  {
    s.(ps := s.ps[INIT := Wake1(s.ps[INIT], INIT)])
  }

  lemma ExitBegins(s: Sys, c: nat, p: nat)
    requires Calm(s, c, p) && s.ps[p].pc.User? && p != INIT
    ensures Path(s, [Do(c, X(ExitStart))], Goto(InitWoken(s), p, ExitWoke))
  {
    var e := Do(c, X(ExitStart));
    OneStep(s, e);
    var t := Apply(s, e);
    assert t.ps == Goto(InitWoken(s), p, ExitWoke).ps;
    assert t.plock == s.plock;
  }

  function Locked(s: Sys, c: nat, q: nat): (t: Sys)
    requires q < |s.plock|
  {
    s.(plock := s.plock[q := Some(c)])
  }

  lemma ExitLocked(s: Sys, c: nat, p: nat, op: nat) returns (es: seq<Event>)
    requires Calm(s, c, p) && s.ps[p].pc.ExitWoke? && s.ps[p].parent == Some(op) && op < |s.ps| && op != p
    ensures Path(s, es, Locked(Locked(Goto(s, p, Reparent(op, 0)), c, op), c, p))
  {
    var e2, e3 := Do(c, X(ExitLockParent)), Do(c, X(ExitLockSelf));
    var s1 := Goto(s, p, ExitRead(op));
    Moves(s, c, p, X(ExitCopy), ExitRead(op));
    OneStep(s1, e2);
    var s2 := Apply(s1, e2);
    assert s2 == Locked(Goto(s, p, ExitParent(op)), c, op) by {
      assert s2.plock == s.plock[op := Some(c)];
      assert s2.ps == s.ps[p := s.ps[p].(pc := ExitParent(op))];
    }
    OneStep(s2, e3);
    var s3 := Apply(s2, e3);
    assert s3.plock == s.plock[op := Some(c)][p := Some(c)];
    assert s3.ps == s.ps[p := s.ps[p].(pc := Reparent(op, 0))];
    hide Path;
    Join(s, [Do(c, X(ExitCopy))], s1, [e2], s2);
    es := [Do(c, X(ExitCopy))] + [e2];
    Join(s, es, s2, [e3], s3);
    es := es + [e3];
  }

  /** p runs on c. */
  predicate Runs(s: Sys, c: nat, p: nat) {
    Shape(s) && c < |s.cpu| && s.cpu[c] == On(p) && p < |s.ps|
  }

  /** reparent gives child j to init. */
  lemma HandsOver(s: Sys, c: nat, p: nat, op: nat, j: nat) returns (es: seq<Event>)
    requires Runs(s, c, p) && s.ps[p].pc == Reparent(op, j) && j < |s.ps| && j != p
    requires s.ps[j].parent == Some(p) && s.plock[j].None?
    ensures Path(s, es, s.(ps := s.ps[p := s.ps[p].(pc := Reparent(op, j + 1))][j := s.ps[j].(parent := Some(INIT))]))
  {
    var e := Do(c, X(ReparentSet));
    var s1 := Goto(s, p, ReparentAt(op, j));
    Moves(s, c, p, X(ReparentTest), ReparentAt(op, j));
    OneStep(s1, e);
    var s2 := Apply(s1, e);
    assert s2.ps == s.ps[p := s.ps[p].(pc := Reparent(op, j + 1))][j := s.ps[j].(parent := Some(INIT))];
    assert s2.plock == s.plock;
    Join(s, [Do(c, X(ReparentTest))], s1, [e], s2);
    es := [Do(c, X(ReparentTest))] + [e];
  }

  /** The children of p among the first k slots given to init. */
  function Given(ps: seq<Proc>, p: nat, k: nat): (r: seq<Proc>)
    requires k <= |ps|
    ensures |r| == |ps|
    ensures forall j :: 0 <= j < |ps| ==> r[j] == if j < k && ps[j].parent == Some(p) then ps[j].(parent := Some(INIT)) else ps[j]
  {
    seq(|ps|, (j: nat) requires j < |ps| =>
        if j < k && ps[j].parent == Some(p) then ps[j].(parent := Some(INIT)) else ps[j])
  }

  /** Nobody holds the lock of a child of p, and p is not its own child. */
  ghost predicate ChildrenFree(s: Sys, p: nat)
    requires Shape(s)
  {
    forall j :: 0 <= j < |s.ps| && s.ps[j].parent == Some(p) ==> j != p && s.plock[j].None?
  }

  /** reparent passes a slot that is not a child. */
  lemma SweepPasses(s: Sys, c: nat, p: nat, op: nat, i: nat)
    requires Runs(s, c, p) && s.ps[p].pc == Reparent(op, i) && i < |s.ps| && s.ps[i].parent != Some(p)
    ensures Path(s, [Do(c, X(ReparentTest))], Goto(s, p, Reparent(op, i + 1)))
  {
    Moves(s, c, p, X(ReparentTest), Reparent(op, i + 1));
  }

  /** reparent, from its start to slot k. */
  lemma {:induction false} SweepTo(s: Sys, c: nat, p: nat, op: nat, k: nat) returns (es: seq<Event>)
    requires Runs(s, c, p) && s.ps[p].pc == Reparent(op, 0) && k <= |s.ps| && ChildrenFree(s, p)
    ensures Path(s, es, Goto(s.(ps := Given(s.ps, p, k)), p, Reparent(op, k)))
    decreases k
  {
    hide Path;
    var t := Goto(s.(ps := Given(s.ps, p, k)), p, Reparent(op, k));
    if k == 0 {
      es := [];
      assert t.ps == s.ps;
      Nothing(s);
    } else {
      es := SweepTo(s, c, p, op, k - 1);
      var m := Goto(s.(ps := Given(s.ps, p, k - 1)), p, Reparent(op, k - 1));
      var more;
      if s.ps[k - 1].parent == Some(p) {
        more := HandsOver(m, c, p, op, k - 1);
        assert m.ps[p := m.ps[p].(pc := Reparent(op, k))][k - 1 := m.ps[k - 1].(parent := Some(INIT))] == t.ps;
      } else {
        more := [Do(c, X(ReparentTest))];
        SweepPasses(m, c, p, op, k - 1);
        assert Goto(m, p, Reparent(op, k)).ps == t.ps;
      }
      Join(s, es, m, more, t);
      es := es + more;
    }
  }

  /** The end of exit, and the scheduler's release of the lock. */
  lemma Dies(s: Sys, c: nat, p: nat, op: nat, v: int)
    requires Runs(s, c, p) && s.ps[p].pc == Reparent(op, |s.ps|) && op < |s.ps| && op != p
    ensures Path(s, [Do(c, X(ExitZombie(v))), Return(c)],
                 s.(ps := s.ps[op := Wake1(s.ps[op], op)][p := s.ps[p].(st := Zombie, xstate := v, pc := Dead)],
                    plock := s.plock[op := None][p := None], cpu := s.cpu[c := Idle],
                    exits := s.exits[s.ps[p].pid := v]))
  {
    var e := Do(c, X(ExitZombie(v)));
    OneStep(s, e);
    var s1 := Apply(s, e);
    assert s1.plock == s.plock[op := None];
    OneStep(s1, Return(c));
    var s2 := Apply(s1, Return(c));
    assert s2.cpu == s.cpu[c := Idle];
    Join(s, [e], s1, [Return(c)], s2);
    assert [e] + [Return(c)] == [e, Return(c)];
  }

  /** What exit of p leaves of slot j: p a zombie with its status; p's children init's; and
      init and p's parent awake if they slept in wait. */
  function AfterExit(ps: seq<Proc>, p: nat, op: nat, v: int, j: nat): (r: Proc)
    requires p < |ps| && j < |ps|
  {
    if j == p then ps[p].(st := Zombie, xstate := v, pc := Dead)
    else
      ps[j].(st := if (j == INIT || j == op) && ps[j].st.Sleeping? && ps[j].chan == OnProc(j) then Runnable else ps[j].st,
             parent := if ps[j].parent == Some(p) then Some(INIT) else ps[j].parent)
  }

  /** exit, undisturbed: every slot as exit leaves it, all locks free, the CPU idle, the exit
      on record, and nothing else changed. */
  lemma ExitCall(s: Sys, c: nat, p: nat, op: nat, v: int) returns (es: seq<Event>, t: Sys)
    requires Calm(s, c, p) && s.ps[p].pc.User? && p != INIT && s.ps[p].parent == Some(op) && op < |s.ps| && op != p
    requires s.ps[op].parent != Some(p)
    ensures Path(s, es, t) && t == s.(ps := t.ps, cpu := s.cpu[c := Idle], exits := s.exits[s.ps[p].pid := v])
    ensures |t.ps| == |s.ps| && forall j: nat :: j < |s.ps| ==> t.ps[j] == AfterExit(s.ps, p, op, v, j)
  {
    hide Path;
    var s1 := Goto(InitWoken(s), p, ExitWoke);
    ExitBegins(s, c, p);
    es := ExitLocked(s1, c, p, op);
    var s2 := Locked(Locked(Goto(s1, p, Reparent(op, 0)), c, op), c, p);
    assert s2.ps[op].parent == s.ps[op].parent && s2.ps[p].parent == s.ps[p].parent;
    var es2 := SweepTo(s2, c, p, op, |s.ps|);
    var s3 := Goto(s2.(ps := Given(s2.ps, p, |s.ps|)), p, Reparent(op, |s.ps|));
    Dies(s3, c, p, op, v);
    t := s3.(ps := s3.ps[op := Wake1(s3.ps[op], op)][p := s3.ps[p].(st := Zombie, xstate := v, pc := Dead)],
             plock := s3.plock[op := None][p := None], cpu := s3.cpu[c := Idle], exits := s3.exits[s3.ps[p].pid := v]);
    assert t.plock == s.plock;
    LeftBehind(s, p, op, v);
    Join(s, [Do(c, X(ExitStart))], s1, es, s2);
    Join(s, [Do(c, X(ExitStart))] + es, s2, es2, s3);
    Join(s, [Do(c, X(ExitStart))] + es + es2, s3, [Do(c, X(ExitZombie(v))), Return(c)], t);
    es := [Do(c, X(ExitStart))] + es + es2 + [Do(c, X(ExitZombie(v))), Return(c)];
  }

  /** The slots after the parts of exit are those exit leaves. */
  lemma LeftBehind(s: Sys, p: nat, op: nat, v: int)
    requires Shape(s) && p < |s.ps| && op < |s.ps| && op != p && p != INIT
    ensures var ps1 := Goto(Goto(InitWoken(s), p, ExitWoke), p, Reparent(op, 0)).ps;
            var given := Given(ps1, p, |s.ps|);
            var ps2 := given[p := given[p].(pc := Reparent(op, |s.ps|))];
            var ps3 := ps2[op := Wake1(ps2[op], op)][p := ps2[p].(st := Zombie, xstate := v, pc := Dead)];
            s.ps[p].parent != Some(p) ==> forall j: nat :: j < |s.ps| ==> ps3[j] == AfterExit(s.ps, p, op, v, j)
  {
  }

  // ----- wait

  function W(a: WaitAct): (r: Act) { WaitStep(a) }

  /** p has a child among the first k slots. */
  predicate SeesKid(ps: seq<Proc>, p: nat, k: nat)
    requires k <= |ps|
    ensures SeesKid(ps, p, k) <==> exists j :: 0 <= j < k && ps[j].parent == Some(p)
  {
    k > 0 && (ps[k - 1].parent == Some(p) || SeesKid(ps, p, k - 1))
  }

  /** No child of p among the first k slots is a zombie. */
  ghost predicate NoZombie(ps: seq<Proc>, p: nat, k: nat)
    requires k <= |ps|
  {
    forall j :: 0 <= j < k && ps[j].parent == Some(p) ==> !ps[j].st.Zombie?
  }

  lemma WaitLeaves(s: Sys, c: nat, p: nat, j: nat, t: Sys)
    requires Runs(s, c, p) && j < |s.ps| && j != p && s.plock[j].None? && !s.ps[j].st.Zombie?
    requires t == s.(ps := s.ps[p := s.ps[p].(pc := WaitAt(j))], plock := s.plock[j := Some(c)])
    ensures Path(t, [Do(c, W(WaitSkip))], Goto(s, p, WaitScan(j + 1, true)))
  {
    var e := Do(c, W(WaitSkip));
    OneStep(t, e);
    var u := Apply(t, e);
    assert u.ps == s.ps[p := s.ps[p].(pc := WaitScan(j + 1, true))] && u.plock == s.plock;
  }

  /** wait looks at a child that is not a zombie. */
  lemma WaitPasses(s: Sys, c: nat, p: nat, j: nat, kids: bool) returns (es: seq<Event>)
    requires Runs(s, c, p) && s.ps[p].pc == WaitScan(j, kids) && j < |s.ps| && j != p
    requires s.ps[j].parent == Some(p) && !s.ps[j].st.Zombie? && s.plock[j].None?
    ensures Path(s, es, Goto(s, p, WaitScan(j + 1, true)))
  {
    var e2, e3 := Do(c, W(WaitLock)), Do(c, W(WaitSkip));
    var s1 := Goto(s, p, WaitKid(j, kids));
    Moves(s, c, p, W(WaitTest), WaitKid(j, kids));
    OneStep(s1, e2);
    var s2 := Apply(s1, e2);
    assert s2.ps == s.ps[p := s.ps[p].(pc := WaitAt(j))] && s2.plock == s.plock[j := Some(c)];
    hide Path, Apply;
    WaitLeaves(s, c, p, j, s2);
    var s3 := Goto(s, p, WaitScan(j + 1, true));
    Join(s, [Do(c, W(WaitTest))], s1, [e2], s2);
    es := [Do(c, W(WaitTest))] + [e2];
    Join(s, es, s2, [e3], s3);
    es := es + [e3];
  }

  /** wait passes a slot that is not a child. */
  lemma WaitSkips(s: Sys, c: nat, p: nat, i: nat, kids: bool)
    requires Runs(s, c, p) && s.ps[p].pc == WaitScan(i, kids) && i < |s.ps| && s.ps[i].parent != Some(p)
    ensures Path(s, [Do(c, W(WaitTest))], Goto(s, p, WaitScan(i + 1, kids)))
  {
    Moves(s, c, p, W(WaitTest), WaitScan(i + 1, kids));
  }

  /** wait's scan, from its start to slot k, with no zombie on the way. */
  lemma {:induction false} WaitTo(s: Sys, c: nat, p: nat, k: nat) returns (es: seq<Event>)
    requires Runs(s, c, p) && s.ps[p].pc == WaitScan(0, false) && k <= |s.ps| && ChildrenFree(s, p) && NoZombie(s.ps, p, k)
    ensures Path(s, es, Goto(s, p, WaitScan(k, SeesKid(s.ps, p, k))))
    decreases k
  {
    hide Path;
    var t := Goto(s, p, WaitScan(k, SeesKid(s.ps, p, k)));
    if k == 0 {
      es := [];
      assert t.ps == s.ps;
      Nothing(s);
    } else {
      es := WaitTo(s, c, p, k - 1);
      var kids := SeesKid(s.ps, p, k - 1);
      var m := Goto(s, p, WaitScan(k - 1, kids));
      var more;
      if s.ps[k - 1].parent == Some(p) {
        more := WaitPasses(m, c, p, k - 1, kids);
        assert Goto(m, p, WaitScan(k, true)) == t;
      } else {
        more := [Do(c, W(WaitTest))];
        WaitSkips(m, c, p, k - 1, kids);
        assert Goto(m, p, WaitScan(k, kids)) == t;
      }
      Join(s, es, m, more, t);
      es := es + more;
    }
  }

  lemma WaitBegins(s: Sys, c: nat, p: nat)
    requires Calm(s, c, p) && s.ps[p].pc.User?
    ensures Path(s, [Do(c, W(WaitStart))], Locked(Goto(s, p, WaitScan(0, false)), c, p))
  {
    var e := Do(c, W(WaitStart));
    OneStep(s, e);
    var t := Apply(s, e);
    assert t.ps == s.ps[p := s.ps[p].(pc := WaitScan(0, false))] && t.plock == s.plock[p := Some(c)];
  }

  lemma Dozes(s: Sys, c: nat, p: nat)
    requires Runs(s, c, p) && s.ps[p].pc == WaitScan(|s.ps|, true) && !s.ps[p].killed
    ensures Path(s, [Do(c, W(WaitSleep)), Return(c)],
                 s.(ps := s.ps[p := s.ps[p].(st := Sleeping, chan := OnProc(p), pc := WaitAsleep)],
                    plock := s.plock[p := None], cpu := s.cpu[c := Idle]))
  {
    var e := Do(c, W(WaitSleep));
    OneStep(s, e);
    var s1 := Apply(s, e);
    assert s1.ps == s.ps[p := s.ps[p].(st := Sleeping, chan := OnProc(p), pc := WaitAsleep)] && s1.plock == s.plock;
    OneStep(s1, Return(c));
    var s2 := Apply(s1, Return(c));
    assert s2.cpu == s.cpu[c := Idle];
    Join(s, [e], s1, [Return(c)], s2);
    assert [e] + [Return(c)] == [e, Return(c)];
  }

  /** The scan of an undisturbed wait up to slot k, behind WaitStart. */
  lemma WaitScans(s: Sys, c: nat, p: nat, k: nat) returns (es: seq<Event>, m: Sys)
    requires Calm(s, c, p) && s.ps[p].pc.User? && s.ps[p].parent != Some(p) && k <= |s.ps| && NoZombie(s.ps, p, k)
    ensures m == Locked(Goto(s, p, WaitScan(k, SeesKid(s.ps, p, k))), c, p) && Path(s, es, m)
  {
    WaitBegins(s, c, p);
    var s1 := Locked(Goto(s, p, WaitScan(0, false)), c, p);
    es := WaitTo(s1, c, p, k);
    var kids := SeesKid(s.ps, p, k);
    assert SeesKid(s1.ps, p, k) == kids by {
      assert forall j :: 0 <= j < |s.ps| ==> s1.ps[j].parent == s.ps[j].parent;
    }
    m := Locked(Goto(s, p, WaitScan(k, kids)), c, p);
    assert Goto(s1, p, WaitScan(k, kids)).ps == m.ps;
    hide Path;
    Join(s, [Do(c, W(WaitStart))], s1, es, m);
    es := [Do(c, W(WaitStart))] + es;
  }

  /** wait, undisturbed, of a process that has children and no zombie among them, and has not
      been killed: it goes to sleep on itself. */
  lemma WaitCall(s: Sys, c: nat, p: nat) returns (es: seq<Event>)
    requires Calm(s, c, p) && s.ps[p].pc.User? && s.ps[p].parent != Some(p) && NoZombie(s.ps, p, |s.ps|)
    requires !s.ps[p].killed && exists j :: 0 <= j < |s.ps| && s.ps[j].parent == Some(p)
    ensures Path(s, es, s.(ps := s.ps[p := s.ps[p].(st := Sleeping, chan := OnProc(p), pc := WaitAsleep)],
                           cpu := s.cpu[c := Idle]))
  {
    var m;
    es, m := WaitScans(s, c, p, |s.ps|);
    Dozes(m, c, p);
    var t := s.(ps := s.ps[p := s.ps[p].(st := Sleeping, chan := OnProc(p), pc := WaitAsleep)], cpu := s.cpu[c := Idle]);
    assert m.plock[p := None] == s.plock;
    assert m.ps[p := m.ps[p].(st := Sleeping, chan := OnProc(p), pc := WaitAsleep)] == t.ps;
    hide Path;
    Join(s, es, m, [Do(c, W(WaitSleep)), Return(c)], t);
    es := es + [Do(c, W(WaitSleep)), Return(c)];
  }

  /** wait, undisturbed, of a process without children, or of one that was killed and has no
      zombie child: it returns at once, and nothing has changed. */
  lemma WaitReturnsNone(s: Sys, c: nat, p: nat) returns (es: seq<Event>)
    requires Calm(s, c, p) && s.ps[p].pc.User? && NoZombie(s.ps, p, |s.ps|) && s.ps[p].parent != Some(p)
    requires s.ps[p].killed || forall j :: 0 <= j < |s.ps| ==> s.ps[j].parent != Some(p)
    ensures Path(s, es, s) && es != [] && es[|es| - 1] == Do(c, W(WaitNone))
  {
    hide Path;
    var m;
    es, m := WaitScans(s, c, p, |s.ps|);
    GivesUp(m, c, p);
    var t := m.(ps := m.ps[p := m.ps[p].(pc := User)], plock := m.plock[p := None]);
    assert t.ps == s.ps && t.plock == s.plock;
    Join(s, es, m, [Do(c, W(WaitNone))], s);
    es := es + [Do(c, W(WaitNone))];
  }

  lemma GivesUp(s: Sys, c: nat, p: nat)
    requires Runs(s, c, p) && s.ps[p].pc.WaitScan? && s.ps[p].pc.i == |s.ps| && (!s.ps[p].pc.kids || s.ps[p].killed)
    ensures Path(s, [Do(c, W(WaitNone))], s.(ps := s.ps[p := s.ps[p].(pc := User)], plock := s.plock[p := None]))
  {
    var e := Do(c, W(WaitNone));
    OneStep(s, e);
    var t := Apply(s, e);
    assert t.ps == s.ps[p := s.ps[p].(pc := User)] && t.plock == s.plock[p := None];
  }

  /** wait finds that slot z is a zombie child. */
  lemma Reaps(s: Sys, c: nat, p: nat, z: nat, kids: bool) returns (es: seq<Event>)
    requires Runs(s, c, p) && s.ps[p].pc == WaitScan(z, kids) && z < |s.ps| && z != p && s.plock[z].None?
    requires s.ps[z].parent == Some(p) && s.ps[z].st.Zombie?
    ensures Path(s, es, s.(ps := s.ps[p := s.ps[p].(pc := User)][z := Freed], plock := s.plock[p := None],
                           reaped := s.reaped[s.ps[z].pid := s.ps[z].xstate]))
  {
    var e2, e3 := Do(c, W(WaitLock)), Do(c, W(WaitReap));
    var s1 := Goto(s, p, WaitKid(z, kids));
    Moves(s, c, p, W(WaitTest), WaitKid(z, kids));
    OneStep(s1, e2);
    var s2 := Apply(s1, e2);
    assert s2.ps == s.ps[p := s.ps[p].(pc := WaitAt(z))] && s2.plock == s.plock[z := Some(c)];
    OneStep(s2, e3);
    var s3 := Apply(s2, e3);
    assert s3.ps == s.ps[p := s.ps[p].(pc := User)][z := Freed] && s3.plock == s.plock[p := None];
    hide Path;
    Join(s, [Do(c, W(WaitTest))], s1, [e2], s2);
    Join(s, [Do(c, W(WaitTest))] + [e2], s2, [e3], s3);
    es := [Do(c, W(WaitTest))] + [e2] + [e3];
  }

  /** wait, undisturbed, of a process whose first zombie child is z: z's slot is freed, its
      pid and status are what wait returns, and nothing else has changed. */
  lemma WaitCollects(s: Sys, c: nat, p: nat, z: nat) returns (es: seq<Event>)
    requires Calm(s, c, p) && s.ps[p].pc.User? && z < |s.ps| && z != p && s.ps[p].parent != Some(p)
    requires s.ps[z].parent == Some(p) && s.ps[z].st.Zombie? && NoZombie(s.ps, p, z)
    ensures Path(s, es, s.(ps := s.ps[z := Freed], reaped := s.reaped[s.ps[z].pid := s.ps[z].xstate]))
  {
    hide Path;
    var m;
    es, m := WaitScans(s, c, p, z);
    var more := Reaps(m, c, p, z, SeesKid(s.ps, p, z));
    var t := s.(ps := s.ps[z := Freed], reaped := s.reaped[s.ps[z].pid := s.ps[z].xstate]);
    assert m.ps[p := m.ps[p].(pc := User)][z := Freed] == t.ps && m.plock[p := None] == s.plock;
    Join(s, es, m, more, t);
    es := es + more;
  }

  // ----- init can sleep over a zombie

  /** A table of four slots on four CPUs, all locks free. */
  function Four(a: Proc, b: Proc, d: Proc, e: Proc, cpu: seq<Cpu>, next: int, exits: map<int, int>): (s: Sys) {
    Sys([a, b, d, e], [None, None, None, None], cpu, next, exits, map[])
  }

  function P(st: State, parent: Option<nat>, pid: int, pc: Pc): (r: Proc) { Proc(st, NoChan, parent, pid, 0, false, pc) }

  /** A process running in user mode, or about to start. */
  function Up(parent: Option<nat>, pid: int): (r: Proc) { P(Running, parent, pid, User) }
  function New(parent: Option<nat>, pid: int): (r: Proc) { P(Runnable, parent, pid, Resuming(Outside)) }

  function Booted(): (s: Sys) { Four(New(None, 1), Freed, Freed, Freed, [Idle, Idle, Idle, Idle], 2, map[]) }

  function OneUp(): (s: Sys) { Four(Up(None, 1), New(Some(0), 2), Freed, Freed, [On(0), Idle, Idle, Idle], 3, map[]) }

  function TwoUp(): (s: Sys) {
    Four(Up(None, 1), Up(Some(0), 2), New(Some(1), 3), Freed, [On(0), On(1), Idle, Idle], 4, map[])
  }

  function ThreeUp(): (s: Sys) {
    Four(Up(None, 1), Up(Some(0), 2), Up(Some(1), 3), New(Some(2), 4), [On(0), On(1), On(2), Idle], 5, map[])
  }

  /** The great-grandchild has exited; its parent has started to. */
  function Leaving(): (s: Sys) {
    Four(Up(None, 1), Up(Some(0), 2), P(Running, Some(1), 3, ExitWoke), P(Zombie, Some(2), 4, Dead),
         [On(0), On(1), On(2), Idle], 5, map[4 := 0])
  }

  lemma Generation1() returns (es: seq<Event>)
    ensures Path(Booted(), es, OneUp())
  {
    var s := Booted();
    Starts(s, 0, 0);
    var m := Four(Up(None, 1), Freed, Freed, Freed, [On(0), Idle, Idle, Idle], 2, map[]);
    assert m == s.(ps := s.ps[0 := s.ps[0].(st := Running, pc := User)], cpu := s.cpu[0 := On(0)]);
    es := ForkCall(m, 0, 0, 1);
    assert Forked(m, 0, 1) == OneUp();
    hide Path;
    Join(s, [Pick(0, 0), Do(0, SchedStep(Resume))], m, es, OneUp());
    es := [Pick(0, 0), Do(0, SchedStep(Resume))] + es;
  }

  lemma Generation2() returns (es: seq<Event>)
    ensures Path(OneUp(), es, TwoUp())
  {
    var s := OneUp();
    Starts(s, 1, 1);
    var m := Four(Up(None, 1), Up(Some(0), 2), Freed, Freed, [On(0), On(1), Idle, Idle], 3, map[]);
    assert m == s.(ps := s.ps[1 := s.ps[1].(st := Running, pc := User)], cpu := s.cpu[1 := On(1)]);
    es := ForkCall(m, 1, 1, 2);
    assert Forked(m, 1, 2) == TwoUp();
    hide Path;
    Join(s, [Pick(1, 1), Do(1, SchedStep(Resume))], m, es, TwoUp());
    es := [Pick(1, 1), Do(1, SchedStep(Resume))] + es;
  }

  lemma Generation3() returns (es: seq<Event>)
    ensures Path(TwoUp(), es, ThreeUp())
  {
    var s := TwoUp();
    Starts(s, 2, 2);
    var m := Four(Up(None, 1), Up(Some(0), 2), Up(Some(1), 3), Freed, [On(0), On(1), On(2), Idle], 4, map[]);
    assert m == s.(ps := s.ps[2 := s.ps[2].(st := Running, pc := User)], cpu := s.cpu[2 := On(2)]);
    es := ForkCall(m, 2, 2, 3);
    assert Forked(m, 2, 3) == ThreeUp();
    hide Path;
    Join(s, [Pick(2, 2), Do(2, SchedStep(Resume))], m, es, ThreeUp());
    es := [Pick(2, 2), Do(2, SchedStep(Resume))] + es;
  }

  lemma LastDies() returns (es: seq<Event>)
    ensures Path(ThreeUp(), es, Leaving())
  {
    var s := ThreeUp();
    Starts(s, 3, 3);
    var m := Four(Up(None, 1), Up(Some(0), 2), Up(Some(1), 3), Up(Some(2), 4), [On(0), On(1), On(2), On(3)], 5, map[]);
    assert m == s.(ps := s.ps[3 := s.ps[3].(st := Running, pc := User)], cpu := s.cpu[3 := On(3)]);
    var x;
    es, x := ExitCall(m, 3, 3, 2, 0);
    var d := Four(Up(None, 1), Up(Some(0), 2), Up(Some(1), 3), P(Zombie, Some(2), 4, Dead),
                  [On(0), On(1), On(2), Idle], 5, map[4 := 0]);
    assert x.ps == d.ps;
    assert x == d;
    ExitBegins(d, 2, 2);
    assert Goto(InitWoken(d), 2, ExitWoke) == Leaving();
    hide Path;
    var first := [Pick(3, 3), Do(3, SchedStep(Resume))];
    Join(s, first, m, es, d);
    Join(s, first + es, d, [Do(2, X(ExitStart))], Leaving());
    es := first + es + [Do(2, X(ExitStart))];
  }

  /** init has gone to sleep in wait, its only child being alive. */
  function Asleep(): (s: Sys) {
    var l := Leaving();
    l.(ps := l.ps[0 := l.ps[0].(st := Sleeping, chan := OnProc(0), pc := WaitAsleep)], cpu := l.cpu[0 := Idle])
  }

  lemma InitWaits() returns (es: seq<Event>)
    ensures Path(Leaving(), es, Asleep())
  {
    assert Leaving().ps[1].parent == Some(0);
    es := WaitCall(Leaving(), 0, 0);
  }

  /** Only then does the exiting process hand its zombie over. */
  lemma HandedOver() returns (es: seq<Event>, t: Sys)
    ensures Path(Asleep(), es, t) && SleepsOverZombie(t, INIT)
  {
    var a := Asleep();
    es := ExitLocked(a, 2, 2, 1);
    var b := Locked(Locked(Goto(a, 2, Reparent(1, 0)), 2, 1), 2, 2);
    var e2 := SweepTo(b, 2, 2, 1, 4);
    t := Goto(b.(ps := Given(b.ps, 2, 4)), 2, Reparent(1, 4));
    assert t.ps[3].parent == Some(INIT) && t.ps[3].st.Zombie?;
    hide Path;
    Join(a, es, b, e2, t);
    es := es + e2;
  }

  lemma InitSleepsOverAZombie() returns (s: Sys, es: seq<Event>)
    ensures MissesExit(s, es, INIT)
  {
    hide Path, Booted, OneUp, TwoUp, ThreeUp, Leaving, Asleep, Boot, SleepsOverZombie;
    s := Booted();
    var e1 := Generation1();
    var e2 := Generation2();
    var e3 := Generation3();
    var e4 := LastDies();
    var e5 := InitWaits();
    var e6, t := HandedOver();
    Join(s, e1, OneUp(), e2, TwoUp());
    Join(s, e1 + e2, TwoUp(), e3, ThreeUp());
    Join(s, e1 + e2 + e3, ThreeUp(), e4, Leaving());
    Join(s, e1 + e2 + e3 + e4, Leaving(), e5, Asleep());
    Join(s, e1 + e2 + e3 + e4 + e5, Asleep(), e6, t);
    es := e1 + e2 + e3 + e4 + e5 + e6;
    Misses(es, t);
  }

  lemma Misses(es: seq<Event>, t: Sys)
    requires Path(Booted(), es, t) && SleepsOverZombie(t, INIT)
    ensures MissesExit(Booted(), es, INIT)
  {
    assert Boot(Booted());
    hide Booted, Boot, SleepsOverZombie, Run, Exec;
  }

  /** r sleeps in wait although it has a zombie child. */
  ghost predicate SleepsOverZombie(s: Sys, r: nat) {
    && r < |s.ps| && s.ps[r].st.Sleeping? && s.ps[r].chan == OnProc(r)
    && exists j :: 0 <= j < |s.ps| && s.ps[j].parent == Some(r) && s.ps[j].st.Zombie?
  }

  /** The run es from boot state s ends with r sleeping over a zombie. */
  ghost predicate MissesExit(s: Sys, es: seq<Event>, r: nat) {
    Boot(s) && Run(s, es) && SleepsOverZombie(Exec(s, es), r)
  }

  /** Some run lets slot r sleep over a zombie if and only if r is init. */
  lemma OnlyInitMissesExits(r: nat)
    ensures (exists s: Sys, es: seq<Event> :: MissesExit(s, es, r)) <==> r == INIT
  {
    hide MissesExit;
    if r == INIT {
      var s, es := InitSleepsOverAZombie();
    } else {
      forall s: Sys, es: seq<Event>
        ensures !MissesExit(s, es, r)
      {
        NeverOverZombie(s, es, r);
      }
    }
  }

  lemma NeverOverZombie(s: Sys, es: seq<Event>, r: nat)
    requires r != INIT
    ensures !MissesExit(s, es, r)
  {
    hide Run, Exec;
    if Boot(s) && Run(s, es) && r < |s.ps| {
      forall j: nat | j < |s.ps|
        ensures var ps := Exec(s, es).ps;
                ps[r].st.Sleeping? && ps[r].chan == OnProc(r) && ps[j].parent == Some(r) ==> !ps[j].st.Zombie?
      {
        WaitMissesNoExit(s, es, r, j);
      }
    }
  }
}
