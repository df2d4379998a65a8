/** Interrupts and spinlocks on one CPU: push_off and pop_off nest. */
module Spinlock {
  /** Where acquire is after some swaps. */
  datatype Spin = Got | Spinning | Panic

  class Cpu {
    var intr: bool                  // interrupts are enabled
    var noff: nat                   // depth of push_off nesting
    var intena: bool                // were they enabled before the first push_off?
    var held: set<nat>              // locks whose holder is this CPU
    ghost var before: seq<bool>     // the interrupt state each open push_off found

    /** Interrupts are off under any push_off, and intena is what the outermost one found. */
    ghost predicate Valid()
      reads this
    {
      && |before| == noff
      && (noff > 0 ==> !intr && intena == before[0])
      && (forall k :: 0 < k < noff ==> !before[k])
    }

    /** Every lock held has a push_off of its own. */
    ghost predicate Covered()
      reads this
    {
      |held| <= noff
    }

    constructor (on: bool)
      ensures Valid() && intr == on && noff == 0 && held == {} && before == []
    {
      intr, noff, intena, held, before := on, 0, false, {}, [];
    }

    method PushOff()
      requires Valid()
      modifies this`intr, this`noff, this`intena, this`before
      ensures Valid() && !intr && before == old(before) + [old(intr)]
    {
      var was := intr;
      intr := false;
      if noff == 0 {
        intena := was;
      }
      noff := noff + 1;
      before := before + [was];
    }

    /** pop_off panics when interrupts are on or nothing is pushed; else it restores what the
        matching push_off found. */
    method PopOff() returns (ok: bool)
      requires Valid()
      modifies this`intr, this`noff, this`before
      ensures Valid() && (ok <==> old(noff) > 0)
      ensures ok ==> before == old(before)[..old(noff) - 1] && intr == old(before)[old(noff) - 1]
      ensures !ok ==> intr == old(intr) && before == old(before)
    {
      if intr {
        return false;
      }
      if noff < 1 {
        return false;
      }
      noff := noff - 1;
      before := before[..noff];
      if noff == 0 && intena {
        intr := true;
      }
      ok := true;
    }

    /** acquire on this CPU: push_off, the test, and one swap per element of `locked`, the
        values that the lock's word has had since.  It panics exactly when this CPU holds the
        lock already, gets it at the first swap that finds it free, and spins on with
        interrupts off while there is none. */
    method Acquire(l: nat, locked: seq<bool>) returns (r: Spin)
      requires Valid()
      modifies this
      ensures Valid() && !intr && before == old(before) + [old(intr)] && (old(Covered()) ==> Covered())
      ensures r == if l in old(held) then Panic else if false in locked then Got else Spinning
      ensures held == if r.Got? then old(held) + {l} else old(held)
    {
      PushOff();
      if l in held {
        return Panic;
      }
      var k := 0;
      while k < |locked|
        invariant k <= |locked| && false !in locked[..k]
        invariant Valid() && !intr && before == old(before) + [old(intr)] && held == old(held)
      {
        if !locked[k] {
          held := held + {l};
          return Got;
        }
        k := k + 1;
      }
      r := Spinning;
    }

    /** release: panics if this CPU does not hold the lock, or in pop_off if nothing is
        pushed, which cannot be while every lock held has its push_off. */
    method Release(l: nat) returns (ok: bool)
      requires Valid()
      modifies this
      ensures Valid() && (ok <==> l in old(held) && old(noff) > 0) && held == old(held) - {l}
      ensures old(Covered()) ==> Covered() && (ok <==> l in old(held))
      ensures ok ==> before == old(before)[..old(noff) - 1] && intr == old(before)[old(noff) - 1]
      ensures !ok ==> intr == old(intr) && before == old(before)
    {
      if l !in held {
        return false;
      }
      assert held == {l} + (held - {l});
      held := held - {l};
      ok := PopOff();
    }
  }
}

/** One spinlock and any number of CPUs, a memory access at a time.  holding() reads two
    words without having the lock; its answer is exact all the same. */
module SpinRuns {
  import opened Common

  /** Where a CPU is in acquire (`acq`) or release; Out is outside both. */
  datatype Pc =
    | Out
    | ReadLocked(acq: bool)             // holding() is about to read lk->locked
    | ReadOwner(acq: bool, l: bool)     // has read it, and is about to read lk->cpu
    | Swap                              // acquire's atomic swap
    | SetOwner                          // has the lock, lk->cpu not yet set
    | ClearOwner                        // release, past its test
    | Unlock                            // lk->cpu cleared, lk->locked not yet
    | Panic(acq: bool)

  /** has[c]: CPU c's swap got the lock and it has not stored 0 since. */
  datatype Sys = Sys(locked: bool, owner: Option<nat>, pc: seq<Pc>, has: seq<bool>)

  datatype Event = Call(c: nat, acq: bool) | Go(c: nat)

  predicate Shape(s: Sys) { |s.has| == |s.pc| }

  predicate Enabled(s: Sys, e: Event) {
    match e
    case Call(c, _) => c < |s.pc| && s.pc[c].Out?
    case Go(c) => c < |s.pc| && !s.pc[c].Out? && !s.pc[c].Panic?
  }

  function Step(s: Sys, c: nat): (s': Sys)
    requires Shape(s) && Enabled(s, Go(c))
  {
    match s.pc[c]
    case ReadLocked(acq) => s.(pc := s.pc[c := ReadOwner(acq, s.locked)])
    case ReadOwner(acq, l) =>
      var holding := l && s.owner == Some(c);
      s.(pc := s.pc[c := if holding == acq then Panic(acq) else if acq then Swap else ClearOwner])
    case Swap =>
      if s.locked then s else s.(locked := true, pc := s.pc[c := SetOwner], has := s.has[c := true])
    case SetOwner => s.(owner := Some(c), pc := s.pc[c := Out])
    case ClearOwner => s.(owner := None, pc := s.pc[c := Unlock])
    case _ => s.(locked := false, pc := s.pc[c := Out], has := s.has[c := false])
  }

  function Apply(s: Sys, e: Event): (s': Sys)
    requires Shape(s) && Enabled(s, e)
  {
    match e
    case Call(c, acq) => s.(pc := s.pc[c := ReadLocked(acq)])
    case Go(c) => Step(s, c)
  }

  predicate CpuOk(s: Sys, c: nat)
    requires Shape(s) && c < |s.pc|
  {
    var k := s.pc[c];
    && (s.has[c] ==> s.locked)
    && (s.owner == Some(c) <==> s.has[c] && !k.SetOwner? && !k.Unlock?)
    && (k.ReadOwner? && s.has[c] ==> k.l)
    && (k.Swap? || k == Panic(false) ==> !s.has[c])
    && (k.SetOwner? || k.ClearOwner? || k.Unlock? || k == Panic(true) ==> s.has[c])
  }

  ghost predicate Inv(s: Sys) {
    && Shape(s)
    && (forall c: nat :: c < |s.pc| ==> CpuOk(s, c))
    && (forall c: nat, d: nat :: c < d < |s.pc| ==> !(s.has[c] && s.has[d]))
    && (s.locked ==> exists c: nat :: c < |s.pc| && s.has[c])
    && (s.owner.Some? ==> s.owner.value < |s.pc|)
  }

  lemma StepInv(s: Sys, e: Event)
    requires Inv(s) && Enabled(s, e)
    ensures Inv(Apply(s, e))
  {
    var s' := Apply(s, e);
    forall d: nat | d < |s'.pc|
      ensures CpuOk(s', d)
    {
      CpuStep(s, e, d);
    }
    forall a: nat, b: nat | a < b < |s'.pc|
      ensures !(s'.has[a] && s'.has[b])
    {
      assert CpuOk(s, a) && CpuOk(s, b) && !(s.has[a] && s.has[b]);
    }
    if s.locked && s'.locked {
      var d: nat :| d < |s.pc| && s.has[d];
      assert s'.has[d];
    } else if s'.locked {
      assert s'.has[e.c];
    }
  }

  lemma CpuStep(s: Sys, e: Event, d: nat)
    requires Inv(s) && Enabled(s, e) && d < |s.pc|
    ensures CpuOk(Apply(s, e), d)
  {
    assert CpuOk(s, d) && CpuOk(s, e.c);
    assert d != e.c ==> !(s.has[d] && s.has[e.c]) by {
      assert d < e.c ==> !(s.has[d] && s.has[e.c]);
    }
  }

  /** The state after es from an unlocked start with n CPUs, or None if some event was not
      possible. */
  function Exec(n: nat, es: seq<Event>): (r: Option<Sys>)
    ensures r.Some? ==> Shape(r.value)
  {
    if es == [] then Some(Sys(false, None, seq(n, _ => Out), seq(n, _ => false)))
    else
      var m := Exec(n, es[..|es| - 1]);
      var e := es[|es| - 1];
      if m.Some? && Enabled(m.value, e) then Some(Apply(m.value, e)) else None
  }

  lemma {:induction false} RunInv(n: nat, es: seq<Event>)
    requires Exec(n, es).Some?
    ensures Inv(Exec(n, es).value)
  {
    if es != [] {
      RunInv(n, es[..|es| - 1]);
      StepInv(Exec(n, es[..|es| - 1]).value, es[|es| - 1]);
    }
  }

  /** At every point of every run at most one CPU has the lock, and a CPU that is about to
      finish the test in holding() gets the answer whether it is that one, whatever the
      others did between its two reads.  So acquire panics exactly on a lock its own CPU
      has, and release exactly on one it has not. */
  lemma SpinlockWorks(n: nat, es: seq<Event>, c: nat, d: nat)
    requires Exec(n, es).Some? && c < n && d < n
    ensures var s := Exec(n, es).value;
            && |s.pc| == |s.has| == n
            && (c != d && s.has[c] ==> !s.has[d])
            && (s.locked <==> exists i: nat :: i < n && s.has[i])
            && (s.pc[c].ReadOwner? ==>
                  && (s.pc[c].l && s.owner == Some(c) <==> s.has[c])
                  && (Apply(s, Go(c)).pc[c].Panic? <==> s.pc[c].acq == s.has[c]))
  {
    RunInv(n, es);
    RunSize(n, es);
    var s := Exec(n, es).value;
    assert CpuOk(s, c) && CpuOk(s, d);
    forall i: nat | i < n && s.has[i]
      ensures s.locked
    {
      assert CpuOk(s, i);
    }
  }

  lemma {:induction false} RunSize(n: nat, es: seq<Event>)
    requires Exec(n, es).Some?
    ensures |Exec(n, es).value.pc| == n
  {
    if es != [] { RunSize(n, es[..|es| - 1]); }
  }

  // ----- what the calls say

  /** The last call of CPU c: acquire, release, or none yet. */
  function LastCall(es: seq<Event>, c: nat): (r: Option<bool>) {
    if es == [] then None
    else
      match es[|es| - 1]
      case Call(d, acq) => if d == c then Some(acq) else LastCall(es[..|es| - 1], c)
      case Go(_) => LastCall(es[..|es| - 1], c)
  }

  /** The call that a place in the code is part of; outside, the one that left it so. */
  function CallAt(k: Pc, has: bool): (acq: bool) {
    match k
    case Out => has
    case ReadLocked(a) => a
    case ReadOwner(a, _) => a
    case Swap => true
    case SetOwner => true
    case ClearOwner => false
    case Unlock => false
    case Panic(a) => a
  }

  /** c is in the code of its last call, and outside it has what that call left. */
  predicate Follows(s: Sys, es: seq<Event>, c: nat)
    requires Shape(s) && c < |s.pc|
  {
    match LastCall(es, c)
    case None => s.pc[c] == Out && !s.has[c]
    case Some(acq) => CallAt(s.pc[c], s.has[c]) == acq
  }

  lemma {:induction false} RunFollows(n: nat, es: seq<Event>, c: nat)
    requires Exec(n, es).Some? && c < n
    ensures |Exec(n, es).value.pc| == n && Follows(Exec(n, es).value, es, c)
  {
    if es != [] {
      var before := es[..|es| - 1];
      RunFollows(n, before, c);
      RunInv(n, before);
      assert CpuOk(Exec(n, before).value, c);
    }
  }

  /** In every run, a CPU that is outside has the lock exactly when its last call was an
      acquire: acquire returns only with the lock, and release only without it. */
  lemma CallsTakeEffect(n: nat, es: seq<Event>, c: nat)
    requires Exec(n, es).Some? && c < n
    ensures var s := Exec(n, es).value;
            && |s.pc| == |s.has| == n
            && (s.pc[c] == Out ==> (s.has[c] <==> LastCall(es, c) == Some(true)))
  {
    RunFollows(n, es, c);
  }

  lemma OneMore(n: nat, es: seq<Event>, e: Event)
    requires Exec(n, es).Some? && Enabled(Exec(n, es).value, e)
    ensures Exec(n, es + [e]) == Some(Apply(Exec(n, es).value, e))
  {
    var all := es + [e];
    assert all[..|all| - 1] == es && all[|all| - 1] == e;
  }

  /** Five events of one CPU. */
  lemma FiveMore(n: nat, es: seq<Event>, c: nat, acq: bool)
    requires Exec(n, es).Some? && c < |Exec(n, es).value.pc| && Exec(n, es).value.pc[c] == Out
    requires var s := Exec(n, es).value; if acq then !s.locked else s.locked && s.owner == Some(c)
    ensures var s := Exec(n, es).value;
            Exec(n, es + [Call(c, acq)] + [Go(c)] + [Go(c)] + [Go(c)] + [Go(c)]) ==
            Some(s.(locked := acq, owner := if acq then Some(c) else None, has := s.has[c := acq]))
  {
    var s := Exec(n, es).value;
    var s1 := s.(pc := s.pc[c := ReadLocked(acq)]);
    var s2 := s.(pc := s.pc[c := ReadOwner(acq, s.locked)]);
    var s3 := s.(pc := s.pc[c := if acq then Swap else ClearOwner]);
    var s4 := if acq then s.(locked := true, pc := s.pc[c := SetOwner], has := s.has[c := true])
              else s.(owner := None, pc := s.pc[c := Unlock]);
    var s5 := s.(locked := acq, owner := if acq then Some(c) else None, has := s.has[c := acq]);
    assert Apply(s, Call(c, acq)) == s1;
    assert s1.pc[c := ReadOwner(acq, s.locked)] == s2.pc && s2.pc[c := s3.pc[c]] == s3.pc && s3.pc[c := s4.pc[c]] == s4.pc;
    assert s4.pc[c := Out] == s.pc;
    assert Step(s1, c) == s2 && Step(s2, c) == s3 && Step(s3, c) == s4 && Step(s4, c) == s5;
    hide Exec, Step;
    OneMore(n, es, Call(c, acq));
    OneMore(n, es + [Call(c, acq)], Go(c));
    OneMore(n, es + [Call(c, acq)] + [Go(c)], Go(c));
    OneMore(n, es + [Call(c, acq)] + [Go(c)] + [Go(c)], Go(c));
    OneMore(n, es + [Call(c, acq)] + [Go(c)] + [Go(c)] + [Go(c)], Go(c));
  }

  /** An acquire of a free lock, and a release of one the CPU has, return when undisturbed:
      the lock has changed hands and nothing else has. */
  lemma UndisturbedCalls(n: nat, es: seq<Event>, c: nat)
    requires Exec(n, es).Some? && c < |Exec(n, es).value.pc| && Exec(n, es).value.pc[c] == Out
    ensures var s := Exec(n, es).value;
            !s.locked ==> Exec(n, es + [Call(c, true)] + [Go(c)] + [Go(c)] + [Go(c)] + [Go(c)]) ==
                          Some(s.(locked := true, owner := Some(c), has := s.has[c := true]))
    ensures var s := Exec(n, es).value;
            s.has[c] ==> Exec(n, es + [Call(c, false)] + [Go(c)] + [Go(c)] + [Go(c)] + [Go(c)]) ==
                         Some(s.(locked := false, owner := None, has := s.has[c := false]))
  {
    var s := Exec(n, es).value;
    RunInv(n, es);
    assert CpuOk(s, c);
    hide Exec, Step;
    if !s.locked {
      FiveMore(n, es, c, true);
    }
    if s.has[c] {
      FiveMore(n, es, c, false);
    }
  }
}
