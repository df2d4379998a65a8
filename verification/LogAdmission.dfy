/** Who may add to the current transaction: begin_op's reservation, the test and
    append in log_write, and end_op's decision to commit, as a transition system
    over any number of interleaved operations.

    log_write tests for space before it takes log.lock, so the test (`Check`) and
    the append (`Write`) are separate steps here and other operations may come
    between them. */
module LogAdmission {
  import opened Common
  import opened RedoLog

  const NPROC: nat := 64

  /** `used[p]` is -1 when process p is outside any operation, and otherwise the
      number of blocks p's operation has appended; `passed` holds the processes
      between log_write's test and its append. */
  datatype Admission = Admission(lh: seq<nat>, outstanding: int, committing: bool,
                                 used: seq<int>, passed: set<nat>) {
    predicate Active(p: nat) {
      p < |used| && used[p] >= 0
    }
  }

  datatype AdmissionEvent =
    | Begin(p: nat)
    | Check(p: nat)
    | Write(p: nat, b: nat)
    | End(p: nat)
    | Forget          // log.lh.n = 0 in commit
    | Finish          // log.committing = 0

  function Booted(): Admission {
    Admission([], 0, false, seq(NPROC, _ => -1), {})
  }

  /** log_write's two panic tests pass. */
  predicate HasRoom(size: nat, a: Admission) {
    |a.lh| < LOGSIZE && |a.lh| + 1 < size && a.outstanding >= 1
  }

  predicate CanBegin(a: Admission) {
    !a.committing && |a.lh| + (a.outstanding + 1) * MAXOPBLOCKS <= LOGSIZE
  }

  /** The steps the code can take; an operation appends at most MAXOPBLOCKS blocks. */
  predicate Enabled(size: nat, a: Admission, e: AdmissionEvent) {
    match e
    case Begin(p) => p < |a.used| && !a.Active(p) && CanBegin(a)
    case Check(p) => a.Active(p) && p !in a.passed && HasRoom(size, a)
    case Write(p, b) => a.Active(p) && p in a.passed && (b in a.lh || a.used[p] < MAXOPBLOCKS)
    case End(p) => a.Active(p) && p !in a.passed
    case Forget => a.committing
    case Finish => a.committing && a.lh == []
  }

  function Apply(a: Admission, e: AdmissionEvent): (r: Admission)
    requires e.Begin? || e.Write? || e.End? ==> e.p < |a.used|
  {
    match e
    case Begin(p) => a.(outstanding := a.outstanding + 1, used := a.used[p := 0])
    case Check(p) => a.(passed := a.passed + {p})
    case Write(p, b) =>
      if b in a.lh then a.(passed := a.passed - {p})
      else a.(lh := a.lh + [b], used := a.used[p := a.used[p] + 1], passed := a.passed - {p})
    case End(p) =>
      a.(outstanding := a.outstanding - 1, used := a.used[p := -1],
         committing := a.outstanding == 1)
    case Forget => a.(lh := [])
    case Finish => a.(committing := false)
  }

  /** Operations in progress, and the blocks they may still append. */
  function Running(used: seq<int>): (n: nat) {
    if used == [] then 0 else (if used[0] >= 0 then 1 else 0) + Running(used[1..])
  }

  function Unused(used: seq<int>): (n: int) {
    if used == [] then 0 else (if used[0] >= 0 then MAXOPBLOCKS - used[0] else 0) + Unused(used[1..])
  }

  ghost predicate Inv(a: Admission) {
    && |a.used| == NPROC
    && (forall p :: 0 <= p < NPROC ==> -1 <= a.used[p] <= MAXOPBLOCKS)
    && a.outstanding == Running(a.used)
    && Distinct(a.lh)
    && |a.lh| + Unused(a.used) <= LOGSIZE
    && (a.committing ==> a.outstanding == 0)
    && (forall p <- a.passed :: a.Active(p))
  }

  lemma {:induction false} SumsAfterUpdate(used: seq<int>, p: nat, v: int)
    requires p < |used|
    ensures Running(used[p := v]) ==
            Running(used) - (if used[p] >= 0 then 1 else 0) + (if v >= 0 then 1 else 0)
    ensures Unused(used[p := v]) ==
            Unused(used) - (if used[p] >= 0 then MAXOPBLOCKS - used[p] else 0)
                         + (if v >= 0 then MAXOPBLOCKS - v else 0)
  {
    if p == 0 {
      assert used[0 := v][1..] == used[1..];
    } else {
      SumsAfterUpdate(used[1..], p - 1, v);
      assert used[p := v][1..] == used[1..][p - 1 := v];
    }
  }

  lemma {:induction false} UnusedBounds(used: seq<int>)
    requires forall p :: 0 <= p < |used| ==> -1 <= used[p] <= MAXOPBLOCKS
    ensures 0 <= Unused(used) <= MAXOPBLOCKS * Running(used)
    ensures forall p :: 0 <= p < |used| && used[p] >= 0 ==>
              1 <= Running(used) && MAXOPBLOCKS - used[p] <= Unused(used)
  {
    if used != [] {
      UnusedBounds(used[1..]);
      forall p | 0 <= p < |used| && used[p] >= 0
        ensures 1 <= Running(used) && MAXOPBLOCKS - used[p] <= Unused(used)
      {
        if p > 0 { assert used[1..][p - 1] == used[p]; }
      }
    }
  }

  lemma {:induction false} IdleSums(n: nat)
    ensures var used := seq(n, _ => -1); Running(used) == 0 && Unused(used) == 0
  {
    if n > 0 {
      IdleSums(n - 1);
      assert seq(n, _ => -1)[1..] == seq(n - 1, _ => -1);
    }
  }

  lemma BootedInv()
    ensures Inv(Booted())
  {
    IdleSums(NPROC);
  }

  lemma StepInv(size: nat, a: Admission, e: AdmissionEvent)
    requires Inv(a) && Enabled(size, a, e)
    ensures Inv(Apply(a, e))
  {
    UnusedBounds(a.used);
    match e {
      case Begin(p) => SumsAfterUpdate(a.used, p, 0);
      case Check(p) =>
      case Write(p, b) => SumsAfterUpdate(a.used, p, a.used[p] + 1);
      case End(p) => SumsAfterUpdate(a.used, p, -1);
      case Forget =>
      case Finish =>
    }
  }

  /** The state after a run of enabled events, or None if some event was not enabled. */
  function Exec(size: nat, es: seq<AdmissionEvent>): (r: Option<Admission>) {
    if es == [] then Some(Booted())
    else
      var m := Exec(size, es[..|es| - 1]);
      var e := es[|es| - 1];
      if m.Some? && Enabled(size, m.value, e) then Some(Apply(m.value, e)) else None
  }

  /** In every reachable state the logged blocks are distinct, those logged plus
      those still reserved fit the log, and a commit is under way only when no
      operation is outstanding. */
  lemma {:induction false} ReservationHolds(size: nat, es: seq<AdmissionEvent>)
    requires Exec(size, es).Some?
    ensures Inv(Exec(size, es).value)
  {
    if es == [] {
      BootedInv();
    } else {
      ReservationHolds(size, es[..|es| - 1]);
      StepInv(size, Exec(size, es[..|es| - 1]).value, es[|es| - 1]);
    }
  }

  /** With a log region larger than LOGSIZE, an operation that has blocks left of
      its allotment passes both panic tests, and end_op never finds a commit
      running. */
  lemma NoLogPanic(size: nat, es: seq<AdmissionEvent>, p: nat)
    requires Exec(size, es).Some? && Exec(size, es).value.Active(p)
    ensures var a := Exec(size, es).value;
            && (size > LOGSIZE && a.used[p] < MAXOPBLOCKS ==> HasRoom(size, a))
            && !a.committing && |a.lh| <= LOGSIZE
  {
    ReservationHolds(size, es);
    UnusedBounds(Exec(size, es).value.used);
  }

  // ----- runs that fill the log

  /** Three operations that have appended blocks base, base + 1, ... in turn. */
  function Turns(base: nat, k: nat): (a: Admission) {
    Admission(seq(k, i => base + i), 3, false,
              [(k + 2) / 3, (k + 1) / 3, k / 3] + seq(NPROC - 3, _ => -1), {})
  }

  function Opening(): (es: seq<AdmissionEvent>) {
    [Begin(0), Begin(1), Begin(2)]
  }

  lemma OpeningReaches(size: nat, base: nat)
    ensures Exec(size, Opening()) == Some(Turns(base, 0))
  {
    var es := Opening();
    assert es[..2] == [Begin(0), Begin(1)] && [Begin(0), Begin(1)][..1] == [Begin(0)];
    assert Exec(size, [Begin(0)][..0]) == Some(Booted());
    var a1 := Apply(Booted(), Begin(0));
    assert Exec(size, [Begin(0)]) == Some(a1);
    var a2 := Apply(a1, Begin(1));
    assert Exec(size, [Begin(0), Begin(1)]) == Some(a2);
    assert Apply(a2, Begin(2)) == Turns(base, 0);
  }

  lemma ExecSnoc(size: nat, es: seq<AdmissionEvent>, e: AdmissionEvent)
    requires Exec(size, es).Some? && Enabled(size, Exec(size, es).value, e)
    ensures Exec(size, es + [e]) == Some(Apply(Exec(size, es).value, e))
  {
    assert (es + [e])[..|es|] == es;
  }

  lemma TurnAdvances(base: nat, k: nat)
    requires k < LOGSIZE
    ensures var p, a := k % 3, Turns(base, k);
            && a.Active(p) && a.used[p] < MAXOPBLOCKS && base + k !in a.lh
            && Apply(a.(passed := {p}), Write(p, base + k)) == Turns(base, k + 1)
  {
    assert Turns(base, k).lh + [base + k] == Turns(base, k + 1).lh;
  }

  lemma {:induction false} TurnsReachable(size: nat, base: nat, k: nat) returns (es: seq<AdmissionEvent>)
    requires k == 0 || (k < size && k <= LOGSIZE)
    ensures Exec(size, es) == Some(Turns(base, k))
  {
    hide Exec;
    if k == 0 {
      OpeningReaches(size, base);
      es := Opening();
    } else {
      es := TurnsReachable(size, base, k - 1);
      var p := (k - 1) % 3;
      TurnAdvances(base, k - 1);
      ExecSnoc(size, es, Check(p));
      es := es + [Check(p)];
      ExecSnoc(size, es, Write(p, base + k - 1));
      es := es + [Write(p, base + k - 1)];
    }
  }

  // ----- exactly when log_write's tests pass

  /** Whenever an operation that has appended u blocks reaches log_write, it passes the
      panic tests. */
  ghost predicate AlwaysRoom(size: nat, u: nat) {
    forall es, p: nat ::
      Exec(size, es).Some? && Exec(size, es).value.Active(p) && Exec(size, es).value.used[p] == u ==>
        HasRoom(size, Exec(size, es).value)
  }

  /** With a large enough region the tests pass at every point of an operation but the
      last: one that has appended its MAXOPBLOCKS blocks may find the log full, and
      log_write then panics even on a block it would have absorbed. */
  lemma RoomIffAllotmentLeft(size: nat, u: nat)
    requires size > LOGSIZE && u <= MAXOPBLOCKS
    ensures AlwaysRoom(size, u) <==> u < MAXOPBLOCKS
  {
    if u < MAXOPBLOCKS {
      forall es, p: nat | Exec(size, es).Some? && Exec(size, es).value.Active(p)
                          && Exec(size, es).value.used[p] == u
        ensures HasRoom(size, Exec(size, es).value)
      {
        NoLogPanic(size, es, p);
      }
    } else {
      var es := FullLogRefusesAbsorption(size);
      assert Exec(size, es).value.Active(0);
    }
  }

  /** Operations within their allotment always find room exactly when the region is
      larger than LOGSIZE; the one mkfs makes is one block too small. */
  lemma NoLogPanicIff(size: nat)
    ensures (forall u: nat :: u < MAXOPBLOCKS ==> AlwaysRoom(size, u)) <==> size > LOGSIZE
  {
    if size > LOGSIZE {
      forall u: nat | u < MAXOPBLOCKS
        ensures AlwaysRoom(size, u)
      {
        RoomIffAllotmentLeft(size, u);
      }
    } else {
      var k := if size == 0 then 0 else size - 1;
      var es := TurnsReachable(size, 0, k);
      TurnAdvances(0, k);
      var a := Turns(0, k);
      assert a.Active(k % 3) && !HasRoom(size, a);
      assert !AlwaysRoom(size, a.used[k % 3]);
    }
  }

  /** An operation that has used its allotment finds the log full, block 0 among the
      logged ones. */
  lemma FullLogRefusesAbsorption(size: nat) returns (es: seq<AdmissionEvent>)
    requires size > LOGSIZE
    ensures Exec(size, es).Some?
    ensures var a := Exec(size, es).value;
            a.Active(0) && a.used[0] == MAXOPBLOCKS && 0 in a.lh && !HasRoom(size, a)
  {
    es := TurnsReachable(size, 0, LOGSIZE);
    assert Turns(0, LOGSIZE).lh[0] == 0;
  }

  // ----- exactly when the log region can be overrun

  /** The header and the logged blocks no longer fit in the log region. */
  predicate Overrun(size: nat, a: Admission) {
    |a.lh| >= size
  }

  /** Two operations pass the test with one slot left, then both append. */
  lemma RaceOverruns(size: nat) returns (es: seq<AdmissionEvent>)
    requires 2 <= size <= LOGSIZE
    ensures Exec(size, es).Some? && Overrun(size, Exec(size, es).value)
  {
    hide Exec;
    var k := size - 2;
    es := TurnsReachable(size, 0, k);
    var p, q := k % 3, (k + 1) % 3;
    TurnAdvances(0, k);
    TurnAdvances(0, k + 1);
    ExecSnoc(size, es, Check(p));
    es := es + [Check(p)];
    ExecSnoc(size, es, Check(q));
    es := es + [Check(q)];
    assert Exec(size, es).value.passed == {p, q};
    es := BothAppend(size, es, k);
  }

  lemma BothAppend(size: nat, es: seq<AdmissionEvent>, k: nat) returns (r: seq<AdmissionEvent>)
    requires k + 1 < LOGSIZE
    requires Exec(size, es) == Some(Turns(0, k).(passed := {k % 3, (k + 1) % 3}))
    ensures Exec(size, r).Some? && |Exec(size, r).value.lh| == k + 2
  {
    hide Exec;
    var p, q := k % 3, (k + 1) % 3;
    TurnAdvances(0, k);
    TurnAdvances(0, k + 1);
    ExecSnoc(size, es, Write(p, k));
    r := es + [Write(p, k)];
    var b := Exec(size, r).value;
    assert b.lh == Turns(0, k + 1).lh && b.used == Turns(0, k + 1).used && b.passed == {q};
    ExecSnoc(size, r, Write(q, k + 1));
    r := r + [Write(q, k + 1)];
  }

  /** A region of one block holds the header alone: nothing is ever appended. */
  lemma {:induction false} HeaderOnlyRegion(es: seq<AdmissionEvent>)
    requires Exec(1, es).Some?
    ensures var a := Exec(1, es).value; a.lh == [] && a.passed == {}
  {
    if es != [] {
      HeaderOnlyRegion(es[..|es| - 1]);
    }
  }

  /** The list of logged blocks always fits the log region exactly when the region is
      larger than LOGSIZE, or is the header alone.  The region mkfs makes has size
      LOGSIZE; what stops a list that has outgrown it is the buffer cache. */
  lemma LogRegionNeverOverrunIff(size: nat)
    ensures (forall es :: Exec(size, es).Some? ==> !Overrun(size, Exec(size, es).value))
            <==> size == 1 || size > LOGSIZE
  {
    if size > LOGSIZE {
      forall es | Exec(size, es).Some?
        ensures !Overrun(size, Exec(size, es).value)
      {
        ReservationHolds(size, es);
        UnusedBounds(Exec(size, es).value.used);
      }
    } else if size == 1 {
      forall es | Exec(size, es).Some?
        ensures !Overrun(size, Exec(size, es).value)
      {
        HeaderOnlyRegion(es);
      }
    } else if size == 0 {
      assert Exec(size, []).Some?;
    } else {
      var es := RaceOverruns(size);
    }
  }
}
