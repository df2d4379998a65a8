/** The process table: scheduler, yield, sleep, fork, exit, wait and kill as a transition
    system.  A step is what a CPU does between two acquisitions or releases of process
    locks; the loops over proc[] are unrolled into one step per slot. */
module ProcMachine {
  import opened Common

  datatype State = Unused | Sleeping | Runnable | Running | Zombie
  datatype Chan = NoChan | OnProc(p: nat) | OnOther(n: nat)

  /** Slot of the first process. */
  const INIT: nat := 0

  /** Where a timer interrupt finds a process: outside fork, exit and wait, or at a point in
      them where it holds no lock. */
  datatype Spot = Outside | InForkScan(i: nat) | InExitWoke | InExitRead(op: nat)

  /** Where a process is in its kernel code. */
  datatype Pc =
    | User                          // holds no process lock
    | YieldHeld(at: Spot)           // in yield or sleep, has acquired its own lock
    | SleepHeld
    | Resuming(at: Spot)            // in sched() from yield, or about to start at forkret
    | ResumingSleep                 // in sched() from sleep
    | ForkScan(i: nat)              // allocproc, at slot i
    | ForkAt(i: nat)                // holds proc[i].lock
    | ForkMade(i: nat)              // slot i has its pid
    | ForkReady(i: nat)             // and its parent
    | ExitWoke                      // has woken init
    | ExitRead(op: nat)             // has copied p->parent
    | ExitParent(op: nat)           // holds the lock of original_parent
    | Reparent(op: nat, i: nat)     // and its own; in reparent, at slot i
    | ReparentAt(op: nat, i: nat)   // has seen that slot i is a child
    | Dead                          // in sched() from exit
    | WaitScan(i: nat, kids: bool)  // holds its own lock; in wait, at slot i
    | WaitKid(i: nat, kids: bool)   // has seen that slot i is a child
    | WaitAt(i: nat)                // holds proc[i].lock as well
    | WaitAsleep                    // in sched() from wait's sleep

  datatype Proc = Proc(st: State, chan: Chan, parent: Option<nat>, pid: int, xstate: int, killed: bool, pc: Pc)

  /** In the scheduler; running p (c->proc == p); back from p, before c->proc = 0. */
  datatype Cpu = Idle | On(p: nat) | Back(p: nat)

  datatype Sys = Sys(
    ps: seq<Proc>,
    plock: seq<Option<nat>>,        // the CPU holding each p->lock
    cpu: seq<Cpu>,
    nextpid: int,
    exits: map<int, int>,           // history: pid and status of every exit
    reaped: map<int, int>)          // history: what the calls of wait have returned

  datatype SchedAct = YieldLock | YieldSwitch | SleepLock | SleepSwitch(n: nat) | Resume
  datatype ForkAct =
    | ForkStart | ForkLock | ForkNext | ForkTake | ForkFailEarly | ForkFail | ForkParent | ForkGo | ForkNone
  datatype ExitAct =
    | ExitStart | ExitCopy | ExitLockParent | ExitLockSelf | ReparentTest | ReparentSet | ExitZombie(status: int)
  datatype WaitAct =
    | WaitStart | WaitTest | WaitLock | WaitSkip | WaitReap | WaitCopyFail | WaitNone | WaitSleep | WaitResume
  datatype Act = SchedStep(y: SchedAct) | ForkStep(f: ForkAct) | ExitStep(x: ExitAct) | WaitStep(w: WaitAct)

  datatype Event =
    | Pick(c: nat, p: nat)          // scheduler: acquire(&p->lock), RUNNING, swtch
    | Return(c: nat)                // scheduler: c->proc = 0, release(&p->lock)
    | Poke(i: nat, kill: bool)      // wakeup or kill finds slot i
    | Do(c: nat, a: Act)            // the process on c

  predicate Shape(s: Sys) { |s.plock| == |s.ps| && INIT < |s.ps| }

  predicate Free(s: Sys, q: nat)
    requires Shape(s)
  {
    q < |s.ps| && s.plock[q].None?
  }

  /** The process locks p's code holds at k. */
  predicate Holds(k: Pc, p: nat, q: nat) {
    match k
    case YieldHeld(_) => q == p
    case SleepHeld => q == p
    case Resuming(_) => q == p
    case ResumingSleep => q == p
    case ForkAt(i) => q == i
    case ForkMade(i) => q == i
    case ForkReady(i) => q == i
    case ExitParent(op) => q == op
    case Reparent(op, _) => q == op || q == p
    case ReparentAt(op, _) => q == op || q == p
    case WaitScan(_, _) => q == p
    case WaitKid(_, _) => q == p
    case WaitAt(i) => q == p || q == i
    case WaitAsleep => q == p
    case _ => false
  }

  /** The timer may interrupt the process here and make it yield. */
  predicate Preemptible(k: Pc) { k.User? || k.ForkScan? || k.ExitWoke? || k.ExitRead? }

  function SpotOf(k: Pc): (at: Spot)
    requires Preemptible(k)
    ensures PcOf(at) == k
  {
    match k
    case User => Outside
    case ForkScan(i) => InForkScan(i)
    case ExitWoke => InExitWoke
    case ExitRead(op) => InExitRead(op)
  }

  function PcOf(at: Spot): (k: Pc) {
    match at
    case Outside => User
    case InForkScan(i) => ForkScan(i)
    case InExitWoke => ExitWoke
    case InExitRead(op) => ExitRead(op)
  }

  predicate SchedEnabled(s: Sys, p: nat, a: SchedAct)
    requires Shape(s) && p < |s.ps|
  {
    var k := s.ps[p].pc;
    match a
    case YieldLock => Preemptible(k) && Free(s, p)
    case YieldSwitch => k.YieldHeld?
    case SleepLock => k.User? && Free(s, p)
    case SleepSwitch(_) => k.SleepHeld?
    case Resume => k.Resuming? || k.ResumingSleep?
  }

  predicate ForkEnabled(s: Sys, p: nat, a: ForkAct)
    requires Shape(s) && p < |s.ps|
  {
    var k := s.ps[p].pc;
    match a
    case ForkStart => k.User?
    case ForkLock => k.ForkScan? && Free(s, k.i)
    case ForkNext => k.ForkAt? && k.i < |s.ps| && !s.ps[k.i].st.Unused?
    case ForkTake => k.ForkAt? && k.i < |s.ps| && s.ps[k.i].st.Unused?
    case ForkFailEarly => k.ForkMade? && k.i < |s.ps|
    case ForkFail => k.ForkMade? && k.i < |s.ps|
    case ForkParent => k.ForkMade? && k.i < |s.ps|
    case ForkGo => k.ForkReady? && k.i < |s.ps|
    case ForkNone => k.ForkScan? && k.i == |s.ps|
  }

  predicate ExitEnabled(s: Sys, p: nat, a: ExitAct)
    requires Shape(s) && p < |s.ps|
  {
    var k := s.ps[p].pc;
    match a
    case ExitStart => k.User? && p != INIT && Free(s, INIT)
    case ExitCopy => k.ExitWoke? && Free(s, p) && s.ps[p].parent.Some?
    case ExitLockParent => k.ExitRead? && Free(s, k.op)
    case ExitLockSelf => k.ExitParent? && Free(s, p)
    case ReparentTest => k.Reparent? && k.i < |s.ps|
    case ReparentSet => k.ReparentAt? && Free(s, k.i)
    case ExitZombie(_) => k.Reparent? && k.i == |s.ps| && k.op < |s.ps|
  }

  predicate WaitEnabled(s: Sys, p: nat, a: WaitAct)
    requires Shape(s) && p < |s.ps|
  {
    var k := s.ps[p].pc;
    match a
    case WaitStart => k.User? && Free(s, p)
    case WaitTest => k.WaitScan? && k.i < |s.ps|
    case WaitLock => k.WaitKid? && Free(s, k.i)
    case WaitSkip => k.WaitAt? && k.i < |s.ps| && !s.ps[k.i].st.Zombie?
    case WaitReap => k.WaitAt? && k.i < |s.ps| && s.ps[k.i].st.Zombie?
    case WaitCopyFail => k.WaitAt? && k.i < |s.ps| && s.ps[k.i].st.Zombie?
    case WaitNone => k.WaitScan? && k.i == |s.ps| && (!k.kids || s.ps[p].killed)
    case WaitSleep => k.WaitScan? && k.i == |s.ps| && k.kids && !s.ps[p].killed
    case WaitResume => k.WaitAsleep?
  }

  predicate ActEnabled(s: Sys, p: nat, a: Act)
    requires Shape(s) && p < |s.ps|
  {
    match a
    case SchedStep(y) => SchedEnabled(s, p, y)
    case ForkStep(f) => ForkEnabled(s, p, f)
    case ExitStep(x) => ExitEnabled(s, p, x)
    case WaitStep(w) => WaitEnabled(s, p, w)
  }

  predicate Enabled(s: Sys, e: Event)
    requires Shape(s)
  {
    match e
    case Pick(c, p) => c < |s.cpu| && s.cpu[c].Idle? && Free(s, p) && s.ps[p].st.Runnable?
    case Return(c) => c < |s.cpu| && s.cpu[c].Back? && s.cpu[c].p < |s.ps|
    case Poke(i, _) => Free(s, i)
    case Do(c, a) => c < |s.cpu| && s.cpu[c].On? && s.cpu[c].p < |s.ps| && ActEnabled(s, s.cpu[c].p, a)
  }

  // ----- the effect of a step

  /** What the process p on a CPU changes: its own slot, at most one other slot x, one lock
      taken, some dropped; with leave it calls sched(), handing its lock to the scheduler. */
  datatype Effect = Effect(me: Proc, x: nat, other: Proc, take: Option<nat>, drops: set<nat>, leave: bool)

  function Solo(p: nat, me: Proc): (f: Effect) { Effect(me, p, me, None, {}, false) }

  function Woken(r: Proc): (r': Proc) { if r.st.Sleeping? then r.(st := Runnable) else r }

  /** wakeup1, on slot q. */
  function Wake1(r: Proc, q: nat): (r': Proc) { if r.chan == OnProc(q) then Woken(r) else r }

  /** freeproc. */
  const Freed := Proc(Unused, NoChan, None, 0, 0, false, User)

  function SchedEffect(s: Sys, p: nat, a: SchedAct): (f: Effect)
    requires Shape(s) && p < |s.ps| && SchedEnabled(s, p, a)
  {
    var r := s.ps[p];
    var k := r.pc;
    match a
    case YieldLock => Solo(p, r.(pc := YieldHeld(SpotOf(k)))).(take := Some(p))
    case YieldSwitch => Solo(p, r.(st := Runnable, pc := Resuming(k.at))).(leave := true)
    case SleepLock => Solo(p, r.(pc := SleepHeld)).(take := Some(p))
    case SleepSwitch(n) => Solo(p, r.(st := Sleeping, chan := OnOther(n), pc := ResumingSleep)).(leave := true)
    case Resume =>
      (if k.Resuming? then Solo(p, r.(pc := PcOf(k.at))) else Solo(p, r.(pc := User, chan := NoChan))).(drops := {p})
  }

  function ForkEffect(s: Sys, p: nat, a: ForkAct): (f: Effect)
    requires Shape(s) && p < |s.ps| && ForkEnabled(s, p, a)
  {
    var r := s.ps[p];
    var k := r.pc;
    match a
    case ForkStart => Solo(p, r.(pc := ForkScan(0)))
    case ForkLock => Solo(p, r.(pc := ForkAt(k.i))).(take := Some(k.i))
    case ForkNext => Solo(p, r.(pc := ForkScan(k.i + 1))).(drops := {k.i})
    case ForkTake => Effect(r.(pc := ForkMade(k.i)), k.i, s.ps[k.i].(pid := s.nextpid), None, {}, false)
    case ForkFailEarly => Solo(p, r.(pc := User)).(drops := {k.i})
    case ForkFail => Effect(r.(pc := User), k.i, Freed, None, {k.i}, false)
    case ForkParent => Effect(r.(pc := ForkReady(k.i)), k.i, s.ps[k.i].(parent := Some(p)), None, {}, false)
    case ForkGo => Effect(r.(pc := User), k.i, s.ps[k.i].(st := Runnable, pc := Resuming(Outside)), None, {k.i}, false)
    case ForkNone => Solo(p, r.(pc := User))
  }

  function ExitEffect(s: Sys, p: nat, a: ExitAct): (f: Effect)
    requires Shape(s) && p < |s.ps| && ExitEnabled(s, p, a)
  {
    var r := s.ps[p];
    var k := r.pc;
    match a
    case ExitStart => Effect(r.(pc := ExitWoke), INIT, Wake1(s.ps[INIT], INIT), None, {}, false)
    case ExitCopy => Solo(p, r.(pc := ExitRead(r.parent.value)))
    case ExitLockParent => Solo(p, r.(pc := ExitParent(k.op))).(take := Some(k.op))
    case ExitLockSelf => Solo(p, r.(pc := Reparent(k.op, 0))).(take := Some(p))
    case ReparentTest =>
      Solo(p, r.(pc := if s.ps[k.i].parent == Some(p) then ReparentAt(k.op, k.i) else Reparent(k.op, k.i + 1)))
    case ReparentSet => Effect(r.(pc := Reparent(k.op, k.i + 1)), k.i, s.ps[k.i].(parent := Some(INIT)), None, {}, false)
    case ExitZombie(v) =>
      Effect(r.(st := Zombie, xstate := v, pc := Dead), k.op, Wake1(s.ps[k.op], k.op), None, {k.op}, true)
  }

  function WaitEffect(s: Sys, p: nat, a: WaitAct): (f: Effect)
    requires Shape(s) && p < |s.ps| && WaitEnabled(s, p, a)
  {
    var r := s.ps[p];
    var k := r.pc;
    match a
    case WaitStart => Solo(p, r.(pc := WaitScan(0, false))).(take := Some(p))
    case WaitTest =>
      Solo(p, r.(pc := if s.ps[k.i].parent == Some(p) then WaitKid(k.i, k.kids) else WaitScan(k.i + 1, k.kids)))
    case WaitLock => Solo(p, r.(pc := WaitAt(k.i))).(take := Some(k.i))
    case WaitSkip => Solo(p, r.(pc := WaitScan(k.i + 1, true))).(drops := {k.i})
    case WaitReap => Effect(r.(pc := User), k.i, Freed, None, {k.i, p}, false)
    case WaitCopyFail => Solo(p, r.(pc := User)).(drops := {k.i, p})
    case WaitNone => Solo(p, r.(pc := User)).(drops := {p})
    case WaitSleep => Solo(p, r.(st := Sleeping, chan := OnProc(p), pc := WaitAsleep)).(leave := true)
    case WaitResume => Solo(p, r.(chan := NoChan, pc := WaitScan(0, false)))
  }

  function EffectOf(s: Sys, p: nat, a: Act): (f: Effect)
    requires Shape(s) && p < |s.ps| && ActEnabled(s, p, a)
  {
    match a
    case SchedStep(y) => SchedEffect(s, p, y)
    case ForkStep(f) => ForkEffect(s, p, f)
    case ExitStep(x) => ExitEffect(s, p, x)
    case WaitStep(w) => WaitEffect(s, p, w)
  }

  function SlotsAfter(ps: seq<Proc>, p: nat, f: Effect): (r: seq<Proc>)
    requires p < |ps|
    ensures |r| == |ps|
  {
    (if f.x != p && f.x < |ps| then ps[f.x := f.other] else ps)[p := f.me]
  }

  function LocksAfter(plock: seq<Option<nat>>, c: nat, f: Effect): (r: seq<Option<nat>>)
    ensures |r| == |plock|
    ensures forall q: nat :: q < |plock| ==> r[q] == LockAfter(plock[q], q, c, f)
  {
    seq(|plock|, q requires 0 <= q < |plock| => LockAfter(plock[q], q, c, f))
  }

  function LockAfter(was: Option<nat>, q: nat, c: nat, f: Effect): (r: Option<nat>) {
    if f.take == Some(q) then Some(c) else if q in f.drops then None else was
  }

  function Acted(s: Sys, c: nat, p: nat, f: Effect): (s': Sys)
    requires Shape(s) && p < |s.ps| && c < |s.cpu|
    ensures Shape(s') && |s'.ps| == |s.ps| && |s'.cpu| == |s.cpu|
  {
    s.(ps := SlotsAfter(s.ps, p, f), plock := LocksAfter(s.plock, c, f),
       cpu := if f.leave then s.cpu[c := Back(p)] else s.cpu)
  }

  /** The pid counter and the history. */
  function Noted(s: Sys, p: nat, a: Act, s': Sys): (s'': Sys)
    requires Shape(s) && p < |s.ps| && ActEnabled(s, p, a)
  {
    var k := s.ps[p].pc;
    match a
    case ForkStep(ForkTake) => s'.(nextpid := s.nextpid + 1)
    case ExitStep(ExitZombie(v)) => s'.(exits := s.exits[s.ps[p].pid := v])
    case WaitStep(WaitReap) => s'.(reaped := s.reaped[s.ps[k.i].pid := s.ps[k.i].xstate])
    case _ => s'
  }

  function Apply(s: Sys, e: Event): (s': Sys)
    requires Shape(s) && Enabled(s, e)
    ensures Shape(s') && |s'.ps| == |s.ps| && |s'.cpu| == |s.cpu|
  {
    match e
    case Pick(c, p) =>
      s.(ps := s.ps[p := s.ps[p].(st := Running)], plock := s.plock[p := Some(c)], cpu := s.cpu[c := On(p)])
    case Return(c) => s.(plock := s.plock[s.cpu[c].p := None], cpu := s.cpu[c := Idle])
    case Poke(i, kill) => s.(ps := Poked(s.ps, i, kill))
    case Do(c, a) =>
      var p := s.cpu[c].p;
      Noted(s, p, a, Acted(s, c, p, EffectOf(s, p, a)))
  }

  // ----- the invariant, slot by slot

  /** CPU c holds q's lock. */
  predicate CpuHolds(s: Sys, c: nat, q: nat)
    requires c < |s.cpu|
  {
    match s.cpu[c]
    case Idle => false
    case On(p) => p < |s.ps| && Holds(s.ps[p].pc, p, q)
    case Back(p) => q == p
  }

  predicate LockOk(s: Sys, c: nat, q: nat)
    requires Shape(s) && c < |s.cpu| && q < |s.ps|
  {
    s.plock[q] == Some(c) <==> CpuHolds(s, c, q)
  }

  /** The CPU's process is running, or has just stopped. */
  predicate CpuOk(s: Sys, c: nat)
    requires c < |s.cpu|
  {
    match s.cpu[c]
    case Idle => true
    case On(p) => p < |s.ps| && s.ps[p].st.Running?
    case Back(p) => p < |s.ps| && (s.ps[p].st.Runnable? || s.ps[p].st.Sleeping? || s.ps[p].st.Zombie?)
  }

  predicate Serves(u: Cpu, p: nat) { !u.Idle? && u.p == p }

  /** No two CPUs have one process. */
  predicate OneCpu(s: Sys, c: nat, d: nat)
    requires c < |s.cpu| && d < |s.cpu|
  {
    c != d && !s.cpu[c].Idle? ==> !Serves(s.cpu[d], s.cpu[c].p)
  }

  ghost predicate HasCpu(s: Sys, p: nat) {
    exists c :: 0 <= c < |s.cpu| && s.cpu[c] == On(p)
  }

  /** What a slot's state says about where its code is. */
  predicate SlotOk(r: Proc, p: nat) {
    && (r.st.Runnable? ==> r.pc.Resuming? || r.pc.ResumingSleep? || r.pc.WaitAsleep?)
    && (r.st.Sleeping? ==> r.pc.ResumingSleep? || r.pc.WaitAsleep?)
    && (r.st.Zombie? ==> r.pc.Dead? && p != INIT)
    && (r.st.Running? ==> !r.pc.Dead?)
    && (p == INIT ==> r.parent.None? && !r.st.Unused? && !Exiting(r.pc))
    && (r.pc.WaitAsleep? ==> r.chan == OnProc(p))
    && (r.chan.OnProc? ==> r.chan.p == p && r.pc.WaitAsleep?)
    && (r.st.Unused? ==> r.pc.User?)
  }

  predicate Exiting(k: Pc) {
    || k.ExitWoke? || k.ExitRead? || k.ExitParent? || k.Reparent? || k.ReparentAt?
    || ((k.YieldHeld? || k.Resuming?) && (k.at.InExitWoke? || k.at.InExitRead?))
  }

  /** What a process that was interrupted will need where it goes on. */
  predicate SpotOk(slots: nat, r: Proc, at: Spot) {
    match at
    case InForkScan(i) => i <= slots
    case InExitRead(op) => op < slots && (r.parent == Some(op) || r.parent == Some(INIT))
    case _ => true
  }

  /** Parents are slots; an unused slot has a parent only inside fork. */
  predicate VacantOk(ps: seq<Proc>, i: nat)
    requires i < |ps|
  {
    ps[i].parent.Some? ==>
      var r := ps[i].parent.value;
      r < |ps| && (ps[i].st.Unused? ==> ps[r].st.Running? && ps[r].pc == ForkReady(i))
  }

  /** What a running process's place says about the slots it deals with. */
  predicate PlaceOk(ps: seq<Proc>, p: nat)
    requires p < |ps|
  {
    var r := ps[p];
    && (r.pc.YieldHeld? || r.pc.Resuming? ==> SpotOk(|ps|, r, r.pc.at))
    && (r.st.Running? ==>
      match r.pc
      case ForkAt(i) => i < |ps|
      case ForkScan(i) => i <= |ps|
      case ForkMade(i) => i < |ps| && ps[i].st.Unused? && ps[i].pid != 0
      case ForkReady(i) => i < |ps| && ps[i].st.Unused? && ps[i].pid != 0 && ps[i].parent == Some(p)
      case ExitRead(op) => op < |ps| && (r.parent == Some(op) || r.parent == Some(INIT))
      case ExitParent(op) => op < |ps| && (r.parent == Some(op) || r.parent == Some(INIT))
      case Reparent(op, i) => i <= |ps| && op < |ps| && op != p && (r.parent == Some(op) || r.parent == Some(INIT))
      case ReparentAt(op, i) =>
        && i < |ps| && op < |ps| && op != p && (r.parent == Some(op) || r.parent == Some(INIT))
        && ps[i].parent == Some(p)
      case WaitScan(i, _) => i <= |ps|
      case WaitKid(i, _) => i < |ps| && ps[i].parent == Some(p)
      case WaitAt(i) => i < |ps| && i != p && ps[i].parent == Some(p)
      case _ => true)
  }

  /** Every live process but the first has a parent that has not exited. */
  predicate ParentOk(ps: seq<Proc>, q: nat)
    requires q < |ps|
  {
    !ps[q].st.Unused? && q != INIT ==>
      && ps[q].parent.Some? && ps[q].parent.value < |ps|
      && !ps[ps[q].parent.value].st.Unused? && !ps[ps[q].parent.value].st.Zombie?
  }

  /** reparent leaves no child of p behind it. */
  predicate SweptOk(ps: seq<Proc>, p: nat, j: nat)
    requires p < |ps| && j < |ps|
  {
    ps[p].st.Running? && (ps[p].pc.Reparent? || ps[p].pc.ReparentAt?) && j < ps[p].pc.i ==>
      ps[j].parent != Some(p)
  }

  /** wait leaves no zombie behind it, and does not sleep over one. */
  predicate WaitOk(ps: seq<Proc>, r: nat, j: nat)
    requires r < |ps| && j < |ps|
  {
    var k := ps[r].pc;
    r != INIT && ps[j].parent == Some(r)
    && ((ps[r].st.Running? && (k.WaitScan? || k.WaitKid? || k.WaitAt?) && j < k.i)
        || (ps[r].st.Sleeping? && k.WaitAsleep?)) ==>
      !ps[j].st.Zombie?
  }

  predicate PidOk(s: Sys, i: nat)
    requires i < |s.ps|
  {
    0 <= s.ps[i].pid < s.nextpid && (!s.ps[i].st.Unused? ==> s.ps[i].pid != 0)
  }

  predicate PidsDiffer(s: Sys, i: nat, j: nat)
    requires i < |s.ps| && j < |s.ps|
  {
    i != j && s.ps[i].pid != 0 ==> s.ps[i].pid != s.ps[j].pid
  }

  /** A zombie's exit is on record and has not been collected; nobody else's is. */
  predicate RecordOk(s: Sys, i: nat)
    requires i < |s.ps|
  {
    var r := s.ps[i];
    if r.st.Zombie? then r.pid in s.exits && s.exits[r.pid] == r.xstate && r.pid !in s.reaped
    else r.pid !in s.exits
  }

  ghost predicate ZombieWith(s: Sys, x: int) {
    exists i :: 0 <= i < |s.ps| && s.ps[i].st.Zombie? && s.ps[i].pid == x
  }

  ghost predicate HistoryOk(s: Sys, x: int) {
    && (x in s.exits ==> 0 < x < s.nextpid && (x in s.reaped || ZombieWith(s, x)))
    && (x in s.reaped ==> x in s.exits && s.reaped[x] == s.exits[x])
  }

  /** Locks, CPUs and places. */
  ghost predicate SchedInv(s: Sys) {
    && Shape(s) && s.nextpid > 0
    && (forall c: nat, q: nat :: c < |s.cpu| && q < |s.ps| ==> LockOk(s, c, q))
    && (forall c: nat :: c < |s.cpu| ==> CpuOk(s, c))
    && (forall c: nat, d: nat :: c < |s.cpu| && d < |s.cpu| ==> OneCpu(s, c, d))
    && (forall p: nat :: p < |s.ps| && s.ps[p].st.Running? ==> HasCpu(s, p))
    && (forall p: nat :: p < |s.ps| ==> SlotOk(s.ps[p], p) && PlaceOk(s.ps, p) && VacantOk(s.ps, p))
  }

  ghost predicate FamilyInv(s: Sys)
    requires Shape(s)
  {
    && (forall q: nat :: q < |s.ps| ==> ParentOk(s.ps, q))
    && (forall p: nat, j: nat :: p < |s.ps| && j < |s.ps| ==> SweptOk(s.ps, p, j) && WaitOk(s.ps, p, j))
  }

  ghost predicate RecordInv(s: Sys)
    requires Shape(s)
  {
    && (forall i: nat :: i < |s.ps| ==> PidOk(s, i) && RecordOk(s, i))
    && (forall i: nat, j: nat :: i < |s.ps| && j < |s.ps| ==> PidsDiffer(s, i, j))
    && (forall x :: HistoryOk(s, x))
  }

  ghost predicate Inv(s: Sys) {
    SchedInv(s) && FamilyInv(s) && RecordInv(s)
  }

  // ----- what each act does, case by case

  /** The locks p's code holds are those it held and the one it takes, less those it drops. */
  predicate LockTable(k: Pc, p: nat, f: Effect, q: nat) {
    (if f.leave then q == p else Holds(f.me.pc, p, q)) <==> (Holds(k, p, q) || f.take == Some(q)) && q !in f.drops
  }

  /** How another slot may change under p's hands. */
  predicate Change(o: Proc, r: Proc, p: nat) {
    || r == o
    || (o.st.Sleeping? && r == o.(st := Runnable))
    || (o.st.Unused? && (r == o.(pid := r.pid) || r == Freed || r == o.(parent := Some(p)) || r == o.(st := Runnable, pc := Resuming(Outside))))
    || (o.parent == Some(p) && (r == o.(parent := Some(INIT)) || (o.st.Zombie? && r == Freed)))
  }

  /** What is known of the process p running on CPU c. */
  predicate Placed(s: Sys, c: nat, p: nat)
    requires Shape(s) && p < |s.ps|
  {
    s.ps[p].st.Running? && SlotOk(s.ps[p], p) && PlaceOk(s.ps, p) && (Holds(s.ps[p].pc, p, p) ==> s.plock[p] == Some(c))
  }

  predicate LocksFit(s: Sys, p: nat, f: Effect, q: nat)
    requires Shape(s) && p < |s.ps|
  {
    && LockTable(s.ps[p].pc, p, f, q) && (f.take == Some(q) ==> Free(s, q))
    && (q in f.drops ==> Holds(s.ps[p].pc, p, q))
  }

  predicate EffectOk(s: Sys, p: nat, f: Effect)
    requires Shape(s) && p < |s.ps|
  {
    && f.x < |s.ps|
    && (f.x != p ==> (Free(s, f.x) || Holds(s.ps[p].pc, p, f.x)) && Change(s.ps[f.x], f.other, p)
                     && (SlotOk(s.ps[f.x], f.x) ==> SlotOk(f.other, f.x)))
    && f.me.parent == s.ps[p].parent && f.me.pid == s.ps[p].pid
    && (f.leave <==> !f.me.st.Running?) && !f.me.st.Unused? && SlotOk(f.me, p)
    && (f.me.st.Zombie? ==>
          s.ps[p].pc.Reparent? && s.ps[p].pc.i == |s.ps| && f.x == s.ps[p].pc.op && f.x != p
          && f.other == Wake1(s.ps[f.x], f.x))
    && (s.ps[p].pc.ForkReady? ==> f.x == s.ps[p].pc.i && f.other.st.Runnable?)
    && (f.x != p && s.ps[f.x].st.Unused? && !f.other.st.Unused? ==> s.ps[p].pc == ForkReady(f.x))
    && (f.x != p && f.other.parent == Some(p) && f.other.st.Unused? ==>
          f.me.pc == ForkReady(f.x) || f.other.parent == s.ps[f.x].parent)
  }

  lemma SchedLocks(s: Sys, c: nat, p: nat, a: SchedAct, q: nat)
    requires Shape(s) && p < |s.ps| && SchedEnabled(s, p, a) && Placed(s, c, p)
    requires Holds(s.ps[p].pc, p, q) && q < |s.ps| ==> s.plock[q] == Some(c)
    ensures LocksFit(s, p, SchedEffect(s, p, a), q)
  {
  }

  lemma SchedChanges(s: Sys, c: nat, p: nat, a: SchedAct)
    requires Shape(s) && p < |s.ps| && SchedEnabled(s, p, a) && Placed(s, c, p)
    ensures EffectOk(s, p, SchedEffect(s, p, a))
  {
  }

  lemma ForkLocks(s: Sys, c: nat, p: nat, a: ForkAct, q: nat)
    requires Shape(s) && p < |s.ps| && ForkEnabled(s, p, a) && Placed(s, c, p)
    requires Holds(s.ps[p].pc, p, q) && q < |s.ps| ==> s.plock[q] == Some(c)
    ensures LocksFit(s, p, ForkEffect(s, p, a), q)
  {
  }

  lemma ForkChanges(s: Sys, c: nat, p: nat, a: ForkAct)
    requires Shape(s) && p < |s.ps| && ForkEnabled(s, p, a) && Placed(s, c, p)
    ensures EffectOk(s, p, ForkEffect(s, p, a))
  {
  }

  lemma ExitLocks(s: Sys, c: nat, p: nat, a: ExitAct, q: nat)
    requires Shape(s) && p < |s.ps| && ExitEnabled(s, p, a) && Placed(s, c, p)
    requires Holds(s.ps[p].pc, p, q) && q < |s.ps| ==> s.plock[q] == Some(c)
    ensures LocksFit(s, p, ExitEffect(s, p, a), q)
  {
  }

  lemma ExitChanges(s: Sys, c: nat, p: nat, a: ExitAct)
    requires Shape(s) && p < |s.ps| && ExitEnabled(s, p, a) && Placed(s, c, p)
    ensures EffectOk(s, p, ExitEffect(s, p, a))
  {
  }

  lemma WaitLocks(s: Sys, c: nat, p: nat, a: WaitAct, q: nat)
    requires Shape(s) && p < |s.ps| && WaitEnabled(s, p, a) && Placed(s, c, p)
    requires Holds(s.ps[p].pc, p, q) && q < |s.ps| ==> s.plock[q] == Some(c)
    ensures LocksFit(s, p, WaitEffect(s, p, a), q)
  {
  }

  lemma WaitChanges(s: Sys, c: nat, p: nat, a: WaitAct)
    requires Shape(s) && p < |s.ps| && WaitEnabled(s, p, a) && Placed(s, c, p)
    ensures EffectOk(s, p, WaitEffect(s, p, a))
  {
  }

  lemma ActTable(s: Sys, c: nat, p: nat, a: Act, q: nat)
    requires Shape(s) && p < |s.ps| && ActEnabled(s, p, a) && Placed(s, c, p)
    requires Holds(s.ps[p].pc, p, q) && q < |s.ps| ==> s.plock[q] == Some(c)
    ensures EffectOk(s, p, EffectOf(s, p, a)) && LocksFit(s, p, EffectOf(s, p, a), q)
  {
    hide EffectOk, LocksFit, SchedEffect, ForkEffect, ExitEffect, WaitEffect;
    match a
    case SchedStep(y) => { SchedLocks(s, c, p, y, q); SchedChanges(s, c, p, y); }
    case ForkStep(f) => { ForkLocks(s, c, p, f, q); ForkChanges(s, c, p, f); }
    case ExitStep(x) => { ExitLocks(s, c, p, x, q); ExitChanges(s, c, p, x); }
    case WaitStep(w) => { WaitLocks(s, c, p, w, q); WaitChanges(s, c, p, w); }
  }

  // ----- steps of a process keep the scheduling invariant

  lemma DoFacts(s: Sys, c: nat, a: Act, q: nat)
    requires SchedInv(s) && Enabled(s, Do(c, a))
    ensures var p := s.cpu[c].p;
            && Placed(s, c, p) && EffectOk(s, p, EffectOf(s, p, a)) && LocksFit(s, p, EffectOf(s, p, a), q)
            && (q < |s.ps| ==> (Holds(s.ps[p].pc, p, q) <==> s.plock[q] == Some(c)))
  {
    var p := s.cpu[c].p;
    assert CpuOk(s, c) && LockOk(s, c, p);
    assert q < |s.ps| ==> LockOk(s, c, q);
    hide SchedInv, EffectOf, EffectOk, LocksFit, PlaceOk, ActEnabled;
    ActTable(s, c, p, a, q);
  }

  /** No other CPU's code holds the lock of the slot that is changed. */
  lemma DoAlone(s: Sys, c: nat, a: Act, d: nat)
    requires SchedInv(s) && Enabled(s, Do(c, a)) && d < |s.cpu| && d != c
    ensures var p := s.cpu[c].p;
            var f := EffectOf(s, p, a);
            && f.x < |s.ps| && (f.x != p ==> !CpuHolds(s, d, f.x))
            && (!s.cpu[d].Idle? ==> s.cpu[d].p < |s.ps| && s.cpu[d].p != p && SlotOk(s.ps[s.cpu[d].p], s.cpu[d].p))
  {
    var p := s.cpu[c].p;
    var f := EffectOf(s, p, a);
    DoFacts(s, c, a, 0);
    DoFacts(s, c, a, f.x);
    assert OneCpu(s, c, d) && CpuOk(s, d) && LockOk(s, d, f.x);
    hide SchedInv, EffectOf, LocksFit, PlaceOk, ActEnabled;
  }

  lemma DoLock(s: Sys, c: nat, a: Act, d: nat, q: nat)
    requires SchedInv(s) && Enabled(s, Do(c, a)) && d < |s.cpu| && q < |s.ps|
    ensures LockOk(Apply(s, Do(c, a)), d, q)
  {
    var p := s.cpu[c].p;
    DoFacts(s, c, a, q);
    assert LockOk(s, d, q) && LockOk(s, c, q) && CpuOk(s, d);
    if d == c {
      hide *;
      LockHere(s, c, a, q);
    } else {
      DoAlone(s, c, a, d);
      hide *;
      LockThere(s, c, a, d, q);
    }
  }

  lemma LockHere(s: Sys, c: nat, a: Act, q: nat)
    requires Shape(s) && Enabled(s, Do(c, a)) && q < |s.ps| && LockOk(s, c, q)
    requires EffectOk(s, s.cpu[c].p, EffectOf(s, s.cpu[c].p, a)) && LocksFit(s, s.cpu[c].p, EffectOf(s, s.cpu[c].p, a), q)
    ensures LockOk(Apply(s, Do(c, a)), c, q)
  {
    hide EffectOf, ActEnabled, SlotOk, Holds, PlaceOk, Change;
  }

  lemma LockThere(s: Sys, c: nat, a: Act, d: nat, q: nat)
    requires Shape(s) && Enabled(s, Do(c, a)) && q < |s.ps| && c != d && d < |s.cpu|
    requires LockOk(s, c, q) && LockOk(s, d, q) && CpuOk(s, d)
    requires EffectOk(s, s.cpu[c].p, EffectOf(s, s.cpu[c].p, a)) && LocksFit(s, s.cpu[c].p, EffectOf(s, s.cpu[c].p, a), q)
    requires !s.cpu[d].Idle? ==> s.cpu[d].p < |s.ps| && s.cpu[d].p != s.cpu[c].p
    ensures LockOk(Apply(s, Do(c, a)), d, q)
  {
    hide EffectOf, ActEnabled, SlotOk, Holds, PlaceOk;
  }

  lemma DoCpu(s: Sys, c: nat, a: Act, d: nat)
    requires SchedInv(s) && Enabled(s, Do(c, a)) && d < |s.cpu|
    ensures CpuOk(Apply(s, Do(c, a)), d)
  {
    DoFacts(s, c, a, 0);
    assert CpuOk(s, d);
    if d != c {
      DoAlone(s, c, a, d);
    }
    hide *;
    CpuThere(s, c, a, d);
  }

  lemma CpuThere(s: Sys, c: nat, a: Act, d: nat)
    requires Shape(s) && Enabled(s, Do(c, a)) && d < |s.cpu| && CpuOk(s, d)
    requires EffectOk(s, s.cpu[c].p, EffectOf(s, s.cpu[c].p, a))
    requires d != c && !s.cpu[d].Idle? ==> s.cpu[d].p != s.cpu[c].p
    requires var f := EffectOf(s, s.cpu[c].p, a); d != c && f.x != s.cpu[c].p ==> !CpuHolds(s, d, f.x)
    ensures CpuOk(Apply(s, Do(c, a)), d)
  {
    hide EffectOf, ActEnabled, SlotOk, Holds, PlaceOk;
  }

  lemma DoOne(s: Sys, c: nat, a: Act, d1: nat, d2: nat)
    requires SchedInv(s) && Enabled(s, Do(c, a)) && d1 < |s.cpu| && d2 < |s.cpu|
    ensures OneCpu(Apply(s, Do(c, a)), d1, d2)
  {
    assert OneCpu(s, d1, d2);
    hide SchedInv, EffectOf, ActEnabled;
  }

  lemma DoRunning(s: Sys, c: nat, a: Act, q: nat)
    requires SchedInv(s) && Enabled(s, Do(c, a)) && q < |s.ps| && Apply(s, Do(c, a)).ps[q].st.Running?
    ensures HasCpu(Apply(s, Do(c, a)), q)
  {
    DoFacts(s, c, a, 0);
    assert s.ps[q].st.Running? ==> HasCpu(s, q);
    hide *;
    StillRuns(s, c, a, q);
  }

  lemma StillRuns(s: Sys, c: nat, a: Act, q: nat)
    requires Shape(s) && Enabled(s, Do(c, a)) && q < |s.ps| && Apply(s, Do(c, a)).ps[q].st.Running?
    requires EffectOk(s, s.cpu[c].p, EffectOf(s, s.cpu[c].p, a))
    requires s.ps[q].st.Running? ==> HasCpu(s, q)
    ensures HasCpu(Apply(s, Do(c, a)), q)
  {
    hide EffectOf, ActEnabled, SlotOk, Holds, PlaceOk;
    var s' := Apply(s, Do(c, a));
    if q == s.cpu[c].p {
      assert s'.cpu[c] == On(q);
    } else {
      assert s.ps[q].st.Running?;
      var d :| 0 <= d < |s.cpu| && s.cpu[d] == On(q);
      assert s'.cpu[d] == On(q);
    }
  }

  lemma DoSlot(s: Sys, c: nat, a: Act, q: nat)
    requires SchedInv(s) && Enabled(s, Do(c, a)) && q < |s.ps|
    ensures SlotOk(Apply(s, Do(c, a)).ps[q], q)
  {
    DoFacts(s, c, a, 0);
    assert SlotOk(s.ps[q], q);
    hide SchedInv, EffectOf, PlaceOk, ActEnabled, SlotOk, Holds;
  }

  /** The process of another CPU; the slot x it might rely on is not the one changed, or is
      changed in a way it does not mind. */
  lemma DoPlaceOther(s: Sys, c: nat, a: Act, q: nat)
    requires SchedInv(s) && Enabled(s, Do(c, a)) && q < |s.ps| && q != s.cpu[c].p
    ensures PlaceOk(Apply(s, Do(c, a)).ps, q)
  {
    DoFacts(s, c, a, 0);
    var f := EffectOf(s, s.cpu[c].p, a);
    if s.ps[q].st.Running? {
      assert HasCpu(s, q);
      var d :| 0 <= d < |s.cpu| && s.cpu[d] == On(q);
      assert d != c;
      DoAlone(s, c, a, d);
      assert PlaceOk(s.ps, q) && VacantOk(s.ps, f.x);
      DoMoved(s, c, a);
      assert f.x != s.cpu[c].p ==> !Holds(s.ps[q].pc, q, f.x);
      hide SchedInv, EffectOf, ActEnabled, Apply, Moved, PlaceOk, VacantOk, SlotOk, Holds;
      PlaceThere(s.ps, Apply(s, Do(c, a)).ps, s.cpu[c].p, f, q);
    } else {
      DoMoved(s, c, a);
      assert PlaceOk(s.ps, q) && SlotOk(s.ps[q], q);
      hide SchedInv, EffectOf, ActEnabled, Apply, Moved, PlaceOk, VacantOk, SlotOk, Holds;
      NewlyPlaced(s.ps, Apply(s, Do(c, a)).ps, s.cpu[c].p, f, q);
    }
  }

  /** The slots after a step of p. */
  ghost predicate Moved(ps: seq<Proc>, ps': seq<Proc>, p: nat, f: Effect) {
    && |ps'| == |ps| && p < |ps| && f.x < |ps| && ps'[p] == f.me && (f.x != p ==> ps'[f.x] == f.other)
    && forall i: nat :: i < |ps| && i != p && i != f.x ==> ps'[i] == ps[i]
  }

  lemma DoMoved(s: Sys, c: nat, a: Act)
    requires SchedInv(s) && Enabled(s, Do(c, a))
    ensures Moved(s.ps, Apply(s, Do(c, a)).ps, s.cpu[c].p, EffectOf(s, s.cpu[c].p, a))
  {
    DoFacts(s, c, a, 0);
    hide EffectOf, ActEnabled, SchedInv;
  }

  lemma NewlyPlaced(ps: seq<Proc>, ps': seq<Proc>, p: nat, f: Effect, q: nat)
    requires Moved(ps, ps', p, f) && q < |ps| && q != p && !ps[q].st.Running? && PlaceOk(ps, q) && SlotOk(ps[q], q)
    requires f.x != p ==> Change(ps[f.x], f.other, p)
    ensures PlaceOk(ps', q)
  {
  }

  lemma PlaceThere(ps: seq<Proc>, ps': seq<Proc>, p: nat, f: Effect, q: nat)
    requires Moved(ps, ps', p, f) && q < |ps| && q != p && ps[q].st.Running? && ps[p].st.Running? && PlaceOk(ps, q)
    requires f.x != p ==> Change(ps[f.x], f.other, p) && !Holds(ps[q].pc, q, f.x)
    requires VacantOk(ps, f.x) && f.me.parent == ps[p].parent
    ensures PlaceOk(ps', q)
  {
    assert ps'[q].pc == ps[q].pc && ps'[q].st.Running?;
    assert ps'[q].parent == ps[q].parent || ps'[q].parent == Some(INIT);
    assert f.x != p && ps[f.x].parent == Some(q) && !ps[q].pc.ForkReady? ==> ps'[f.x].parent == Some(q);
  }

  /** What another running process's code holds is not what p changes. */
  lemma DoExclusive(s: Sys, c: nat, a: Act, r: nat)
    requires SchedInv(s) && Enabled(s, Do(c, a)) && r < |s.ps| && r != s.cpu[c].p && s.ps[r].st.Running?
    ensures var f := EffectOf(s, s.cpu[c].p, a); f.x != s.cpu[c].p ==> !Holds(s.ps[r].pc, r, f.x)
  {
    assert HasCpu(s, r);
    var d :| 0 <= d < |s.cpu| && s.cpu[d] == On(r);
    assert d != c;
    DoAlone(s, c, a, d);
  }

  // ----- the process itself

  predicate Waits(k: Pc) { k.WaitScan? || k.WaitKid? || k.WaitAt? }
  predicate Sweeps(k: Pc) { k.Reparent? || k.ReparentAt? }

  /** How the loops of reparent and wait go on. */
  predicate OwnTable(ps: seq<Proc>, p: nat, f: Effect)
    requires p < |ps|
  {
    var k, k' := ps[p].pc, f.me.pc;
    && (Sweeps(k') ==>
          || k'.i == 0
          || (Sweeps(k) && f.x == p && k'.i == k.i)
          || (Sweeps(k) && k'.i == k.i + 1 && k.i < |ps|
              && if f.x == p then ps[k.i].parent != Some(p) else f.x == k.i && f.other.parent == Some(INIT)))
    && (Waits(k') ==>
          f.x == p
          && (k'.i == 0 || (Waits(k) && k'.i == k.i)
              || (Waits(k) && k'.i == k.i + 1 && k.i < |ps| && (ps[k.i].parent != Some(p) || !ps[k.i].st.Zombie?))))
    && (k'.WaitAsleep? && !f.me.st.Running? ==> f.x == p && Waits(k) && k.i == |ps|)
    && (k'.WaitAsleep? ==> !f.me.st.Running?)
  }

  lemma SchedOwn(s: Sys, c: nat, p: nat, a: SchedAct, ps': seq<Proc>)
    requires Shape(s) && p < |s.ps| && SchedEnabled(s, p, a) && Placed(s, c, p) && s.nextpid > 0 && VacantOk(s.ps, p)
    requires forall q: nat :: q < |s.ps| && Holds(s.ps[p].pc, p, q) ==> s.plock[q] == Some(c)
    requires Moved(s.ps, ps', p, SchedEffect(s, p, a))
    ensures OwnTable(s.ps, p, SchedEffect(s, p, a)) && PlaceOk(ps', p)
  {
  }

  lemma ForkOwn(s: Sys, c: nat, p: nat, a: ForkAct, ps': seq<Proc>)
    requires Shape(s) && p < |s.ps| && ForkEnabled(s, p, a) && Placed(s, c, p) && s.nextpid > 0 && VacantOk(s.ps, p)
    requires forall q: nat :: q < |s.ps| && Holds(s.ps[p].pc, p, q) ==> s.plock[q] == Some(c)
    requires Moved(s.ps, ps', p, ForkEffect(s, p, a))
    ensures OwnTable(s.ps, p, ForkEffect(s, p, a)) && PlaceOk(ps', p)
  {
  }

  lemma ExitOwn(s: Sys, c: nat, p: nat, a: ExitAct, ps': seq<Proc>)
    requires Shape(s) && p < |s.ps| && ExitEnabled(s, p, a) && Placed(s, c, p) && s.nextpid > 0 && VacantOk(s.ps, p)
    requires forall q: nat :: q < |s.ps| && Holds(s.ps[p].pc, p, q) ==> s.plock[q] == Some(c)
    requires Moved(s.ps, ps', p, ExitEffect(s, p, a))
    ensures OwnTable(s.ps, p, ExitEffect(s, p, a)) && PlaceOk(ps', p)
  {
  }

  lemma WaitOwn(s: Sys, c: nat, p: nat, a: WaitAct, ps': seq<Proc>)
    requires Shape(s) && p < |s.ps| && WaitEnabled(s, p, a) && Placed(s, c, p) && s.nextpid > 0 && VacantOk(s.ps, p)
    requires forall q: nat :: q < |s.ps| && Holds(s.ps[p].pc, p, q) ==> s.plock[q] == Some(c)
    requires Moved(s.ps, ps', p, WaitEffect(s, p, a))
    ensures OwnTable(s.ps, p, WaitEffect(s, p, a)) && PlaceOk(ps', p)
  {
  }

  lemma DoOwn(s: Sys, c: nat, a: Act)
    requires SchedInv(s) && Enabled(s, Do(c, a))
    ensures OwnTable(s.ps, s.cpu[c].p, EffectOf(s, s.cpu[c].p, a)) && PlaceOk(Apply(s, Do(c, a)).ps, s.cpu[c].p)
  {
    var p := s.cpu[c].p;
    var ps' := Apply(s, Do(c, a)).ps;
    DoFacts(s, c, a, 0);
    DoMoved(s, c, a);
    assert VacantOk(s.ps, p);
    forall q: nat | q < |s.ps| && Holds(s.ps[p].pc, p, q)
      ensures s.plock[q] == Some(c)
    {
      DoFacts(s, c, a, q);
    }
    hide SchedInv, Apply, Moved, PlaceOk, VacantOk, SlotOk, Holds, OwnTable, SchedEffect, ForkEffect, ExitEffect, WaitEffect, Placed;
    match a
    case SchedStep(y) => SchedOwn(s, c, p, y, ps');
    case ForkStep(f) => ForkOwn(s, c, p, f, ps');
    case ExitStep(x) => ExitOwn(s, c, p, x, ps');
    case WaitStep(w) => WaitOwn(s, c, p, w, ps');
  }

  lemma DoVacant(s: Sys, c: nat, a: Act, i: nat)
    requires SchedInv(s) && Enabled(s, Do(c, a)) && i < |s.ps|
    ensures VacantOk(Apply(s, Do(c, a)).ps, i)
  {
    var p := s.cpu[c].p;
    var f := EffectOf(s, p, a);
    DoFacts(s, c, a, 0);
    DoMoved(s, c, a);
    assert VacantOk(s.ps, i);
    if s.ps[i].st.Unused? && s.ps[i].parent.Some? && s.ps[i].parent.value != p {
      DoExclusive(s, c, a, s.ps[i].parent.value);
    }
    hide SchedInv, Apply, EffectOf, PlaceOk, SlotOk;
    VacantThere(s.ps, Apply(s, Do(c, a)).ps, p, f, i);
  }

  lemma VacantThere(ps: seq<Proc>, ps': seq<Proc>, p: nat, f: Effect, i: nat)
    requires Moved(ps, ps', p, f) && i < |ps| && VacantOk(ps, i) && ps[p].st.Running? && INIT < |ps|
    requires f.x != p ==> Change(ps[f.x], f.other, p)
    requires f.me.parent == ps[p].parent && !f.me.st.Unused?
    requires ps[p].pc.ForkReady? ==> f.x == ps[p].pc.i && f.other.st.Runnable?
    requires f.x != p && f.other.parent == Some(p) && f.other.st.Unused? ==>
               f.me.st.Running? && (f.me.pc == ForkReady(f.x) || f.other.parent == ps[f.x].parent)
    requires ps[i].st.Unused? && ps[i].parent.Some? && ps[i].parent.value != p ==>
               f.x != p ==> !Holds(ps[ps[i].parent.value].pc, ps[i].parent.value, f.x)
    ensures VacantOk(ps', i)
  {
  }

  lemma DoSched(s: Sys, c: nat, a: Act)
    requires SchedInv(s) && Enabled(s, Do(c, a))
    ensures SchedInv(Apply(s, Do(c, a)))
  {
    var s' := Apply(s, Do(c, a));
    assert s'.nextpid > 0 by { hide EffectOf; }
    hide Apply, EffectOf, LockOk, CpuOk, OneCpu, HasCpu, SlotOk, PlaceOk, VacantOk, ActEnabled;
    forall d: nat, q: nat | d < |s.cpu| && q < |s.ps|
      ensures LockOk(s', d, q)
    {
      DoLock(s, c, a, d, q);
    }
    forall d: nat | d < |s.cpu|
      ensures CpuOk(s', d)
    {
      DoCpu(s, c, a, d);
    }
    forall d1: nat, d2: nat | d1 < |s.cpu| && d2 < |s.cpu|
      ensures OneCpu(s', d1, d2)
    {
      DoOne(s, c, a, d1, d2);
    }
    forall q: nat | q < |s.ps| && s'.ps[q].st.Running?
      ensures HasCpu(s', q)
    {
      DoRunning(s, c, a, q);
    }
    forall q: nat | q < |s.ps|
      ensures SlotOk(s'.ps[q], q) && PlaceOk(s'.ps, q) && VacantOk(s'.ps, q)
    {
      DoSlot(s, c, a, q);
      DoVacant(s, c, a, q);
      if q == s.cpu[c].p {
        DoOwn(s, c, a);
      } else {
        DoPlaceOther(s, c, a, q);
      }
    }
  }

  // ----- steps of the schedulers, wakeup and kill

  lemma PickSched(s: Sys, c: nat, p: nat)
    requires SchedInv(s) && Enabled(s, Pick(c, p))
    ensures SchedInv(Apply(s, Pick(c, p)))
  {
    var s' := Apply(s, Pick(c, p));
    assert SlotOk(s.ps[p], p) && !s.ps[p].st.Unused? && !s.ps[p].st.Running?;
    forall d: nat | d < |s.cpu| && !s.cpu[d].Idle?
      ensures s.cpu[d].p != p
    {
      assert CpuOk(s, d) && LockOk(s, d, p);
    }
    forall d: nat, q: nat | d < |s.cpu| && q < |s.ps|
      ensures LockOk(s', d, q)
    {
      assert LockOk(s, d, q) && CpuOk(s, d);
    }
    forall d: nat | d < |s.cpu|
      ensures CpuOk(s', d)
    {
      assert CpuOk(s, d);
    }
    forall d1: nat, d2: nat | d1 < |s.cpu| && d2 < |s.cpu|
      ensures OneCpu(s', d1, d2)
    {
      assert OneCpu(s, d1, d2);
    }
    forall q: nat | q < |s.ps| && s'.ps[q].st.Running?
      ensures HasCpu(s', q)
    {
      if q == p {
        assert s'.cpu[c] == On(p);
      } else {
        assert HasCpu(s, q);
        var d :| 0 <= d < |s.cpu| && s.cpu[d] == On(q);
        assert s'.cpu[d] == On(q);
      }
    }
    forall q: nat | q < |s.ps|
      ensures SlotOk(s'.ps[q], q) && PlaceOk(s'.ps, q) && VacantOk(s'.ps, q)
    {
      assert SlotOk(s.ps[q], q) && PlaceOk(s.ps, q) && VacantOk(s.ps, q);
    }
  }

  lemma ReturnSched(s: Sys, c: nat)
    requires SchedInv(s) && Enabled(s, Return(c))
    ensures SchedInv(Apply(s, Return(c)))
  {
    var s' := Apply(s, Return(c));
    var p := s.cpu[c].p;
    assert CpuOk(s, c);
    forall d: nat, q: nat | d < |s.cpu| && q < |s.ps|
      ensures LockOk(s', d, q)
    {
      assert LockOk(s, d, q) && LockOk(s, c, q) && LockOk(s, c, p) && OneCpu(s, c, d);
    }
    forall d: nat | d < |s.cpu|
      ensures CpuOk(s', d)
    {
      assert CpuOk(s, d);
    }
    forall d1: nat, d2: nat | d1 < |s.cpu| && d2 < |s.cpu|
      ensures OneCpu(s', d1, d2)
    {
      assert OneCpu(s, d1, d2);
    }
    forall q: nat | q < |s.ps| && s'.ps[q].st.Running?
      ensures HasCpu(s', q)
    {
      assert HasCpu(s, q);
      var d :| 0 <= d < |s.cpu| && s.cpu[d] == On(q);
      assert s'.cpu[d] == On(q);
    }
  }

  function Poked(ps: seq<Proc>, i: nat, kill: bool): (ps': seq<Proc>)
    requires i < |ps|
  {
    ps[i := Woken(ps[i]).(killed := kill || ps[i].killed)]
  }

  lemma PokeSlot(ps: seq<Proc>, i: nat, kill: bool, q: nat)
    requires i < |ps| && q < |ps| && SlotOk(ps[q], q) && PlaceOk(ps, q) && VacantOk(ps, q)
    ensures SlotOk(Poked(ps, i, kill)[q], q) && PlaceOk(Poked(ps, i, kill), q) && VacantOk(Poked(ps, i, kill), q)
  {
    var ps' := Poked(ps, i, kill);
    assert forall j: nat :: j < |ps| ==> ps'[j].parent == ps[j].parent && ps'[j].pid == ps[j].pid && ps'[j].pc == ps[j].pc;
  }

  lemma PokeSched(s: Sys, i: nat, kill: bool)
    requires SchedInv(s) && Enabled(s, Poke(i, kill))
    ensures SchedInv(Apply(s, Poke(i, kill)))
  {
    var s' := Apply(s, Poke(i, kill));
    forall d: nat, q: nat | d < |s.cpu| && q < |s.ps|
      ensures LockOk(s', d, q)
    {
      assert LockOk(s, d, q);
    }
    forall d: nat | d < |s.cpu|
      ensures CpuOk(s', d)
    {
      assert CpuOk(s, d);
    }
    forall d1: nat, d2: nat | d1 < |s.cpu| && d2 < |s.cpu|
      ensures OneCpu(s', d1, d2)
    {
      assert OneCpu(s, d1, d2);
    }
    forall q: nat | q < |s.ps| && s'.ps[q].st.Running?
      ensures HasCpu(s', q)
    {
      assert s.ps[q].st.Running? && HasCpu(s, q);
      var d :| 0 <= d < |s.cpu| && s.cpu[d] == On(q);
      assert s'.cpu[d] == On(q);
    }
    forall q: nat | q < |s.ps|
      ensures SlotOk(s'.ps[q], q) && PlaceOk(s'.ps, q) && VacantOk(s'.ps, q)
    {
      assert SlotOk(s.ps[q], q) && PlaceOk(s.ps, q) && VacantOk(s.ps, q);
      hide *;
      PokeSlot(s.ps, i, kill, q);
    }
  }

  lemma StepSched(s: Sys, e: Event)
    requires SchedInv(s) && Enabled(s, e)
    ensures SchedInv(Apply(s, e))
  {
    hide SchedInv, Apply;
    match e
    case Pick(c, p) => PickSched(s, c, p);
    case Return(c) => ReturnSched(s, c);
    case Poke(i, kill) => PokeSched(s, i, kill);
    case Do(c, a) => DoSched(s, c, a);
  }
}
