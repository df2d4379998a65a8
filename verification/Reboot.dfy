/** The machine and its recovery joined: a crash image of the machine always recovers. */
module Reboot {
  import opened Common
  import opened RedoLog
  import opened BlockMachine
  import opened BlockLayer
  import opened Recovery
  import opened CodeRuns
  import LA = LogAdmission

  /** The disk after a run, a crash, and one more crash in recovery per element of cuts. */
  ghost function CrashImage(s: Sys, es: seq<Event>, cuts: seq<nat>): (d: Image)
    requires Init(s) && SafeSize(s.g.size) && Runs(s, es)
    ensures ValidImage(s.g, d) && |d| == |s.disk| && |HeaderBlocks(d[s.g.start])| < NBUF
  {
    CrashAtomicity(s, es, cuts);
    CrashImageFitsCache(s, es, cuts);
    BootLoop(s.g, After(s, es).disk, cuts)
  }

  /** The machine after a recovery that installed the blocks bs. */
  ghost predicate Rebooted(s: Sys, bs: seq<nat>) {
    && s.g.Fits(|s.disk|) && SafeSize(s.g.size) && s.disk[s.g.start][0] == 0
    && Loggable(s.g, |s.disk|, bs) && |bs| < NBUF
    && BootCache(s.g, s.disk, bs, s.bufs) && NoUsers(s.users)
    && s.adm == LA.Booted() && s.phase.Idle?
  }

  /** The code after such a recovery: nobody has a buffer, and those of the installed blocks
      come last in the order of use. */
  ghost predicate BackUp(c: Code, bs: seq<nat>) {
    && Rebooted(c.s, bs) && Whole(c.order) && c.asked == map[]
    && Sunk(c.order, c.s.bufs) && Retained(c.s.g, bs, c.s.bufs)
  }

  lemma ClearedHeader(g: Geometry, d: Image)
    requires ValidImage(g, d)
    ensures |Recovered(g, d)| == |d| && Recovered(g, d)[g.start][0] == 0
  {
  }

  lemma RestartFacts(s: Sys, es: seq<Event>, cuts: seq<nat>)
    requires Init(s) && SafeSize(s.g.size) && Runs(s, es)
    ensures var d, f := CrashImage(s, es, cuts), FlatAfter(Flat(s.disk, s.disk), es);
            && s.g.Fits(|d|) && ValidImage(s.g, d) && s.g.start < |d| == |Recovered(s.g, d)| == |f.committed|
            && |HeaderBlocks(d[s.g.start])| < NBUF
            && Loggable(s.g, |d|, HeaderBlocks(d[s.g.start]))
            && Recovered(s.g, d)[s.g.start][0] == 0
            && forall b: nat :: s.g.Home(|d|, b) ==> Recovered(s.g, d)[b] == f.committed[b]
  {
    hide Init, Runs, After, FlatAfter;
    CrashAtomicity(s, es, cuts);
    ClearedHeader(s.g, CrashImage(s, es, cuts));
  }

  lemma UntouchedNow(st: BlockStore)
    requires st.ListOk() && st.users == seq(NBUF, _ => {})
    requires forall i :: 0 <= i < NBUF ==>
               st.buf[i].dev == 0 && !st.buf[i].valid && st.buf[i].refcnt == 0 && st.buf[i].lock.Free?
    ensures Untouched(st)
  {
  }

  lemma RebootedNow(st: BlockStore, bs: seq<nat>)
    requires st.ListOk() && st.g.Fits(|st.disk|) && SafeSize(st.g.size) && st.disk[st.g.start][0] == 0
    requires Loggable(st.g, |st.disk|, bs) && |bs| < NBUF
    requires BootCache(st.g, st.disk, bs, st.buf) && NoUsers(st.users) && st.n == 0
    requires st.outstanding == 0 && !st.committing && st.used == LA.Booted().used && st.passed == {}
    requires st.phase.Idle? && Sunk(st.order, st.buf) && Retained(st.g, bs, st.buf)
    ensures BackUp(Code(st.View(), st.order, map[]), bs)
  {
    hide BootCache;
  }

  /** Booting from any image that crashes of the running system can leave: binit and
      recover_from_log get through, and every home block is as committed. */
  method Restart(d: Image, log: Geometry, p: nat, ghost s: Sys, ghost es: seq<Event>, ghost cuts: seq<nat>)
    returns (st: BlockStore, ghost images: seq<Image>)
    requires Init(s) && SafeSize(s.g.size) && Runs(s, es) && p < LA.NPROC
    requires log == s.g && d == CrashImage(s, es, cuts)
    ensures fresh(st) && st.ListOk() && BackUp(Code(st.View(), st.order, map[]), HeaderBlocks(d[log.start]))
    ensures st.g == log && |st.disk| == |d| == |FlatAfter(Flat(s.disk, s.disk), es).committed|
    ensures forall b: nat :: log.Home(|d|, b) ==> st.disk[b] == FlatAfter(Flat(s.disk, s.disk), es).committed[b]
    ensures images != [] && st.disk == images[|images| - 1]
    ensures forall k :: 0 <= k < |images| ==> images[k] == CutRecovery(log, d, k)
  {
    hide *;
    RestartFacts(s, es, cuts);
    st := new BlockStore.Binit(d, log);
    UntouchedNow(st);
    var ok;
    ok, images := RecoverFromLog(st, p);
    RebootedNow(st, HeaderBlocks(d[log.start]));
  }

  /** Some home block was not installed. */
  ghost predicate Spare(s: Sys, bs: seq<nat>) {
    exists a: nat :: s.g.Home(|s.disk|, a) && a !in bs
  }
}
