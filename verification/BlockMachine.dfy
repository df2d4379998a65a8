/** The buffer cache and the log together, as a transition system.

    Any number of processes look up, lock, fill, update and release buffers while
    one of them may be committing; each event is one critical section or one disk
    write of the code.  The invariant relates the machine to a flat store with two
    views of every home block: `current`, the last contents given to it, and
    `committed`, the contents as of the last completed header write.  Reading
    through the cache yields the first, crashing and recovering yields the second. */
module BlockMachine {
  import opened Common
  import opened RedoLog
  import LA = LogAdmission

  const ROOTDEV: nat := 1

  /** ++ and -- on a 32-bit unsigned count. */
  function Inc(n: nat): nat { if n == UINT_MOD - 1 then 0 else n + 1 }
  function Dec(n: nat): nat { if n == 0 then UINT_MOD - 1 else n - 1 }

  datatype Holder = Free | Held(p: nat)

  datatype Buf = Buf(valid: bool, dev: nat, blockno: nat, refcnt: nat, data: Block, lock: Holder) {
    predicate For(b: nat) { dev == ROOTDEV && blockno == b }
  }

  /** Where the committing process is inside commit(). */
  datatype Phase =
    | Idle
    | WriteLog(p: nat, t: nat)   // t blocks copied to the log
    | Install(p: nat, t: nat)    // header written, t blocks copied home
    | Clear(p: nat)              // log.lh.n is 0, the on-disk header is not yet
    | Done(p: nat)

  /** `users[i]` are the processes that have taken a reference to buffer i. */
  datatype Sys = Sys(bufs: seq<Buf>, users: seq<set<nat>>, disk: Image, g: Geometry,
                     adm: LA.Admission, phase: Phase) {
    /** Process p has buffer i locked with the contents of block b in it. */
    predicate Holds(p: nat, i: nat, b: nat) {
      i < |bufs| && bufs[i].valid && bufs[i].For(b) && bufs[i].lock == Held(p)
    }
  }

  datatype Event =
    | Lookup(p: nat, b: nat, i: nat)
    | Lock(p: nat, i: nat)
    | Fill(p: nat, i: nat)
    | Unlock(p: nat, i: nat)
    | Deref(p: nat, i: nat)
    | BeginOp(p: nat)
    | TestLog(p: nat)
    | Update(p: nat, i: nat, b: nat, data: Block)
    | EndOp(p: nat)
    | CopyToLog(p: nat, to: nat, from: nat)
    | WriteHead(p: nat, i: nat)
    | InstallBlock(p: nat, l: nat, d: nat)
    | ForgetLog(p: nat)
    | ClearHead(p: nat, i: nat)
    | FinishCommit(p: nat)

  predicate Enabled(s: Sys, e: Event) {
    match e
    case Lookup(p, b, i) =>
      && p < LA.NPROC && b < |s.disk| && i < |s.bufs| && i < |s.users| && p !in s.users[i]
      && (s.bufs[i].For(b)
          || (s.bufs[i].refcnt == 0 && forall j :: 0 <= j < |s.bufs| ==> !s.bufs[j].For(b)))
    case Lock(p, i) => i < |s.bufs| && i < |s.users| && p in s.users[i] && s.bufs[i].lock == Free
    case Fill(p, i) =>
      i < |s.bufs| && s.bufs[i].lock == Held(p) && !s.bufs[i].valid && s.bufs[i].blockno < |s.disk|
    case Unlock(p, i) => i < |s.bufs| && s.bufs[i].lock == Held(p)
    case Deref(p, i) => i < |s.bufs| && i < |s.users| && p in s.users[i] && s.bufs[i].lock != Held(p)
    case BeginOp(p) => LA.Enabled(s.g.size, s.adm, LA.Begin(p))
    case TestLog(p) => LA.Enabled(s.g.size, s.adm, LA.Check(p))
    case Update(p, i, b, data) =>
      && s.Holds(p, i, b) && s.g.Home(|s.disk|, b)
      && LA.Enabled(s.g.size, s.adm, LA.Write(p, b))
    case EndOp(p) => LA.Enabled(s.g.size, s.adm, LA.End(p))
    case CopyToLog(p, to, from) =>
      && s.phase.WriteLog? && s.phase.p == p && s.phase.t < |s.adm.lh|
      && s.g.start + 1 + s.phase.t < |s.disk|
      && s.Holds(p, to, s.g.start + 1 + s.phase.t)
      && s.Holds(p, from, s.adm.lh[s.phase.t])
    case WriteHead(p, i) =>
      && s.phase == WriteLog(p, |s.adm.lh|) && s.g.start < |s.disk|
      && |s.adm.lh| <= LOGSIZE && s.Holds(p, i, s.g.start)
    case InstallBlock(p, l, d) =>
      && s.phase.Install? && s.phase.p == p && s.phase.t < |s.adm.lh|
      && s.adm.lh[s.phase.t] < |s.disk|
      && s.Holds(p, l, s.g.start + 1 + s.phase.t)
      && s.Holds(p, d, s.adm.lh[s.phase.t])
    case ForgetLog(p) =>
      s.phase == Install(p, |s.adm.lh|) && LA.Enabled(s.g.size, s.adm, LA.Forget)
    case ClearHead(p, i) =>
      s.phase == Clear(p) && s.g.start < |s.disk| && s.adm.lh == [] && s.Holds(p, i, s.g.start)
    case FinishCommit(p) =>
      s.phase == Done(p) && LA.Enabled(s.g.size, s.adm, LA.Finish)
  }

  /** Buffer i's contents change to `data` and go to its place on disk. */
  function WriteThrough(s: Sys, i: nat, data: Block): (r: Sys)
    requires i < |s.bufs| && s.bufs[i].blockno < |s.disk|
  {
    s.(bufs := s.bufs[i := s.bufs[i].(data := data)], disk := s.disk[s.bufs[i].blockno := data])
  }

  function Apply(s: Sys, e: Event): (r: Sys)
    requires Enabled(s, e)
  {
    match e
    case Lookup(p, b, i) =>
      var buf := s.bufs[i];
      var buf' := if buf.For(b) then buf.(refcnt := Inc(buf.refcnt))
                  else buf.(dev := ROOTDEV, blockno := b, valid := false, refcnt := 1);
      s.(bufs := s.bufs[i := buf'], users := s.users[i := s.users[i] + {p}])
    case Lock(p, i) => s.(bufs := s.bufs[i := s.bufs[i].(lock := Held(p))])
    case Fill(p, i) =>
      s.(bufs := s.bufs[i := s.bufs[i].(valid := true, data := s.disk[s.bufs[i].blockno])])
    case Unlock(p, i) => s.(bufs := s.bufs[i := s.bufs[i].(lock := Free)])
    case Deref(p, i) =>
      s.(bufs := s.bufs[i := s.bufs[i].(refcnt := Dec(s.bufs[i].refcnt))],
         users := s.users[i := s.users[i] - {p}])
    case BeginOp(p) => s.(adm := LA.Apply(s.adm, LA.Begin(p)))
    case TestLog(p) => s.(adm := LA.Apply(s.adm, LA.Check(p)))
    case Update(p, i, b, data) =>
      var buf := s.bufs[i].(data := data);
      var buf' := if b in s.adm.lh then buf else buf.(refcnt := Inc(buf.refcnt));
      s.(bufs := s.bufs[i := buf'], adm := LA.Apply(s.adm, LA.Write(p, b)))
    case EndOp(p) =>
      var adm := LA.Apply(s.adm, LA.End(p));
      s.(adm := adm,
         phase := if !adm.committing then s.phase
                  else if adm.lh == [] then Done(p) else WriteLog(p, 0))
    case CopyToLog(p, to, from) =>
      WriteThrough(s, to, s.bufs[from].data).(phase := WriteLog(p, s.phase.t + 1))
    case WriteHead(p, i) =>
      WriteThrough(s, i, EncodeHeader(s.bufs[i].data, s.adm.lh)).(phase := Install(p, 0))
    case InstallBlock(p, l, d) =>
      var r := WriteThrough(s, d, s.bufs[l].data);
      r.(bufs := r.bufs[d := r.bufs[d].(refcnt := Dec(r.bufs[d].refcnt))],
         phase := Install(p, s.phase.t + 1))
    case ForgetLog(p) => s.(adm := LA.Apply(s.adm, LA.Forget), phase := Clear(p))
    case ClearHead(p, i) =>
      WriteThrough(s, i, EncodeHeader(s.bufs[i].data, [])).(phase := Done(p))
    case FinishCommit(p) => s.(adm := LA.Apply(s.adm, LA.Finish), phase := Idle)
  }

  // ----- the flat store the machine refines

  datatype Flat = Flat(current: Image, committed: Image)

  function FlatApply(f: Flat, e: Event): (r: Flat) {
    match e
    case Update(_, _, b, data) => if b < |f.current| then f.(current := f.current[b := data]) else f
    case WriteHead(_, _) => f.(committed := f.current)
    case _ => f
  }

  // ----- the invariant

  /** Logged blocks not yet copied home: each is held in the cache by a pin. */
  function Pinned(s: Sys): (r: seq<nat>) {
    match s.phase
    case Idle => s.adm.lh
    case WriteLog(_, _) => s.adm.lh
    case Install(_, t) => if t <= |s.adm.lh| then s.adm.lh[t..] else []
    case _ => []
  }

  /** Log regions a transaction cannot run past: one with room for the header alone,
      which never admits a block, and one of at least LOGSIZE blocks, as mkfs makes.
      In the second the list of blocks may still grow to the size of the region, but
      then every buffer is pinned and commit panics before it writes anything. */
  predicate SafeSize(size: nat) {
    size == 1 || size >= LOGSIZE
  }

  ghost predicate Shape(s: Sys) {
    && |s.bufs| == NBUF && |s.users| == NBUF
    && s.g.Fits(|s.disk|) && SafeSize(s.g.size)
    && (s.g.size == 1 ==> s.adm.lh == [] && s.adm.passed == {})
    && LA.Inv(s.adm)
    && |s.adm.lh| <= LOGSIZE
    && (forall k :: 0 <= k < |s.adm.lh| ==> s.g.Home(|s.disk|, s.adm.lh[k]))
    && (s.phase.Idle? <==> !s.adm.committing)
  }

  /** A buffer, the processes `us` using it, and the reference count between them. */
  ghost predicate BufOk(blocks: nat, pinned: seq<nat>, b: Buf, us: set<nat>) {
    && (b.dev == 0 || (b.dev == ROOTDEV && b.blockno < blocks))
    && (b.valid ==> b.dev == ROOTDEV)
    && (b.lock.Held? ==> b.lock.p in us)
    && (us != {} ==> b.dev == ROOTDEV)
    && (forall p <- us :: p < LA.NPROC)
    && b.refcnt == |us| + (if b.dev == ROOTDEV && b.blockno in pinned then 1 else 0)
  }

  ghost predicate CacheInv(s: Sys) {
    && |s.bufs| == NBUF && |s.users| == NBUF
    && (forall i, j :: 0 <= i < j < NBUF && s.bufs[i].dev == ROOTDEV && s.bufs[j].dev == ROOTDEV
          ==> s.bufs[i].blockno != s.bufs[j].blockno)
    && (forall i :: 0 <= i < NBUF ==> BufOk(|s.disk|, Pinned(s), s.bufs[i], s.users[i]))
  }

  /** Some valid buffer caches b. */
  ghost predicate Cached(bufs: seq<Buf>, b: nat) {
    exists i :: 0 <= i < |bufs| && bufs[i].valid && bufs[i].For(b)
  }

  /** What a valid buffer for block b must contain. */
  function Expected(g: Geometry, disk: Image, current: Image, b: nat): Block
    requires b < |disk| == |current|
  {
    if g.Home(|disk|, b) then current[b] else disk[b]
  }

  ghost predicate DataOk(g: Geometry, disk: Image, current: Image, b: Buf) {
    b.valid && b.blockno < |disk| == |current| ==> b.data == Expected(g, disk, current, b.blockno)
  }

  ghost predicate DataInv(s: Sys, f: Flat) {
    && |f.current| == |s.disk| && |f.committed| == |s.disk|
    && (forall b <- Pinned(s) :: Cached(s.bufs, b))
    && (forall i :: 0 <= i < |s.bufs| ==> DataOk(s.g, s.disk, f.current, s.bufs[i]))
    && (forall b: nat :: s.g.Home(|s.disk|, b) && b !in Pinned(s) ==> s.disk[b] == f.current[b])
  }

  /** The log holds the current contents of the first t blocks of bs. */
  ghost predicate Logged(s: Sys, f: Flat, bs: seq<nat>, t: nat) {
    && s.g.start + |bs| < |s.disk| && t <= |bs|
    && (forall k :: 0 <= k < |bs| ==> bs[k] < |f.current|)
    && forall k :: 0 <= k < t ==> s.disk[s.g.start + 1 + k] == f.current[bs[k]]
  }

  ghost predicate Settled(s: Sys, f: Flat)
    requires Shape(s) && |f.committed| == |s.disk|
  {
    && HeaderBlocks(s.disk[s.g.start]) == []
    && s.disk[s.g.start][0] == 0
    && forall b: nat :: s.g.Home(|s.disk|, b) ==> s.disk[b] == f.committed[b]
  }

  ghost predicate PhaseInv(s: Sys, f: Flat)
    requires Shape(s) && |f.committed| == |s.disk|
  {
    match s.phase
    case Idle => Settled(s, f)
    case WriteLog(_, t) => Settled(s, f) && (t == 0 || (|s.adm.lh| < NBUF && Logged(s, f, s.adm.lh, t)))
    case Install(_, t) =>
      && t <= |s.adm.lh| < NBUF
      && s.disk[s.g.start][0] <= LOGSIZE && HeaderBlocks(s.disk[s.g.start]) == s.adm.lh
      && Logged(s, f, s.adm.lh, |s.adm.lh|)
      && f.committed == f.current
    case Clear(_) =>
      var bs := HeaderBlocks(s.disk[s.g.start]);
      && s.adm.lh == [] && s.disk[s.g.start][0] <= LOGSIZE && |bs| < NBUF
      && Loggable(s.g, |s.disk|, bs)
      && Logged(s, f, bs, |bs|)
      && f.committed == f.current
    case Done(_) => Settled(s, f) && s.adm.lh == []
  }

  ghost predicate Inv(s: Sys, f: Flat) {
    Shape(s) && CacheInv(s) && DataInv(s, f) && PhaseInv(s, f)
  }

  // ----- every event keeps the invariant

  lemma {:induction false} SmallSet(s: set<nat>, n: nat)
    requires forall x <- s :: x < n
    ensures |s| <= n
  {
    if n == 0 {
      assert s == {};
    } else {
      SmallSet(s - {n - 1}, n - 1);
      assert s <= (s - {n - 1}) + {n - 1};
      assert n - 1 in s ==> s == (s - {n - 1}) + {n - 1};
      assert n - 1 !in s ==> s == s - {n - 1};
    }
  }

  /** A change to one buffer that leaves it caching the same block. */
  lemma KeepsCached(bufs: seq<Buf>, bufs': seq<Buf>, i: nat, b: nat)
    requires i < |bufs| == |bufs'| && bufs' == bufs[i := bufs'[i]]
    requires bufs[i].valid && bufs[i].For(b) ==> bufs'[i].valid && bufs'[i].For(b)
    requires Cached(bufs, b)
    ensures Cached(bufs', b)
  {
    var j :| 0 <= j < |bufs| && bufs[j].valid && bufs[j].For(b);
    assert bufs'[j].valid && bufs'[j].For(b);
  }

  /** Replacing one buffer, and the set using it, by another pair that fits. */
  lemma OneBufferCache(s: Sys, s': Sys, i: nat)
    requires CacheInv(s) && i < NBUF && |s'.disk| == |s.disk| && Pinned(s') == Pinned(s)
    requires |s'.bufs| == NBUF && s'.bufs == s.bufs[i := s'.bufs[i]]
    requires |s'.users| == NBUF && s'.users == s.users[i := s'.users[i]]
    requires BufOk(|s.disk|, Pinned(s), s'.bufs[i], s'.users[i])
    requires forall j :: 0 <= j < NBUF && j != i && s.bufs[j].dev == ROOTDEV && s'.bufs[i].dev == ROOTDEV ==>
               s.bufs[j].blockno != s'.bufs[i].blockno
    ensures CacheInv(s')
  {
  }

  lemma LookupCache(s: Sys, f: Flat, p: nat, b: nat, i: nat)
    requires Inv(s, f) && Enabled(s, Lookup(p, b, i))
    ensures CacheInv(Apply(s, Lookup(p, b, i)))
  {
    var s' := Apply(s, Lookup(p, b, i));
    assert BufOk(|s.disk|, Pinned(s), s.bufs[i], s.users[i]);
    SmallSet(s.users[i], LA.NPROC);
    assert |s.users[i] + {p}| == |s.users[i]| + 1;
    assert b in Pinned(s) ==> Cached(s.bufs, b);
    assert Pinned(s') == Pinned(s);
    if !s.bufs[i].For(b) {
      assert s.users[i] == {};
      assert s'.users[i] == {p};
    }
    OneBufferCache(s, s', i);
  }

  lemma LookupData(s: Sys, f: Flat, p: nat, b: nat, i: nat)
    requires Inv(s, f) && Enabled(s, Lookup(p, b, i))
    ensures DataInv(Apply(s, Lookup(p, b, i)), f)
  {
    var s' := Apply(s, Lookup(p, b, i));
    assert BufOk(|s.disk|, Pinned(s), s.bufs[i], s.users[i]);
    forall c <- Pinned(s')
      ensures Cached(s'.bufs, c)
    {
      KeepsCached(s.bufs, s'.bufs, i, c);
    }
  }

  lemma LockingCache(s: Sys, e: Event)
    requires CacheInv(s) && Enabled(s, e)
    requires e.Lock? || e.Fill? || e.Unlock? || e.Deref?
    ensures CacheInv(Apply(s, e))
  {
    var s' := Apply(s, e);
    var i := e.i;
    assert BufOk(|s.disk|, Pinned(s), s.bufs[i], s.users[i]);
    assert Pinned(s') == Pinned(s);
    if e.Deref? {
      SmallSet(s.users[i], LA.NPROC);
      assert |s.users[i] - {e.p}| == |s.users[i]| - 1;
    } else {
      assert s'.users == s.users[i := s.users[i]];
    }
    OneBufferCache(s, s', i);
  }

  lemma LockingData(s: Sys, f: Flat, e: Event)
    requires Inv(s, f) && Enabled(s, e)
    requires e.Lock? || e.Fill? || e.Unlock? || e.Deref?
    ensures DataInv(Apply(s, e), f)
  {
    var s' := Apply(s, e);
    var i := e.i;
    assert BufOk(|s.disk|, Pinned(s), s.bufs[i], s.users[i]);
    forall c <- Pinned(s')
      ensures Cached(s'.bufs, c)
    {
      KeepsCached(s.bufs, s'.bufs, i, c);
    }
    assert s.bufs[i].blockno in Pinned(s) ==> Cached(s.bufs, s.bufs[i].blockno);
    assert DataOk(s.g, s.disk, f.current, s.bufs[i]);
    assert DataOk(s.g, s.disk, f.current, s'.bufs[i]);
  }

  // The events of an operation.

  lemma AdmissionStepInv(s: Sys, f: Flat, e: Event)
    requires Inv(s, f) && Enabled(s, e)
    requires e.BeginOp? || e.TestLog? || e.EndOp? || e.FinishCommit?
    ensures Inv(Apply(s, e), f)
  {
    var ae := match e
      case BeginOp(p) => LA.Begin(p)
      case TestLog(p) => LA.Check(p)
      case EndOp(p) => LA.End(p)
      case _ => LA.Finish;
    LA.StepInv(s.g.size, s.adm, ae);
    LA.UnusedBounds(s.adm.used);
    assert Pinned(Apply(s, e)) == Pinned(s);
  }

  /** Only an operation in progress updates, so no commit is under way. */
  lemma UpdateIsIdle(s: Sys, f: Flat, p: nat)
    requires Inv(s, f) && s.adm.Active(p)
    ensures s.phase.Idle? && Pinned(s) == s.adm.lh
  {
    LA.UnusedBounds(s.adm.used);
  }

  lemma UpdateShape(s: Sys, f: Flat, e: Event)
    requires Inv(s, f) && e.Update? && Enabled(s, e)
    ensures Shape(Apply(s, e))
  {
    UpdateIsIdle(s, f, e.p);
    LA.StepInv(s.g.size, s.adm, LA.Write(e.p, e.b));
    LA.UnusedBounds(Apply(s, e).adm.used);
  }

  lemma UpdateCache(s: Sys, f: Flat, e: Event)
    requires Inv(s, f) && e.Update? && Enabled(s, e)
    ensures CacheInv(Apply(s, e))
  {
    UpdateIsIdle(s, f, e.p);
    var s' := Apply(s, e);
    var i := e.i;
    assert Pinned(s') == s'.adm.lh;
    assert BufOk(|s.disk|, Pinned(s), s.bufs[i], s.users[i]);
    SmallSet(s.users[i], LA.NPROC);
    forall j | 0 <= j < NBUF
      ensures BufOk(|s'.disk|, Pinned(s'), s'.bufs[j], s'.users[j])
    {
      assert BufOk(|s.disk|, Pinned(s), s.bufs[j], s.users[j]);
    }
  }

  lemma UpdateData(s: Sys, f: Flat, e: Event)
    requires Inv(s, f) && e.Update? && Enabled(s, e)
    ensures DataInv(Apply(s, e), FlatApply(f, e))
  {
    UpdateIsIdle(s, f, e.p);
    var s', f' := Apply(s, e), FlatApply(f, e);
    var i := e.i;
    assert Pinned(s') == s'.adm.lh;
    forall c <- Pinned(s')
      ensures Cached(s'.bufs, c)
    {
      if c == e.b {
        assert s'.bufs[i].valid && s'.bufs[i].For(c);
      } else {
        KeepsCached(s.bufs, s'.bufs, i, c);
      }
    }
    forall j | 0 <= j < NBUF
      ensures DataOk(s'.g, s'.disk, f'.current, s'.bufs[j])
    {
      assert DataOk(s.g, s.disk, f.current, s.bufs[j]);
      assert BufOk(|s.disk|, Pinned(s), s.bufs[j], s.users[j]);
    }
  }

  // The events of a commit.

  /** Rewriting one buffer and its block leaves the reference counts alone. */
  lemma WriteThroughCache(s: Sys, s': Sys, i: nat)
    requires CacheInv(s) && i < NBUF && |s'.disk| == |s.disk| && Pinned(s') == Pinned(s)
    requires s'.users == s.users
    requires i < |s'.bufs| && s'.bufs == s.bufs[i := s.bufs[i].(data := s'.bufs[i].data)]
    ensures CacheInv(s')
  {
    assert BufOk(|s.disk|, Pinned(s), s.bufs[i], s.users[i]);
  }

  /** Writing a buffer of the log region through to disk. */
  lemma LogWriteData(s: Sys, s': Sys, f: Flat, i: nat)
    requires Shape(s) && CacheInv(s) && DataInv(s, f) && i < NBUF && s.bufs[i].valid
    requires s.bufs[i].blockno < |s.disk| && !s.g.Home(|s.disk|, s.bufs[i].blockno)
    requires Pinned(s') == Pinned(s) && s'.g == s.g
    requires i < |s'.bufs| && s'.bufs == s.bufs[i := s.bufs[i].(data := s'.bufs[i].data)]
    requires s'.disk == s.disk[s.bufs[i].blockno := s'.bufs[i].data]
    ensures DataInv(s', f)
  {
    forall c <- Pinned(s')
      ensures Cached(s'.bufs, c)
    {
      KeepsCached(s.bufs, s'.bufs, i, c);
    }
    forall j | 0 <= j < NBUF
      ensures DataOk(s'.g, s'.disk, f.current, s'.bufs[j])
    {
      assert DataOk(s.g, s.disk, f.current, s.bufs[j]);
      assert BufOk(|s.disk|, Pinned(s), s.bufs[j], s.users[j]);
      assert BufOk(|s.disk|, Pinned(s), s.bufs[i], s.users[i]);
    }
  }

  /** Distinct blocks are cached in distinct buffers. */
  lemma {:induction false} BuffersEnough(bufs: seq<Buf>, bs: seq<nat>, idx: set<nat>)
    requires Distinct(bs)
    requires forall b <- bs :: exists i: nat :: i in idx && i < |bufs| && bufs[i].For(b)
    ensures |bs| <= |idx|
  {
    if bs != [] {
      var last, rest := bs[|bs| - 1], bs[..|bs| - 1];
      assert last in bs;
      var i: nat :| i in idx && i < |bufs| && bufs[i].For(last);
      forall b | b in rest
        ensures exists j: nat :: j in idx - {i} && j < |bufs| && bufs[j].For(b)
      {
        assert b in bs && b != last;
        var j: nat :| j in idx && j < |bufs| && bufs[j].For(b);
        assert j in idx - {i};
      }
      BuffersEnough(bufs, rest, idx - {i});
    }
  }

  /** Beside the buffers of the logged blocks there is one for a block that is not
      logged, so there are fewer logged blocks than buffers. */
  lemma RoomForOneMore(bufs: seq<Buf>, bs: seq<nat>, a: nat, to: nat)
    requires |bufs| == NBUF && Distinct(bs) && a !in bs && to < NBUF && bufs[to].For(a)
    requires forall b <- bs :: Cached(bufs, b)
    ensures |bs| < NBUF
  {
    var idx := set i: nat | i < |bufs| && bufs[i].dev == ROOTDEV;
    SmallSet(idx, NBUF);
    var all := bs + [a];
    forall b | b in all
      ensures exists i: nat :: i in idx && i < |bufs| && bufs[i].For(b)
    {
      if b == a {
        assert to in idx;
      } else {
        assert b in bs;
        var i: nat :| i < |bufs| && bufs[i].valid && bufs[i].For(b);
        assert i in idx;
      }
    }
    BuffersEnough(bufs, all, idx);
  }

  /** When write_log has both its buffers, the transaction is smaller than the cache
      and so than the log region. */
  lemma CopyFits(s: Sys, f: Flat, e: Event)
    requires Inv(s, f) && e.CopyToLog? && Enabled(s, e)
    ensures |s.adm.lh| < NBUF <= s.g.size
  {
    if s.phase.t == 0 {
      var a: nat := s.g.start + 1;
      assert !s.g.Home(|s.disk|, a);
      RoomForOneMore(s.bufs, s.adm.lh, a, e.to);
    }
  }

  lemma CopyToLogPhase(s: Sys, s': Sys, f: Flat, p: nat, t: nat)
    requires Shape(s) && |f.committed| == |s.disk| == |f.current| && PhaseInv(s, f)
    requires |s.adm.lh| < NBUF <= s.g.size
    requires s.phase == WriteLog(p, t) && t < |s.adm.lh| && s'.phase == WriteLog(p, t + 1)
    requires s'.g == s.g && s'.adm == s.adm && |s'.bufs| == NBUF && s'.users == s.users
    requires s'.disk == s.disk[s.g.start + 1 + t := f.current[s.adm.lh[t]]]
    ensures Shape(s') && PhaseInv(s', f)
  {
  }

  lemma CopyToLogInv(s: Sys, f: Flat, e: Event)
    requires Inv(s, f) && e.CopyToLog? && Enabled(s, e)
    ensures Inv(Apply(s, e), f)
  {
    var s' := Apply(s, e);
    CopyFits(s, f, e);
    assert Pinned(s') == Pinned(s);
    WriteThroughCache(s, s', e.to);
    LogWriteData(s, s', f, e.to);
    assert DataOk(s.g, s.disk, f.current, s.bufs[e.from]);
    CopyToLogPhase(s, s', f, s.phase.p, s.phase.t);
  }

  lemma HeadPhase(s: Sys, s': Sys, f: Flat, p: nat, data: Block)
    requires Shape(s) && |f.committed| == |s.disk| == |f.current| && PhaseInv(s, f)
    requires s.phase == WriteLog(p, |s.adm.lh|) && s'.phase == Install(p, 0)
    requires s'.g == s.g && s'.adm == s.adm && |s'.bufs| == NBUF && s'.users == s.users
    requires s'.disk == s.disk[s.g.start := EncodeHeader(data, s.adm.lh)]
    ensures Shape(s') && PhaseInv(s', f.(committed := f.current))
  {
    HeaderRoundTrip(data, s.adm.lh);
  }

  lemma WriteHeadInv(s: Sys, f: Flat, e: Event)
    requires Inv(s, f) && e.WriteHead? && Enabled(s, e)
    ensures Inv(Apply(s, e), FlatApply(f, e))
  {
    var s' := Apply(s, e);
    assert Pinned(s') == Pinned(s);
    WriteThroughCache(s, s', e.i);
    LogWriteData(s, s', f, e.i);
    HeadPhase(s, s', f, e.p, s.bufs[e.i].data);
  }

  lemma InstallPhase(s: Sys, s': Sys, f: Flat, p: nat, t: nat)
    requires Shape(s) && |f.committed| == |s.disk| == |f.current| && PhaseInv(s, f)
    requires s.phase == Install(p, t) && t < |s.adm.lh| && s'.phase == Install(p, t + 1)
    requires s'.g == s.g && s'.adm == s.adm && |s'.bufs| == NBUF && s'.users == s.users
    requires s'.disk == s.disk[s.adm.lh[t] := f.current[s.adm.lh[t]]]
    ensures Shape(s') && PhaseInv(s', f)
  {
  }

  lemma InstallCache(s: Sys, e: Event)
    requires Shape(s) && CacheInv(s) && e.InstallBlock? && Enabled(s, e)
    ensures CacheInv(Apply(s, e))
  {
    var s' := Apply(s, e);
    var t := s.phase.t;
    assert Pinned(s) == [s.adm.lh[t]] + Pinned(s');
    assert s.adm.lh[t] !in Pinned(s');
    assert BufOk(|s.disk|, Pinned(s), s.bufs[e.d], s.users[e.d]);
    SmallSet(s.users[e.d], LA.NPROC);
    forall j | 0 <= j < NBUF
      ensures BufOk(|s'.disk|, Pinned(s'), s'.bufs[j], s'.users[j])
    {
      assert BufOk(|s.disk|, Pinned(s), s.bufs[j], s.users[j]);
    }
  }

  lemma InstallPinned(s: Sys, s': Sys, t: nat)
    requires s.phase.Install? && s.phase.t == t < |s.adm.lh|
    requires s'.phase == Install(s.phase.p, t + 1) && s'.adm == s.adm
    ensures Pinned(s) == [s.adm.lh[t]] + Pinned(s')
  {
  }

  lemma InstallData(s: Sys, s': Sys, f: Flat, d: nat, b: nat)
    requires Shape(s) && CacheInv(s) && DataInv(s, f) && d < NBUF && s.bufs[d].For(b)
    requires s.g.Home(|s.disk|, b) && s'.g == s.g && b in Pinned(s)
    requires Pinned(s) == [b] + Pinned(s')
    requires |s'.bufs| == NBUF && s'.bufs == s.bufs[d := s'.bufs[d]]
    requires s'.bufs[d].For(b) && s'.bufs[d].valid && s'.bufs[d].data == f.current[b]
    requires s'.disk == s.disk[b := f.current[b]]
    ensures DataInv(s', f)
  {
    forall c <- Pinned(s')
      ensures Cached(s'.bufs, c)
    {
      assert c in Pinned(s);
      KeepsCached(s.bufs, s'.bufs, d, c);
    }
    forall j | 0 <= j < NBUF
      ensures DataOk(s'.g, s'.disk, f.current, s'.bufs[j])
    {
      assert DataOk(s.g, s.disk, f.current, s.bufs[j]);
    }
    assert forall c :: c in Pinned(s) ==> c == b || c in Pinned(s');
  }

  lemma DataAt(s: Sys, f: Flat, i: nat)
    requires DataInv(s, f) && i < |s.bufs|
    ensures DataOk(s.g, s.disk, f.current, s.bufs[i])
    ensures |s.disk| == |f.current| == |f.committed|
  {
  }

  lemma LoggedCopy(s: Sys, f: Flat, l: nat, t: nat)
    requires Shape(s) && DataInv(s, f) && PhaseInv(s, f)
    requires s.phase.Install? && t < |s.adm.lh| && l < |s.bufs|
    requires s.bufs[l].valid && s.bufs[l].For(s.g.start + 1 + t)
    ensures s.adm.lh[t] < |f.current| && s.bufs[l].data == f.current[s.adm.lh[t]]
  {
    hide CacheInv, LA.Inv, HeaderBlocks, DataInv, Settled;
    var a := s.g.start + 1 + t;
    DataAt(s, f, l);
    assert !s.g.Home(|s.disk|, a);
    assert s.disk[a] == f.current[s.adm.lh[t]];
  }

  lemma InstallBlockInv(s: Sys, f: Flat, e: Event)
    requires Inv(s, f) && e.InstallBlock? && Enabled(s, e)
    ensures Inv(Apply(s, e), f)
  {
    hide CacheInv, DataInv, PhaseInv, LA.Inv;
    var s' := Apply(s, e);
    InstallCache(s, e);
    LoggedCopy(s, f, e.l, s.phase.t);
    InstallRest(s, f, e.d, s.phase.t, s');
  }

  lemma InstallRest(s: Sys, f: Flat, d: nat, t: nat, s': Sys)
    requires Shape(s) && CacheInv(s) && DataInv(s, f) && PhaseInv(s, f)
    requires s.phase.Install? && s.phase.t == t < |s.adm.lh| && s'.phase == Install(s.phase.p, t + 1)
    requires d < NBUF && s.bufs[d].For(s.adm.lh[t])
    requires s'.g == s.g && s'.adm == s.adm && s'.users == s.users
    requires s'.disk == s.disk[s.adm.lh[t] := f.current[s.adm.lh[t]]]
    requires |s'.bufs| == NBUF && s'.bufs == s.bufs[d := s'.bufs[d]]
    requires s'.bufs[d].For(s.adm.lh[t]) && s'.bufs[d].valid
    requires s'.bufs[d].data == f.current[s.adm.lh[t]]
    ensures Shape(s') && DataInv(s', f) && PhaseInv(s', f)
  {
    hide CacheInv, LA.Inv, PhaseInv, DataInv, Distinct;
    DataAt(s, f, d);
    InstallPinned(s, s', t);
    InstallPhase(s, s', f, s.phase.p, t);
    InstallData(s, s', f, d, s.adm.lh[t]);
  }

  lemma ForgetLogInv(s: Sys, f: Flat, e: Event)
    requires Inv(s, f) && e.ForgetLog? && Enabled(s, e)
    ensures Inv(Apply(s, e), f)
  {
    LA.StepInv(s.g.size, s.adm, LA.Forget);
    assert Pinned(Apply(s, e)) == Pinned(s) == [];
  }

  lemma ClearPhase(s: Sys, s': Sys, f: Flat, p: nat, data: Block)
    requires Shape(s) && DataInv(s, f) && PhaseInv(s, f)
    requires s.phase == Clear(p) && s'.phase == Done(p)
    requires s'.g == s.g && s'.adm == s.adm && |s'.bufs| == NBUF && s'.users == s.users
    requires s'.disk == s.disk[s.g.start := EncodeHeader(data, [])]
    ensures Shape(s') && PhaseInv(s', f)
  {
    HeaderRoundTrip(data, []);
  }

  lemma ClearHeadInv(s: Sys, f: Flat, e: Event)
    requires Inv(s, f) && e.ClearHead? && Enabled(s, e)
    ensures Inv(Apply(s, e), f)
  {
    var s' := Apply(s, e);
    assert Pinned(s') == Pinned(s) == [];
    WriteThroughCache(s, s', e.i);
    LogWriteData(s, s', f, e.i);
    ClearPhase(s, s', f, e.p, s.bufs[e.i].data);
  }

  lemma LookupInv(s: Sys, f: Flat, e: Event)
    requires Inv(s, f) && e.Lookup? && Enabled(s, e)
    ensures Inv(Apply(s, e), f)
  {
    LookupCache(s, f, e.p, e.b, e.i);
    LookupData(s, f, e.p, e.b, e.i);
    CacheOnly(s, Apply(s, e), f);
  }

  lemma LockingInv(s: Sys, f: Flat, e: Event)
    requires Inv(s, f) && Enabled(s, e)
    requires e.Lock? || e.Fill? || e.Unlock? || e.Deref?
    ensures Inv(Apply(s, e), f)
  {
    LockingCache(s, e);
    LockingData(s, f, e);
    CacheOnly(s, Apply(s, e), f);
  }

  lemma CacheOnly(s: Sys, s': Sys, f: Flat)
    requires Shape(s) && |f.committed| == |s.disk| && PhaseInv(s, f)
    requires s'.g == s.g && s'.disk == s.disk && s'.adm == s.adm && s'.phase == s.phase
    requires |s'.bufs| == |s'.users| == NBUF
    ensures Shape(s') && PhaseInv(s', f)
  {
  }

  lemma UpdateInv(s: Sys, f: Flat, e: Event)
    requires Inv(s, f) && e.Update? && Enabled(s, e)
    ensures Inv(Apply(s, e), FlatApply(f, e))
  {
    UpdateShape(s, f, e);
    UpdateCache(s, f, e);
    UpdateData(s, f, e);
    UpdateIsIdle(s, f, e.p);
  }

  lemma FlatStill(f: Flat, e: Event)
    ensures !e.Update? && !e.WriteHead? ==> FlatApply(f, e) == f
  {
  }

  lemma StepInv(s: Sys, f: Flat, e: Event)
    requires Inv(s, f) && Enabled(s, e)
    ensures Inv(Apply(s, e), FlatApply(f, e))
  {
    hide *;
    FlatStill(f, e);
    match e {
      case Lookup(_, _, _) => LookupInv(s, f, e);
      case Lock(_, _) => LockingInv(s, f, e);
      case Fill(_, _) => LockingInv(s, f, e);
      case Unlock(_, _) => LockingInv(s, f, e);
      case Deref(_, _) => LockingInv(s, f, e);
      case BeginOp(_) => AdmissionStepInv(s, f, e);
      case TestLog(_) => AdmissionStepInv(s, f, e);
      case EndOp(_) => AdmissionStepInv(s, f, e);
      case FinishCommit(_) => AdmissionStepInv(s, f, e);
      case Update(_, _, _, _) => UpdateInv(s, f, e);
      case CopyToLog(_, _, _) => CopyToLogInv(s, f, e);
      case WriteHead(_, _) => WriteHeadInv(s, f, e);
      case InstallBlock(_, _, _) => InstallBlockInv(s, f, e);
      case ForgetLog(_) => ForgetLogInv(s, f, e);
      case ClearHead(_, _) => ClearHeadInv(s, f, e);
    }
  }

  // ----- whole runs

  /** The machine after binit, on a disk whose log is empty. */
  ghost predicate Init(s: Sys) {
    && |s.bufs| == NBUF && s.users == seq(NBUF, _ => {})
    && (forall i :: 0 <= i < NBUF ==>
          s.bufs[i].dev == 0 && !s.bufs[i].valid && s.bufs[i].refcnt == 0 && s.bufs[i].lock.Free?)
    && s.g.Fits(|s.disk|)
    && s.disk[s.g.start][0] == 0
    && s.adm == LA.Booted() && s.phase.Idle?
  }

  /** Every event is enabled where it is taken. */
  predicate Runs(s: Sys, es: seq<Event>)
    decreases |es|
  {
    es == [] || (Enabled(s, es[0]) && Runs(Apply(s, es[0]), es[1..]))
  }

  function After(s: Sys, es: seq<Event>): (r: Sys)
    requires Runs(s, es)
    decreases |es|
  {
    if es == [] then s else After(Apply(s, es[0]), es[1..])
  }

  function FlatAfter(f: Flat, es: seq<Event>): (r: Flat)
    decreases |es|
  {
    if es == [] then f else FlatAfter(FlatApply(f, es[0]), es[1..])
  }

  lemma InitInv(s: Sys)
    requires Init(s) && SafeSize(s.g.size)
    ensures Inv(s, Flat(s.disk, s.disk))
  {
    LA.BootedInv();
  }

  lemma {:induction false} RunInv(s: Sys, f: Flat, es: seq<Event>)
    requires Inv(s, f) && Runs(s, es)
    ensures Inv(After(s, es), FlatAfter(f, es))
    decreases |es|
  {
    hide Inv, Apply, Enabled;
    if es != [] {
      StepInv(s, f, es[0]);
      RunInv(Apply(s, es[0]), FlatApply(f, es[0]), es[1..]);
    }
  }

  lemma ImageValid(s: Sys, f: Flat)
    requires Shape(s) && |f.committed| == |s.disk| && PhaseInv(s, f)
    ensures ValidImage(s.g, s.disk)
  {
  }

  lemma LogicalWhenSettled(s: Sys, f: Flat, b: nat)
    requires s.g.Fits(|s.disk|) && |f.committed| == |s.disk| && s.g.Home(|s.disk|, b)
    requires ValidImage(s.g, s.disk) && Shape(s) && Settled(s, f)
    ensures Logical(s.g, s.disk, b) == f.committed[b]
  {
    hide Shape;
    assert Slot([], b) == 0;
  }

  lemma OverlaidIsCurrent(g: Geometry, d: Image, current: Image, bs: seq<nat>, b: nat)
    requires g.Fits(|d|) && |bs| < g.size && b < |d| == |current|
    requires forall k :: 0 <= k < |bs| ==> bs[k] < |current|
    requires forall k :: 0 <= k < |bs| ==> d[g.start + 1 + k] == current[bs[k]]
    requires b !in bs ==> d[b] == current[b]
    ensures Overlaid(g, d, bs, |bs|, b) == current[b]
  {
    var k := Slot(bs, b);
    assert k < |bs| ==> d[g.start + 1 + k] == current[bs[k]];
  }

  lemma LogicalWhenLogged(s: Sys, f: Flat, b: nat)
    requires s.g.Fits(|s.disk|) && |f.current| == |s.disk| && s.g.Home(|s.disk|, b)
    requires ValidImage(s.g, s.disk)
    requires var bs := HeaderBlocks(s.disk[s.g.start]); Logged(s, f, bs, |bs|)
    requires b !in HeaderBlocks(s.disk[s.g.start]) ==> s.disk[b] == f.current[b]
    ensures Logical(s.g, s.disk, b) == f.current[b]
  {
    hide HeaderBlocks, Distinct, Overlaid;
    OverlaidIsCurrent(s.g, s.disk, f.current, HeaderBlocks(s.disk[s.g.start]), b);
  }

  lemma LogicalIsCommitted(s: Sys, f: Flat, b: nat)
    requires Shape(s) && DataInv(s, f) && PhaseInv(s, f) && s.g.Home(|s.disk|, b)
    requires ValidImage(s.g, s.disk)
    ensures Logical(s.g, s.disk, b) == f.committed[b]
  {
    hide Logical, ValidImage, LA.Inv, Settled;
    if s.phase.Install? || s.phase.Clear? {
      assert b in Pinned(s) ==> b in HeaderBlocks(s.disk[s.g.start]);
      LogicalWhenLogged(s, f, b);
    } else {
      LogicalWhenSettled(s, f, b);
    }
  }

  /** In every state the invariant allows, replaying the on-disk log gives every home
      block its committed contents. */
  lemma DiskMeansCommitted(s: Sys, f: Flat)
    requires Inv(s, f)
    ensures ValidImage(s.g, s.disk)
    ensures forall b: nat :: s.g.Home(|s.disk|, b) ==> Logical(s.g, s.disk, b) == f.committed[b]
  {
    ImageValid(s, f);
    forall b: nat | s.g.Home(|s.disk|, b)
      ensures Logical(s.g, s.disk, b) == f.committed[b]
    {
      LogicalIsCommitted(s, f, b);
    }
  }

  /** After es, whoever has a home block locked and filled sees the last contents given
      to that block. */
  ghost predicate ReadsLast(s: Sys, es: seq<Event>)
    requires Runs(s, es)
  {
    var t, f := After(s, es), FlatAfter(Flat(s.disk, s.disk), es);
    forall p: nat, i: nat, b: nat :: t.Holds(p, i, b) && s.g.Home(|s.disk|, b) ==>
      b < |f.current| && t.bufs[i].data == f.current[b]
  }

  lemma RunReads(s: Sys, es: seq<Event>)
    requires Inv(s, Flat(s.disk, s.disk)) && Runs(s, es)
    ensures ReadsLast(s, es)
  {
    var f := Flat(s.disk, s.disk);
    RunInv(s, f, es);
    RunKeepsGeometry(s, es);
    var s', f' := After(s, es), FlatAfter(f, es);
    forall p: nat, i: nat, b: nat | s'.Holds(p, i, b) && s.g.Home(|s.disk|, b)
      ensures b < |f'.current| && s'.bufs[i].data == f'.current[b]
    {
      DataAt(s', f', i);
    }
  }

  /** The cache refines flat storage, over any run. */
  lemma ReadsSeeLastWrite(s: Sys, es: seq<Event>)
    requires Init(s) && SafeSize(s.g.size) && Runs(s, es)
    ensures ReadsLast(s, es)
  {
    InitInv(s);
    RunReads(s, es);
  }

  // ----- a locked buffer is its holder's

  /** All but the count. */
  predicate SameBuffer(x: Buf, y: Buf) { y == x.(refcnt := y.refcnt) }

  lemma OthersStayOut(s: Sys, f: Flat, e: Event, p: nat, i: nat)
    requires Inv(s, f) && Enabled(s, e) && i < NBUF && s.bufs[i].lock == Held(p) && e.p != p
    ensures |Apply(s, e).bufs| == NBUF && SameBuffer(s.bufs[i], Apply(s, e).bufs[i])
  {
    assert BufOk(|s.disk|, Pinned(s), s.bufs[i], s.users[i]);
    assert p in s.users[i] && |s.users[i]| > 0;
    hide Inv, LA.Apply, LA.Enabled, EncodeHeader, BufOk, Pinned;
  }

  /** From the moment a process has locked a buffer, whatever the others do, the buffer is
      for the same block, with the same contents, and locked by that process. */
  lemma {:induction false} LockedIsMine(s: Sys, f: Flat, es: seq<Event>, p: nat, i: nat)
    requires Inv(s, f) && Runs(s, es) && i < NBUF && |s.bufs| == NBUF && s.bufs[i].lock == Held(p)
    requires forall k :: 0 <= k < |es| ==> es[k].p != p
    ensures |After(s, es).bufs| == NBUF && SameBuffer(s.bufs[i], After(s, es).bufs[i])
    decreases |es|
  {
    hide Inv, Apply, Enabled;
    if es != [] {
      OthersStayOut(s, f, es[0], p, i);
      StepInv(s, f, es[0]);
      LockedIsMine(Apply(s, es[0]), FlatApply(f, es[0]), es[1..], p, i);
    }
  }

  lemma {:induction false} RunKeepsGeometry(s: Sys, es: seq<Event>)
    requires Runs(s, es)
    ensures After(s, es).g == s.g && |After(s, es).disk| == |s.disk|
    decreases |es|
  {
    if es != [] { RunKeepsGeometry(Apply(s, es[0]), es[1..]); }
  }

  /** Crash after es, then once more in recovery for each element of cuts: the recovery
      that completes gives every home block what it held when the last header write
      completed. */
  ghost predicate Atomic(s: Sys, es: seq<Event>, cuts: seq<nat>)
    requires Runs(s, es)
  {
    var d := After(s, es).disk;
    var f := FlatAfter(Flat(s.disk, s.disk), es);
    && ValidImage(s.g, d) && |d| == |s.disk| == |f.committed|
    && var r := Recovered(s.g, BootLoop(s.g, d, cuts));
    && |r| == |d| && HeaderBlocks(r[s.g.start]) == []
    && forall b: nat :: s.g.Home(|d|, b) ==> r[b] == f.committed[b]
  }

  /** Crash atomicity: crash the machine after any events, then crash recovery any
      number of times. */
  lemma CrashAtomicity(s: Sys, es: seq<Event>, cuts: seq<nat>)
    requires Init(s) && SafeSize(s.g.size) && Runs(s, es)
    ensures Atomic(s, es, cuts)
  {
    InitInv(s);
    RunAtomic(s, es, cuts);
  }

  lemma RunAtomic(s: Sys, es: seq<Event>, cuts: seq<nat>)
    requires Inv(s, Flat(s.disk, s.disk)) && Runs(s, es)
    ensures Atomic(s, es, cuts)
  {
    var f := Flat(s.disk, s.disk);
    RunInv(s, f, es);
    RunKeepsGeometry(s, es);
    DiskMeansCommitted(After(s, es), FlatAfter(f, es));
    RecoverySurvivesCrashes(s.g, After(s, es).disk, cuts);
  }

  lemma HeaderFitsCache(s: Sys, f: Flat)
    requires Inv(s, f)
    ensures |HeaderBlocks(s.disk[s.g.start])| < NBUF
  {
  }

  /** No image that a crash can leave, of the machine or of any recovery from it, has a
      header of as many blocks as there are buffers. */
  lemma CrashImageFitsCache(s: Sys, es: seq<Event>, cuts: seq<nat>)
    requires Init(s) && SafeSize(s.g.size) && Runs(s, es)
    ensures ValidImage(s.g, After(s, es).disk)
    ensures |HeaderBlocks(BootLoop(s.g, After(s, es).disk, cuts)[s.g.start])| < NBUF
  {
    InitInv(s);
    var f := Flat(s.disk, s.disk);
    RunInv(s, f, es);
    RunKeepsGeometry(s, es);
    DiskMeansCommitted(After(s, es), FlatAfter(f, es));
    HeaderFitsCache(After(s, es), FlatAfter(f, es));
    BootLoopHeader(s.g, After(s, es).disk, cuts);
  }

  /** A logged block stays in the cache until it has been copied home: no lookup of
      another block takes its buffer. */
  lemma PinnedNeverRecycled(s: Sys, es: seq<Event>, i: nat, p: nat, b: nat)
    requires Init(s) && SafeSize(s.g.size) && Runs(s, es) && i < NBUF
    requires var t := After(s, es); |t.bufs| == NBUF && t.bufs[i].dev == ROOTDEV && t.bufs[i].blockno in Pinned(t)
    requires Enabled(After(s, es), Lookup(p, b, i))
    ensures After(s, es).bufs[i].For(b)
  {
    InitInv(s);
    RunInv(s, Flat(s.disk, s.disk), es);
    var t := After(s, es);
    assert BufOk(|t.disk|, Pinned(t), t.bufs[i], t.users[i]);
  }

  /** No operation is in progress. */
  ghost predicate Quiet(s: Sys) {
    forall p: nat :: !s.adm.Active(p)
  }

  lemma CommitIsQuiet(s: Sys, f: Flat)
    requires Inv(s, f) && !s.phase.Idle?
    ensures Quiet(s)
  {
    LA.UnusedBounds(s.adm.used);
  }

  /** Group commit: what a crash recovers to is what the store held at a moment of
      the run when no operation was in progress, so never part of an operation. */
  lemma {:induction false} CommittedIsQuiescent(s: Sys, f: Flat, es: seq<Event>) returns (k: nat)
    requires Inv(s, f) && Runs(s, es)
    ensures k <= |es| && Runs(s, es[..k])
    ensures var c := FlatAfter(f, es).committed;
            c == f.committed || (c == FlatAfter(f, es[..k]).current && Quiet(After(s, es[..k])))
    decreases |es|
  {
    hide Inv, Apply;
    k := 0;
    if es != [] {
      var s1, f1 := Apply(s, es[0]), FlatApply(f, es[0]);
      StepInv(s, f, es[0]);
      var j := CommittedIsQuiescent(s1, f1, es[1..]);
      if FlatAfter(f, es).committed != f1.committed {
        k := j + 1;
        assert es[..k][0] == es[0] && es[..k][1..] == es[1..][..j];
      } else if es[0].WriteHead? {
        CommitIsQuiet(s, f);
      }
    }
  }

  /** es leads from s to t. */
  ghost predicate Path(s: Sys, es: seq<Event>, t: Sys) {
    Runs(s, es) && After(s, es) == t
  }

  lemma {:induction false} PathJoin(s: Sys, es: seq<Event>, m: Sys, es': seq<Event>, t: Sys)
    requires Path(s, es, m) && Path(m, es', t)
    ensures Path(s, es + es', t)
    decreases |es|
  {
    if es == [] {
      assert es + es' == es';
    } else {
      PathJoin(Apply(s, es[0]), es[1..], m, es', t);
      assert (es + es')[0] == es[0] && (es + es')[1..] == es[1..] + es';
    }
  }

  lemma PathStep(s: Sys, es: seq<Event>, m: Sys, e: Event)
    requires Path(s, es, m) && Enabled(m, e)
    ensures Path(s, es + [e], Apply(m, e))
  {
    assert [e][1..] == [] && Runs(Apply(m, e), []);
    PathJoin(s, es, m, [e], Apply(m, e));
  }

  lemma {:induction false} FlatJoin(f: Flat, es: seq<Event>, es': seq<Event>)
    ensures FlatAfter(f, es + es') == FlatAfter(FlatAfter(f, es), es')
    decreases |es|
  {
    if es == [] {
      assert es + es' == es';
    } else {
      FlatJoin(FlatApply(f, es[0]), es[1..], es');
      assert (es + es')[0] == es[0] && (es + es')[1..] == es[1..] + es';
    }
  }

  /** Events that leave the flat store alone. */
  ghost predicate Quietly(es: seq<Event>) {
    forall e <- es :: !e.Update? && !e.WriteHead?
  }

  lemma QuietJoin(es: seq<Event>, es': seq<Event>)
    requires Quietly(es) && Quietly(es')
    ensures Quietly(es + es')
  {
  }

  lemma {:induction false} FlatUnmoved(f: Flat, es: seq<Event>)
    requires Quietly(es)
    ensures FlatAfter(f, es) == f
    decreases |es|
  {
    if es != [] { FlatUnmoved(f, es[1..]); }
  }
}
