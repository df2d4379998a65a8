/** The exact log sizes for which a crash is harmless.  In a region of 2 to LOGSIZE - 1
    blocks, three operations can log one block more than it has room for; the copy of
    the last one then lands on the home block just behind the region, before anything
    has been committed. */
module LogOverrun {
  import opened RedoLog
  import opened BlockMachine
  import opened BlockLayer
  import opened CodeRuns
  import LA = LogAdmission

  /** The code after binit, on a disk whose log is empty. */
  ghost predicate Start(c: Code) {
    Init(c.s) && c.order == BootOrder() && c.asked == map[]
  }

  lemma BootOrderWhole()
    ensures Whole(BootOrder())
  {
    forall i | 0 <= i < NBUF
      ensures i in BootOrder()
    {
      assert BootOrder()[NBUF - 1 - i] == i;
    }
  }

  /** In binit's order the first free buffer is the last free one. */
  lemma FirstIsLast(bufs: seq<Buf>, i: nat, k: nat)
    requires |bufs| == NBUF && LastFree(BootOrder(), bufs, i) && k < NBUF && bufs[k].refcnt == 0
    requires forall j :: 0 <= j < k ==> bufs[j].refcnt != 0
    ensures i == k
  {
    assert BootOrder()[NBUF - 1 - k] == k;
  }

  function Zeros(): Block { seq(BLOCK_WORDS, _ => 0) }
  function Ones(): Block { seq(BLOCK_WORDS, _ => 1) }

  // ----- the states of the run
  //
  // The log region is blocks 0..size-1, and blocks size..2*size-1 are updated in turn.

  /** k blocks have been logged, the next m are locked by the operations that will log
      them, and the processes in `passed` are past log_write's test. */
  function Writing(size: nat, k: nat, m: nat, passed: set<nat>): (s: Sys) {
    Sys(seq(NBUF, (i: nat) => if i < k then Buf(true, ROOTDEV, size + i, 1, Ones(), Free)
                       else if i < k + m then Buf(true, ROOTDEV, size + i, 1, Zeros(), Held(i % 3))
                       else Buf(false, 0, 0, 0, Zeros(), Free)),
        seq(NBUF, i => if k <= i < k + m then {i % 3} else {}),
        seq(2 * size, _ => Zeros()), Geometry(0, size), LA.Turns(size, k).(passed := passed), Idle)
  }

  ghost predicate WritingAt(c: Code, size: nat, k: nat, m: nat, passed: set<nat>) {
    && c.s == Writing(size, k, m, passed) && c.order == BootOrder()
    && forall i: nat :: k <= i < k + m ==> (i % 3, i) in c.asked && c.asked[(i % 3, i)] == size + i
  }

  /** Process 2 commits, and has copied t blocks to the log. */
  ghost predicate CopyingAt(c: Code, size: nat, t: nat) {
    && |c.s.bufs| == |c.s.users| == NBUF && Whole(c.order) && t <= size < NBUF && 0 < size
    && (forall i :: 0 <= i < NBUF ==> c.s.users[i] == {})
    && (forall i :: 0 <= i < size ==> c.s.bufs[i] == Buf(true, ROOTDEV, size + i, 1, Ones(), Free))
    && (forall i :: size <= i < NBUF ==> SpareBuf(c.s.bufs[i], t))
    && c.s.disk == LogDisk(size, t) && c.s.g == Geometry(0, size) && c.s.phase == WriteLog(2, t)
    && c.s.adm == LA.Admission(seq(size, i => size + i), 0, true, seq(LA.NPROC, _ => -1), {})
  }

  /** A free buffer, perhaps with one of the first t blocks of the log. */
  predicate SpareBuf(b: Buf, t: nat) {
    b.refcnt == 0 && b.lock.Free? && (b.valid <==> b.dev == ROOTDEV) && (b.dev == ROOTDEV ==> 1 <= b.blockno <= t)
  }

  function LogDisk(size: nat, t: nat): (d: Image)
    requires t <= size && 0 < size
  {
    [Zeros()] + seq(t, _ => Ones()) + seq(2 * size - 1 - t, _ => Zeros())
  }

  /** xs leads from c to m without a header write. */
  ghost predicate Reaches(c: Code, xs: seq<Step>, m: Code) {
    exists f :: Leads(c, Flat(c.s.disk, c.s.disk), xs, m, f) && f.committed == c.s.disk
  }

  lemma StartReach(c: Code)
    ensures Reaches(c, [], c)
  {
    LeadStart(c, Flat(c.s.disk, c.s.disk));
  }

  lemma ReachStep(c: Code, xs: seq<Step>, m: Code, x: Step)
    requires Reaches(c, xs, m) && CanStep(m, x) && x.Plain? && !x.e.WriteHead?
    ensures Reaches(c, xs + [x], Take(m, x))
  {
    hide Leads;
    var f0 := Flat(c.s.disk, c.s.disk);
    var f :| Leads(c, f0, xs, m, f) && f.committed == c.s.disk;
    LeadStep(c, f0, xs, m, f, x);
    assert Meant(f, x).committed == c.s.disk;
  }

  lemma ReachFetch(c: Code, xs: seq<Step>, m: Code, p: nat, b: nat) returns (xs': seq<Step>, i: nat, m': Code)
    requires Reaches(c, xs, m) && CanFetch(m, p, b)
    ensures Reaches(c, xs', m') && Fetched(m, m', p, b, i)
  {
    hide Leads, CanFetch, Fetched;
    var f0 := Flat(c.s.disk, c.s.disk);
    var f :| Leads(c, f0, xs, m, f) && f.committed == c.s.disk;
    xs', i, m' := Fetch(c, f0, xs, m, f, p, b);
  }

  lemma ReachDrop(c: Code, xs: seq<Step>, m: Code, p: nat, i: nat) returns (xs': seq<Step>)
    requires Reaches(c, xs, m) && i < |m.s.bufs| == |m.s.users| == NBUF && Whole(m.order)
    requires m.s.bufs[i].lock == Held(p) && p in m.s.users[i]
    ensures i in m.order && Reaches(c, xs', Dropped(m, p, i)) && Whole(Dropped(m, p, i).order)
  {
    hide Leads, Whole, Dropped;
    var f0 := Flat(c.s.disk, c.s.disk);
    var f :| Leads(c, f0, xs, m, f) && f.committed == c.s.disk;
    xs' := Drop(c, f0, xs, m, f, p, i);
  }

  // ----- filling the log

  /** The next operation in turn reads the block it is going to update. */
  lemma ReadNext(size: nat, c: Code, xs: seq<Step>, w: Code, k: nat, m: nat, passed: set<nat>)
    returns (xs': seq<Step>, w': Code)
    requires Reaches(c, xs, w) && WritingAt(w, size, k, m, passed) && k + m < size < NBUF
    ensures Reaches(c, xs', w') && WritingAt(w', size, k, m + 1, passed)
  {
    hide Reaches, LastFree, Whole;
    BootOrderWhole();
    var p, i := (k + m) % 3, k + m;
    assert w.s.bufs[i].refcnt == 0;
    assert CanFetch(w, p, size + i);
    var i';
    xs', i', w' := ReachFetch(c, xs, w, p, size + i);
    FirstIsLast(w.s.bufs, i', i);
    var v := Writing(size, k, m + 1, passed);
    assert {} + {p} == {p};
    assert w'.s.bufs == v.bufs && w'.s.users == v.users;
  }

  lemma TestNext(size: nat, c: Code, xs: seq<Step>, w: Code, k: nat, m: nat, passed: set<nat>, p: nat)
    returns (xs': seq<Step>, w': Code)
    requires Reaches(c, xs, w) && WritingAt(w, size, k, m, passed) && k + 1 < size < NBUF && p < 3 && p !in passed
    ensures Reaches(c, xs', w') && WritingAt(w', size, k, m, passed + {p})
  {
    hide Reaches;
    var x := Plain(TestLog(p));
    ReachStep(c, xs, w, x);
    xs', w' := xs + [x], Take(w, x);
  }

  /** The state after the Update of WriteNext and before the release. */
  function Updated(size: nat, k: nat, m: nat, passed: set<nat>): (s: Sys)
    requires k < NBUF && m > 0
  {
    var w := Writing(size, k, m, passed);
    w.(bufs := w.bufs[k := w.bufs[k].(data := Ones(), refcnt := Inc(1))],
       adm := LA.Turns(size, k + 1).(passed := passed - {k % 3}))
  }

  lemma UpdateStep(size: nat, k: nat, m: nat, passed: set<nat>)
    requires k < size < NBUF && m > 0 && k % 3 in passed
    ensures var w, e := Writing(size, k, m, passed), Update(k % 3, k, size + k, Ones());
            Enabled(w, e) && Apply(w, e) == Updated(size, k, m, passed)
  {
    var w, p := Writing(size, k, m, passed), k % 3;
    LA.TurnAdvances(size, k);
    assert w.bufs[k] == Buf(true, ROOTDEV, size + k, 1, Zeros(), Held(p));
  }

  /** The operation whose turn it is logs its block and releases the buffer. */
  lemma WriteNext(size: nat, c: Code, xs: seq<Step>, w: Code, k: nat, m: nat, passed: set<nat>)
    returns (xs': seq<Step>, w': Code)
    requires Reaches(c, xs, w) && WritingAt(w, size, k, m, passed) && k < size < NBUF && m > 0 && k % 3 in passed
    ensures Reaches(c, xs', w') && WritingAt(w', size, k + 1, m - 1, passed - {k % 3})
  {
    hide Reaches, Whole;
    BootOrderWhole();
    var p := k % 3;
    UpdateStep(size, k, m, passed);
    var x := Plain(Update(p, k, size + k, Ones()));
    assert (k % 3, k) in w.asked;
    ReachStep(c, xs, w, x);
    var u := Take(w, x);
    xs' := ReachDrop(c, xs + [x], u, p, k);
    w' := Dropped(u, p, k);
    var v := Writing(size, k + 1, m - 1, passed - {p});
    assert {p} - {p} == {};
    assert w'.s.bufs == v.bufs && w'.s.users == v.users;
  }

  lemma OpenAll(size: nat) returns (c: Code, xs: seq<Step>, w: Code)
    requires 2 <= size < NBUF
    ensures Start(c) && c.s.g.size == size && c.s.disk == seq(2 * size, _ => Zeros())
    ensures Reaches(c, xs, w) && WritingAt(w, size, 0, 0, {})
  {
    var v := Writing(size, 0, 0, {});
    c := Code(v.(adm := LA.Booted()), BootOrder(), map[]);
    var a1 := LA.Apply(c.s.adm, LA.Begin(0));
    var a2 := LA.Apply(a1, LA.Begin(1));
    assert LA.Apply(a2, LA.Begin(2)) == v.adm;
    hide Reaches;
    StartReach(c);
    var x0, x1, x2 := Plain(BeginOp(0)), Plain(BeginOp(1)), Plain(BeginOp(2));
    ReachStep(c, [], c, x0);
    ReachStep(c, [] + [x0], Take(c, x0), x1);
    ReachStep(c, [] + [x0] + [x1], Take(Take(c, x0), x1), x2);
    xs, w := [] + [x0] + [x1] + [x2], Take(Take(Take(c, x0), x1), x2);
  }

  /** k blocks are logged one after the other, each with its own test. */
  lemma {:induction false} LogBlocks(size: nat, k: nat) returns (c: Code, xs: seq<Step>, w: Code)
    requires 2 <= size < NBUF && k < size
    ensures Start(c) && c.s.g.size == size && c.s.disk == seq(2 * size, _ => Zeros())
    ensures Reaches(c, xs, w) && WritingAt(w, size, k, 0, {})
  {
    hide *;
    if k == 0 {
      c, xs, w := OpenAll(size);
    } else {
      c, xs, w := LogBlocks(size, k - 1);
      var p := (k - 1) % 3;
      xs, w := ReadNext(size, c, xs, w, k - 1, 0, {});
      xs, w := TestNext(size, c, xs, w, k - 1, 1, {}, p);
      xs, w := WriteNext(size, c, xs, w, k - 1, 1, {} + {p});
      assert {} + {p} - {p} == {};
    }
  }

  /** With one slot left, two operations pass the test and then both log a block. */
  lemma LogOneTooMany(size: nat) returns (c: Code, xs: seq<Step>, w: Code)
    requires 2 <= size < NBUF
    ensures Start(c) && c.s.g.size == size && c.s.disk == seq(2 * size, _ => Zeros())
    ensures Reaches(c, xs, w) && WritingAt(w, size, size, 0, {})
  {
    hide *;
    var k := size - 2;
    var p, q := k % 3, (k + 1) % 3;
    c, xs, w := LogBlocks(size, k);
    xs, w := ReadNext(size, c, xs, w, k, 0, {});
    xs, w := ReadNext(size, c, xs, w, k, 1, {});
    xs, w := TestNext(size, c, xs, w, k, 2, {}, p);
    xs, w := TestNext(size, c, xs, w, k, 2, {} + {p}, q);
    var both := {} + {p} + {q};
    xs, w := WriteNext(size, c, xs, w, k, 2, both);
    xs, w := WriteNext(size, c, xs, w, k + 1, 1, both - {p});
    assert both - {p} - {q} == {};
  }

  // ----- committing it

  lemma EndAll(size: nat, c: Code, xs: seq<Step>, w: Code) returns (xs': seq<Step>, w': Code)
    requires 2 <= size < NBUF && Reaches(c, xs, w) && WritingAt(w, size, size, 0, {})
    ensures Reaches(c, xs', w') && CopyingAt(w', size, 0)
  {
    hide Reaches;
    BootOrderWhole();
    hide Whole;
    var x0, x1, x2 := Plain(EndOp(0)), Plain(EndOp(1)), Plain(EndOp(2));
    assert w.s.adm.lh == seq(size, i => size + i) && w.s.adm.lh[0] == size;
    ReachStep(c, xs, w, x0);
    var w1 := Take(w, x0);
    ReachStep(c, xs + [x0], w1, x1);
    var w2 := Take(w1, x1);
    ReachStep(c, xs + [x0] + [x1], w2, x2);
    xs', w' := xs + [x0] + [x1] + [x2], Take(w2, x2);
    assert w'.s.adm.used == seq(LA.NPROC, _ => -1);
    assert w'.s.disk == LogDisk(size, 0);
  }

  /** Both blocks of a turn have been read: the log block into i, the home block in buffer t. */
  ghost predicate TurnRead(w: Code, w': Code, size: nat, t: nat, i: nat) {
    && |w.s.bufs| == |w.s.users| == |w'.s.bufs| == |w'.s.users| == NBUF && t < size <= i < NBUF && w'.order == w.order
    && w'.s == w.s.(bufs := w.s.bufs[i := w'.s.bufs[i]][t := Buf(true, ROOTDEV, size + t, 2, Ones(), Held(2))],
                    users := w.s.users[i := {2}][t := {2}])
    && w'.s.bufs[i] == Buf(true, ROOTDEV, 1 + t, 1, w'.s.bufs[i].data, Held(2))
  }

  lemma ReadTurn(size: nat, c: Code, xs: seq<Step>, w: Code, t: nat) returns (xs': seq<Step>, i: nat, w': Code)
    requires 2 <= size && t + 1 < size && Reaches(c, xs, w) && CopyingAt(w, size, t)
    ensures Reaches(c, xs', w') && TurnRead(w, w', size, t, i)
  {
    hide Reaches, LastFree, Whole;
    assert w.s.bufs[size].refcnt == 0;
    assert w.s.bufs[t].For(size + t);
    assert forall k :: 0 <= k < NBUF ==> !w.s.bufs[k].For(1 + t);
    assert CanFetch(w, 2, 1 + t);
    var w1, k;
    xs', i, w1 := ReachFetch(c, xs, w, 2, 1 + t);
    LastIsFree(w.order, w.s.bufs, i);
    assert size <= i && w1.s.bufs[t].For(size + t);
    xs', k, w' := ReadHome(size, c, xs', w, w1, t, i);
    assert {} + {2} == {2};
  }

  lemma LastIsFree(order: seq<nat>, bufs: seq<Buf>, i: nat)
    ensures LastFree(order, bufs, i) ==> i < |bufs| && bufs[i].refcnt == 0
  {
  }

  lemma ReadHome(size: nat, c: Code, xs: seq<Step>, w: Code, w1: Code, t: nat, i: nat)
    returns (xs': seq<Step>, k: nat, w': Code)
    requires 2 <= size && t + 1 < size && Reaches(c, xs, w1) && CopyingAt(w, size, t) && size <= i
    requires Fetched(w, w1, 2, 1 + t, i)
    ensures Reaches(c, xs', w') && Fetched(w1, w', 2, size + t, t) && k == t
  {
    hide Reaches, LastFree, Whole;
    assert w1.s.bufs[t].For(size + t);
    assert CanFetch(w1, 2, size + t);
    xs', k, w' := ReachFetch(c, xs, w1, 2, size + t);
    NotHad(w1.s.bufs, size + t);
  }

  lemma CopyNext(size: nat, c: Code, xs: seq<Step>, w: Code, t: nat) returns (xs': seq<Step>, w': Code)
    requires 2 <= size && t + 1 < size && Reaches(c, xs, w) && CopyingAt(w, size, t)
    ensures Reaches(c, xs', w') && CopyingAt(w', size, t + 1)
  {
    hide Reaches, Whole;
    var i, w1;
    xs', i, w1 := ReadTurn(size, c, xs, w, t);
    var x := Plain(CopyToLog(2, i, t));
    CopyStep(size, w, w1, t, i);
    ReachStep(c, xs', w1, x);
    var w2 := Take(w1, x);
    xs' := ReachDrop(c, xs' + [x], w2, 2, t);
    var w3 := Dropped(w2, 2, t);
    xs' := ReachDrop(c, xs', w3, 2, i);
    w' := Dropped(w3, 2, i);
    TurnDone(size, w, w2, w', t, i);
  }

  /** The turn after the copy. */
  ghost predicate TurnCopied(w: Code, w': Code, size: nat, t: nat, i: nat)
    requires t < size
  {
    && |w.s.bufs| == |w.s.users| == |w'.s.bufs| == |w'.s.users| == NBUF && t < size <= i < NBUF && w'.order == w.order
    && w'.s == w.s.(bufs := w.s.bufs[i := Buf(true, ROOTDEV, 1 + t, 1, Ones(), Held(2))]
                                    [t := Buf(true, ROOTDEV, size + t, 2, Ones(), Held(2))],
                    users := w.s.users[i := {2}][t := {2}], disk := LogDisk(size, t + 1), phase := WriteLog(2, t + 1))
  }

  lemma CopyStep(size: nat, w: Code, w1: Code, t: nat, i: nat)
    requires 2 <= size && t + 1 < size && CopyingAt(w, size, t) && TurnRead(w, w1, size, t, i)
    ensures var x := Plain(CopyToLog(2, i, t)); CanStep(w1, x) && TurnCopied(w, Take(w1, x), size, t, i)
  {
    hide Whole;
    assert w.s.disk[1 + t := Ones()] == LogDisk(size, t + 1);
  }

  lemma TurnDone(size: nat, w: Code, w2: Code, w': Code, t: nat, i: nat)
    requires 2 <= size && t + 1 < size && CopyingAt(w, size, t) && TurnCopied(w, w2, size, t, i)
    requires i in w2.order && t in w2.order && i in Dropped(w2, 2, t).order
    requires w' == Dropped(Dropped(w2, 2, t), 2, i) && Whole(w'.order)
    ensures CopyingAt(w', size, t + 1)
  {
    hide Whole, ToFront;
    assert {2} - {2} == {};
  }

  lemma {:induction false} CopyBlocks(size: nat, t: nat) returns (c: Code, xs: seq<Step>, w: Code)
    requires 2 <= size < NBUF && t < size
    ensures Start(c) && c.s.g.size == size && c.s.disk == seq(2 * size, _ => Zeros())
    ensures Reaches(c, xs, w) && CopyingAt(w, size, t)
  {
    hide *;
    if t == 0 {
      c, xs, w := LogOneTooMany(size);
      xs, w := EndAll(size, c, xs, w);
    } else {
      c, xs, w := CopyBlocks(size, t - 1);
      xs, w := CopyNext(size, c, xs, w, t - 1);
    }
  }

  /** The last copy goes to block `size`, which is not in the log region. */
  lemma CopyPastTheEnd(size: nat, c: Code, xs: seq<Step>, w: Code) returns (xs': seq<Step>, w': Code)
    requires 2 <= size < NBUF && Reaches(c, xs, w) && CopyingAt(w, size, size - 1)
    ensures Reaches(c, xs', w') && w'.s.g == Geometry(0, size) && |w'.s.disk| == 2 * size
    ensures w'.s.disk[0] == Zeros() && w'.s.disk[size] == Ones()
  {
    hide Reaches, Whole, LastFree;
    var i, k, w1, w2;
    assert w.s.bufs[0].For(size) && w.s.bufs[size - 1].For(2 * size - 1);
    assert CanFetch(w, 2, size);
    xs', i, w1 := ReachFetch(c, xs, w, 2, size);
    NotHad(w.s.bufs, size);
    assert i == 0 && w1.s.bufs[size - 1].For(2 * size - 1);
    assert CanFetch(w1, 2, 2 * size - 1);
    xs', k, w2 := ReachFetch(c, xs', w1, 2, 2 * size - 1);
    NotHad(w1.s.bufs, 2 * size - 1);
    assert k == size - 1;
    var x := Plain(CopyToLog(2, 0, size - 1));
    assert CanStep(w2, x);
    ReachStep(c, xs', w2, x);
    xs', w' := xs' + [x], Take(w2, x);
  }

  /** A region between the header alone and LOGSIZE blocks can be overrun, and a crash
      then leaves a home block that recovery does not restore. */
  lemma OverrunDamagesDisk(size: nat) returns (c: Code, xs: seq<Step>)
    requires 2 <= size < LOGSIZE
    ensures Start(c) && c.s.g.size == size && Goes(c, xs) && !CrashSafe(c, xs, [])
  {
    hide Init, Whole;
    var w;
    c, xs, w := CopyBlocks(size, size - 1);
    xs, w := CopyPastTheEnd(size, c, xs, w);
    var f :| Leads(c, Flat(c.s.disk, c.s.disk), xs, w, f) && f.committed == c.s.disk;
    Unrestored(w.s.g, w.s.disk, c.s.disk);
    GeometryKept(c, xs);
  }

  lemma {:induction false} GeometryKept(c: Code, xs: seq<Step>)
    requires Goes(c, xs)
    ensures Then(c, xs).s.g == c.s.g
    decreases |xs|
  {
    if xs != [] { GeometryKept(Take(c, xs[0]), xs[1..]); }
  }

  lemma Unrestored(g: Geometry, d: Image, committed: Image)
    requires g.start == 0 && 2 <= g.size && |d| == |committed| == 2 * g.size
    requires d[0] == Zeros() && d[g.size] == Ones() && committed[g.size] == Zeros()
    ensures !Restores(g, d, committed, [])
  {
    assert HeaderBlocks(d[0]) == [] && ValidImage(g, d);
    assert BootLoop(g, d, []) == d;
    assert Recovered(g, d)[g.size] == d[g.size];
    assert g.Home(|d|, g.size);
    assert Ones()[0] != Zeros()[0];
  }

  /** Crashes are harmless, over all runs of the code and all ways recovery can be cut
      short, exactly for the sizes of SafeSize. */
  lemma CrashAtomicityIff(size: nat)
    requires size > 0
    ensures (forall c, xs, cuts :: Start(c) && c.s.g.size == size && Goes(c, xs) ==> CrashSafe(c, xs, cuts))
            <==> SafeSize(size)
  {
    hide CrashSafe;
    if SafeSize(size) {
      forall c, xs, cuts | Start(c) && c.s.g.size == size && Goes(c, xs)
        ensures CrashSafe(c, xs, cuts)
      {
        InitInv(c.s);
        RightCounts(c, xs, cuts);
      }
    } else {
      var c, xs := OverrunDamagesDisk(size);
    }
  }
}
