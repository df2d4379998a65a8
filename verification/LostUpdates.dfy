/** What a recovery that installed blocks costs.  The buffer of an installed block has a
    count of 2^32 - 1; a process that locks it brings that to 0, and since the buffer comes
    last in the order of use, the next lookup of a block that is not cached takes it away.
    The process goes on to update its buffer, which is another block's now. */
module LostUpdates {
  import opened Common
  import opened RedoLog
  import opened BlockMachine
  import opened BlockLayer
  import opened Recovery
  import opened CodeRuns
  import opened Reboot
  import opened FewBlocks
  import LA = LogAdmission

  /** What the run below needs: buffer j holds the installed block b with a wrapped count,
      all buffers less recently used than j are in use, another is free, and home block a
      is not cached. */
  ghost predicate Ripe(c: Code, j: nat, b: nat, a: nat) {
    && |c.s.bufs| == |c.s.users| == NBUF && j < NBUF && Whole(c.order) && c.asked == map[]
    && c.s.g.Fits(|c.s.disk|) && 2 <= c.s.g.size
    && c.s.g.Home(|c.s.disk|, b) && c.s.g.Home(|c.s.disk|, a) && a != b && !Has(c.s.bufs, a)
    && Idle(c.s) && c.s.bufs[j].For(b) && c.s.bufs[j].valid && c.s.bufs[j].refcnt == UINT_MOD - 1
    && LastFree(c.order, c.s.bufs[j := c.s.bufs[j].(refcnt := 0)], j)
    && (forall i :: 0 <= i < NBUF && c.s.bufs[i].For(b) ==> i == j)
    && (forall i :: 0 <= i < NBUF && c.s.bufs[i].refcnt != 0 ==>
          c.s.bufs[i].dev == ROOTDEV && c.s.g.Home(|c.s.disk|, c.s.bufs[i].blockno))
    && HasFree(c.s.bufs) && c.s.adm == LA.Booted() && c.s.phase.Idle?
  }

  /** Nothing is locked or used, and the buffers of the device are filled. */
  ghost predicate Idle(s: Sys) {
    && |s.users| == |s.bufs|
    && forall i :: 0 <= i < |s.bufs| ==>
         s.bufs[i].lock.Free? && s.users[i] == {} && (s.bufs[i].valid <==> s.bufs[i].dev == ROOTDEV)
  }

  lemma FindRipe(c: Code, bs: seq<nat>) returns (j: nat, b: nat, a: nat)
    requires BackUp(c, bs) && bs != [] && Spare(c.s, bs)
    ensures Ripe(c, j, b, a)
  {
    hide LA.Booted, LastFree, Whole, Retained;
    var s := c.s;
    FreeBuffer(s.bufs);
    assert Busy(s.bufs) != {};
    j :| j in Busy(s.bufs);
    b := s.bufs[j].blockno;
    a :| s.g.Home(|s.disk|, a) && a !in bs;
    forall i | 0 <= i < NBUF
      ensures s.bufs[i].lock.Free? && (s.bufs[i].valid <==> s.bufs[i].dev == ROOTDEV) && !s.bufs[i].For(a)
      ensures s.bufs[i].For(b) ==> i == j
      ensures s.bufs[i].refcnt != 0 ==> s.bufs[i].dev == ROOTDEV && s.g.Home(|s.disk|, s.bufs[i].blockno)
    {
      assert BootBuf(s.g, s.disk, bs, s.bufs[i]);
      assert BootBuf(s.g, s.disk, bs, s.bufs[j]);
    }
    LastOfAll(c.order, s.bufs, j);
  }

  /** A buffer in use is followed by buffers in use only, so if its count became 0 it would
      be the last free one. */
  lemma LastOfAll(order: seq<nat>, bufs: seq<Buf>, j: nat)
    requires Whole(order) && Sunk(order, bufs) && |bufs| == NBUF && j < NBUF && bufs[j].refcnt != 0
    ensures LastFree(order, bufs[j := bufs[j].(refcnt := 0)], j)
  {
    assert j in order;
    var k :| 0 <= k < |order| && order[k] == j;
    assert forall i :: k < i < |order| ==> order[i] != j;
  }

  function Other(b: Block): (r: Block) {
    b[0 := b[0] + 1]
  }

  /** c once process 0 has begun an operation and locked block b, and process 1 has asked
      for block a and been given the same buffer. */
  ghost function Stolen(c: Code, j: nat, b: nat, a: nat): (r: Code)
    requires j < |c.s.bufs| == |c.s.users|
  {
    Code(c.s.(bufs := c.s.bufs[j := Buf(false, ROOTDEV, a, 1, c.s.bufs[j].data, Held(0))],
              users := c.s.users[j := {0, 1}],
              adm := LA.Admission([], 1, false, LA.Booted().used[0 := 0], {0})),
         c.order, map[(0, j) := b, (1, j) := a])
  }

  lemma Steal(c: Code, f: Flat, j: nat, b: nat, a: nat) returns (xs: seq<Step>)
    requires Ripe(c, j, b, a)
    ensures Leads(c, f, xs, Stolen(c, j, b, a), f)
  {
    hide Leads, LastFree, Whole, HasFree;
    LeadStart(c, f);
    var x1, x2, x3, x4, x5 := Plain(BeginOp(0)), Plain(Lookup(0, b, j)), Plain(Lock(0, j)), Plain(TestLog(0)),
        Plain(Lookup(1, a, j));
    LeadStep(c, f, [], c, f, x1);
    var c1 := Take(c, x1);
    LeadStep(c, f, [] + [x1], c1, f, x2);
    var c2 := Take(c1, x2);
    LeadStep(c, f, [] + [x1] + [x2], c2, f, x3);
    var c3 := Take(c2, x3);
    LeadStep(c, f, [] + [x1] + [x2] + [x3], c3, f, x4);
    var c4 := Take(c3, x4);
    xs := [] + [x1] + [x2] + [x3] + [x4];
    var was := c.s.bufs[j];
    assert c4.s.bufs == c.s.bufs[j := was.(refcnt := 0, lock := Held(0))];
    SameLast(c.order, c.s.bufs, j, was.(refcnt := 0, lock := Held(0)));
    NotHad(c.s.bufs, a);
    LeadStep(c, f, xs, c4, f, x5);
    xs := xs + [x5];
    var c5, r := Take(c4, x5), Stolen(c, j, b, a);
    assert {} + {0} + {1} == {0, 1} && {} + {0} == {0};
    assert c5.s.bufs == r.s.bufs && c5.s.users == r.s.users && c5.s.adm == r.s.adm;
  }

  lemma SameLast(order: seq<nat>, bufs: seq<Buf>, j: nat, x: Buf)
    requires j < |bufs| && x.refcnt == 0 && LastFree(order, bufs[j := bufs[j].(refcnt := 0)], j)
    ensures LastFree(order, bufs[j := x], j)
  {
    var m := bufs[j := bufs[j].(refcnt := 0)];
    var k :| 0 <= k < |order| && order[k] == j && forall i :: k < i < |order| ==> order[i] < |m| && m[order[i]].refcnt != 0;
    assert forall i :: k < i < |order| ==> bufs[j := x][order[i]].refcnt == m[order[i]].refcnt;
  }

  /** Stolen(c) after process 0 has written to the buffer what it has for block b, logged it
      and released the buffer, and process 1 has read block a and released it too. */
  ghost function Lost(c: Code, j: nat, a: nat): (r: Code)
    requires j < |c.s.bufs| && a < |c.s.disk| && j in c.order
  {
    Code(c.s.(bufs := c.s.bufs[j := Buf(true, ROOTDEV, a, 0, c.s.disk[a], Free)],
              adm := LA.Admission([a], 1, false, LA.Booted().used[0 := 1], {})),
         ToFront(c.order, j), map[])
  }

  /** The flat store when block b of s has been updated. */
  function Given(s: Sys, b: nat): (f: Flat)
    requires b < |s.disk|
  {
    Flat(s.disk[b := Other(s.disk[b])], s.disk)
  }

  /** What process 0 writes is logged under block a's number, and overwritten when process
      1 fills the buffer. */
  lemma LoseUpdate(c: Code, j: nat, b: nat, a: nat) returns (xs: seq<Step>)
    requires Ripe(c, j, b, a)
    ensures j in c.order && Leads(c, Flat(c.s.disk, c.s.disk), xs, Lost(c, j, a), Given(c.s, b)) && Whole(Lost(c, j, a).order)
  {
    hide Leads, LastFree, HasFree, Whole;
    var f, f' := Flat(c.s.disk, c.s.disk), Given(c.s, b);
    xs := Steal(c, f, j, b, a);
    var m := Stolen(c, j, b, a);
    var x := Stray(0, j, b, Other(c.s.disk[b]));
    LeadStep(c, f, xs, m, f, x);
    var m1 := Take(m, x);
    xs := xs + [x];
    xs := Drop(c, f, xs, m1, f', 0, j);
    var m2 := Dropped(m1, 0, j);
    assert {0, 1} - {0} == {1};
    var y, z := Plain(Lock(1, j)), Plain(Fill(1, j));
    LeadStep(c, f, xs, m2, f', y);
    var m3 := Take(m2, y);
    LeadStep(c, f, xs + [y], m3, f', z);
    var m4 := Take(m3, z);
    xs := xs + [y] + [z];
    xs := Drop(c, f, xs, m4, f', 1, j);
    var r, t := Lost(c, j, a), Dropped(m4, 1, j);
    assert {1} - {1} == {} && {0} - {0} == {} && [] + [a] == [a];
    assert t.s.bufs == r.s.bufs && t.s.users == r.s.users && t.s.adm == r.s.adm && t.asked == r.asked;
  }

  lemma LostIsIdle(c: Code, j: nat, b: nat, a: nat)
    requires Ripe(c, j, b, a) && j in c.order
    ensures var t := Lost(c, j, a).s; Idle(t) && !Has(t.bufs, b) && HasFree(t.bufs) && Other(c.s.disk[b]) != c.s.disk[b]
  {
    var t := Lost(c, j, a).s;
    assert t.bufs[j].refcnt == 0;
    assert Other(c.s.disk[b])[0] != c.s.disk[b][0];
  }

  lemma IdleCanFetch(c: Code, p: nat, b: nat)
    requires Idle(c.s) && |c.s.bufs| == NBUF && Whole(c.order) && p < LA.NPROC && b < |c.s.disk| && MayAsk(c.s, p, b)
    requires Has(c.s.bufs, b) || HasFree(c.s.bufs)
    ensures CanFetch(c, p, b)
  {
    hide Has, HasFree, Whole, MayAsk;
  }

  /** After the lost update, reading block b gives what was on disk before it. */
  lemma StaleRead(c: Code, j: nat, b: nat, a: nat) returns (xs: seq<Step>)
    requires Ripe(c, j, b, a)
    ensures Goes(c, xs) && !SeesLast(c, xs)
  {
    hide Leads, LastFree, Whole, Has, HasFree;
    var f, f' := Flat(c.s.disk, c.s.disk), Given(c.s, b);
    xs := LoseUpdate(c, j, b, a);
    var m := Lost(c, j, a);
    LostIsIdle(c, j, b, a);
    IdleCanFetch(m, 1, b);
    var i, m';
    xs, i, m' := Fetch(c, f, xs, m, f', 1, b);
    NotHad(m.s.bufs, b);
    assert m'.s.Holds(1, i, b) && m'.s.bufs[i].data == c.s.disk[b];
    LeadsMeans(c, f, xs, m', f');
  }

  lemma LeadsMeans(c: Code, f: Flat, xs: seq<Step>, c': Code, f': Flat)
    requires Leads(c, f, xs, c', f')
    ensures Goes(c, xs) && Then(c, xs) == c' && MeantAfter(f, xs) == f'
  {
  }

  // ----- the same update, committed

  ghost predicate TwoFree(bufs: seq<Buf>) {
    exists i, j :: 0 <= i < j < |bufs| && bufs[i].refcnt == 0 && bufs[j].refcnt == 0
  }

  /** Process 0 is about to commit block a alone. */
  ghost predicate Committing(c: Code, a: nat) {
    && Idle(c.s) && |c.s.bufs| == NBUF && Whole(c.order) && TwoFree(c.s.bufs)
    && c.s.g.Fits(|c.s.disk|) && 2 <= c.s.g.size && c.s.g.Home(|c.s.disk|, a)
    && c.s.adm.lh == [a] && c.s.phase == WriteLog(0, 0)
    && forall i :: 0 <= i < NBUF && c.s.bufs[i].refcnt != 0 ==>
         c.s.g.Home(|c.s.disk|, c.s.bufs[i].blockno) && c.s.bufs[i].blockno != a
  }

  lemma LastEnds(c: Code, j: nat, b: nat, a: nat)
    requires Ripe(c, j, b, a) && j in c.order && Whole(Lost(c, j, a).order)
    ensures var m, x := Lost(c, j, a), Plain(EndOp(0));
            CanStep(m, x) && Committing(Take(m, x), a) && Take(m, x).s.disk == c.s.disk && Take(m, x).s.g == c.s.g
  {
    hide LastFree, Whole, ToFront;
    var m := Lost(c, j, a);
    LostIsIdle(c, j, b, a);
    NotHad(c.s.bufs, a);
    var k :| 0 <= k < NBUF && c.s.bufs[k].refcnt == 0;
    assert m.s.bufs[j].refcnt == 0 && m.s.bufs[k].refcnt == 0;
    assert j < k || k < j;
  }

  /** Once log block l has been read into buffer i, block a can be read as well. */
  lemma StillFetch(c: Code, a: nat, i: nat, c': Code, l: nat)
    requires Committing(c, a) && !c.s.g.Home(|c.s.disk|, l) && Fetched(c, c', 0, l, i)
    ensures CanFetch(c', 0, a)
  {
    hide LastFree, Whole;
    var h, k :| 0 <= h < k < |c.s.bufs| && c.s.bufs[h].refcnt == 0 && c.s.bufs[k].refcnt == 0;
    assert c'.s.bufs[if h == i then k else h].refcnt == 0;
  }

  /** m is c, which was idle, with buffers i and k locked by process 0. */
  ghost predicate BothLocked(c: Code, m: Code, i: nat, k: nat) {
    && Idle(c.s) && |c.s.bufs| == |m.s.bufs| == NBUF && i < NBUF && k < NBUF && i != k
    && m.s.bufs == c.s.bufs[i := m.s.bufs[i]][k := m.s.bufs[k]] && m.s.users == c.s.users[i := {0}][k := {0}]
    && (forall h :: h == i || h == k ==>
          m.s.bufs[h].valid && m.s.bufs[h].dev == ROOTDEV && m.s.bufs[h].lock == Held(0) && m.s.bufs[h].refcnt == 1)
    && m.order == c.order
  }

  lemma BothRead(c: Code, a: nat, i: nat, c1: Code, k: nat, c2: Code, l: nat)
    requires Committing(c, a) && !c.s.g.Home(|c.s.disk|, l) && Fetched(c, c1, 0, l, i) && Fetched(c1, c2, 0, a, k)
    ensures BothLocked(c, c2, i, k) && c2.s.Holds(0, i, l) && c2.s.Holds(0, k, a)
    ensures c2.s == c.s.(bufs := c2.s.bufs, users := c2.s.users)
  {
    hide Whole, HasFree;
    assert c.s.bufs[i].refcnt == 0 && c1.s.bufs[i].refcnt == 1 && c1.s.bufs[i].For(l);
    assert {} + {0} == {0};
  }

  lemma CopyPaired(c: Code, m: Code, a: nat, i: nat, k: nat)
    requires Committing(c, a) && BothLocked(c, m, i, k) && m.s == c.s.(bufs := m.s.bufs, users := m.s.users)
    requires m.s.Holds(0, i, c.s.g.start + 1) && m.s.Holds(0, k, a)
    ensures var x := Plain(CopyToLog(0, i, k));
            && CanStep(m, x) && BothLocked(c, Take(m, x), i, k)
            && var t := Take(m, x).s;
               t.g == c.s.g && t.adm == c.s.adm && t.phase == WriteLog(0, 1)
               && t.disk == c.s.disk[c.s.g.start + 1 := m.s.bufs[k].data]
  {
    hide Whole, Idle, TwoFree;
  }

  lemma DropBoth(c0: Code, f0: Flat, xs: seq<Step>, c: Code, m: Code, f: Flat, i: nat, k: nat)
    returns (xs': seq<Step>, c': Code)
    requires Leads(c0, f0, xs, m, f) && Whole(m.order) && BothLocked(c, m, i, k)
    ensures Leads(c0, f0, xs', c', f) && c'.s == m.s.(bufs := c'.s.bufs, users := c'.s.users)
    ensures Idle(c'.s) && |c'.s.bufs| == NBUF && Whole(c'.order) && HasFree(c'.s.bufs)
  {
    hide Leads, Whole;
    xs' := Drop(c0, f0, xs, m, f, 0, k);
    var m' := Dropped(m, 0, k);
    xs' := Drop(c0, f0, xs', m', f, 0, i);
    c' := Dropped(m', 0, i);
    assert {0} - {0} == {};
    assert c'.s.bufs[i].refcnt == 0;
  }

  /** The turn of write_log for block a. */
  lemma CopyTurn(c0: Code, f0: Flat, xs: seq<Step>, c: Code, f: Flat, a: nat) returns (xs': seq<Step>, c': Code)
    requires Leads(c0, f0, xs, c, f) && Committing(c, a)
    ensures Leads(c0, f0, xs', c', f)
    ensures Idle(c'.s) && |c'.s.bufs| == NBUF && Whole(c'.order) && HasFree(c'.s.bufs)
    ensures c'.s.g == c.s.g && c'.s.adm == c.s.adm && c'.s.phase == WriteLog(0, 1)
    ensures |c'.s.disk| == |c.s.disk| && c'.s.disk == c.s.disk[c.s.g.start + 1 := c'.s.disk[c.s.g.start + 1]]
  {
    hide Leads, Whole, HasFree, Has, CanFetch, TwoFree, Fetched, BothLocked, CanStep, Take;
    var l := c.s.g.start + 1;
    TwoAreSome(c.s.bufs);
    IdleCanFetch(c, 0, l);
    var i, k, c1, c2;
    xs', i, c1 := Fetch(c0, f0, xs, c, f, 0, l);
    StillFetch(c, a, i, c1, l);
    xs', k, c2 := Fetch(c0, f0, xs', c1, f, 0, a);
    BothRead(c, a, i, c1, k, c2, l);
    CopyPaired(c, c2, a, i, k);
    var x := Plain(CopyToLog(0, i, k));
    LeadStep(c0, f0, xs', c2, f, x);
    SameOrder(c, Take(c2, x), i, k);
    xs', c' := DropBoth(c0, f0, xs' + [x], c, Take(c2, x), f, i, k);
  }

  lemma SameOrder(c: Code, m: Code, i: nat, k: nat)
    requires BothLocked(c, m, i, k)
    ensures m.order == c.order
  {
  }

  lemma TwoAreSome(bufs: seq<Buf>)
    requires TwoFree(bufs)
    ensures HasFree(bufs)
  {
  }

  /** The commit up to the header write. */
  lemma CommitOther(c0: Code, f0: Flat, xs: seq<Step>, c: Code, f: Flat, a: nat) returns (xs': seq<Step>, c': Code)
    requires Leads(c0, f0, xs, c, f) && Committing(c, a)
    ensures Leads(c0, f0, xs', c', f.(committed := f.current))
    ensures |c'.s.disk| == |c.s.disk| && HeaderBlocks(c'.s.disk[c.s.g.start]) == [a] && c'.s.disk[c.s.g.start][0] == 1
    ensures forall b: nat :: c.s.g.Home(|c.s.disk|, b) ==> c'.s.disk[b] == c.s.disk[b]
  {
    hide Leads, Whole, HasFree, Has;
    var m, h, m';
    xs', m := CopyTurn(c0, f0, xs, c, f, a);
    IdleCanFetch(m, 0, c.s.g.start);
    xs', h, m' := Fetch(c0, f0, xs', m, f, 0, c.s.g.start);
    var x := Plain(WriteHead(0, h));
    HeaderRoundTrip(m'.s.bufs[h].data, [a]);
    LeadStep(c0, f0, xs', m', f, x);
    xs', c' := xs' + [x], Take(m', x);
  }

  lemma NotRestored(s: Sys, b: nat, a: nat, d: Image)
    requires s.g.Fits(|s.disk|) && s.g.Home(|s.disk|, b) && 2 <= s.g.size && a != b && |d| == |s.disk|
    requires HeaderBlocks(d[s.g.start]) == [a] && d[s.g.start][0] == 1 && d[b] == s.disk[b]
    ensures !Restores(s.g, d, Given(s, b).current, [])
  {
    hide HeaderBlocks;
    if ValidImage(s.g, d) {
      RecoveryCompletes(s.g, d);
      assert Slot([a], b) == 1;
      assert Logical(s.g, d, b) == s.disk[b];
      assert BootLoop(s.g, d, []) == d;
      assert Recovered(s.g, d)[b] == s.disk[b];
      assert Other(s.disk[b])[0] != s.disk[b][0];
    }
  }

  lemma StaleCrash(c: Code, j: nat, b: nat, a: nat) returns (xs: seq<Step>)
    requires Ripe(c, j, b, a)
    ensures Goes(c, xs) && !CrashSafe(c, xs, [])
  {
    hide Leads, LastFree, Whole, HasFree, Has, Committing, CanStep, Take;
    var f, f' := Flat(c.s.disk, c.s.disk), Given(c.s, b);
    xs := LoseUpdate(c, j, b, a);
    var m := Lost(c, j, a);
    var x := Plain(EndOp(0));
    LastEnds(c, j, b, a);
    LeadStep(c, f, xs, m, f', x);
    var m' := Take(m, x);
    var t;
    xs, t := CommitOther(c, f, xs + [x], m', f', a);
    NotRestored(c.s, b, a, t.s.disk);
    LeadsMeans(c, f, xs, t, f'.(committed := f'.current));
  }

  // ----- exactly when the recovery has done harm

  /** The disks that the two theorems below are about: all but those that have from
      NBUF / 2 to NBUF - 1 home blocks, every one of them installed. */
  ghost predicate Covered(s: Sys, bs: seq<nat>) {
    Spare(s, bs) || 2 * |bs| < NBUF
  }

  /** After a reboot, reads see the last write over every run of the code exactly when the
      recovery had nothing to install, or installed all home blocks there are. */
  lemma ReadsAfterRebootIff(c: Code, bs: seq<nat>)
    requires BackUp(c, bs) && Covered(c.s, bs)
    ensures (forall xs :: Goes(c, xs) ==> SeesLast(c, xs)) <==> bs == [] || !Spare(c.s, bs)
  {
    hide BackUp, Ripe, SeesLast, CrashSafe, Spare;
    if bs == [] || !Spare(c.s, bs) {
      forall xs | Goes(c, xs)
        ensures SeesLast(c, xs)
      {
        Unharmed(c, bs, xs, []);
      }
    } else {
      var j, b, a := FindRipe(c, bs);
      var xs := StaleRead(c, j, b, a);
    }
  }

  lemma Unharmed(c: Code, bs: seq<nat>, xs: seq<Step>, cuts: seq<nat>)
    requires BackUp(c, bs) && Covered(c.s, bs) && (bs == [] || !Spare(c.s, bs)) && Goes(c, xs)
    ensures SeesLast(c, xs) && CrashSafe(c, xs, cuts)
  {
    hide BootCache, SeesLast, CrashSafe, Spare;
    if bs == [] {
      CleanBootStartsMachine(c.s);
      RightCounts(c, xs, cuts);
    } else {
      FewBlocksAreSafe(c, bs, xs, cuts);
    }
  }

  /** And crashes are atomic over every run of the code in exactly the same cases: the lost
      update can also be committed, as an update of the other block. */
  lemma CrashAfterRebootIff(c: Code, bs: seq<nat>)
    requires BackUp(c, bs) && Covered(c.s, bs)
    ensures (forall xs, cuts :: Goes(c, xs) ==> CrashSafe(c, xs, cuts)) <==> bs == [] || !Spare(c.s, bs)
  {
    hide BackUp, Ripe, SeesLast, CrashSafe, Spare;
    if bs == [] || !Spare(c.s, bs) {
      forall xs, cuts | Goes(c, xs)
        ensures CrashSafe(c, xs, cuts)
      {
        Unharmed(c, bs, xs, cuts);
      }
    } else {
      var j, b, a := FindRipe(c, bs);
      var xs := StaleCrash(c, j, b, a);
    }
  }

  /** A disk with NBUF home blocks has one that was not installed. */
  lemma ManyBlocksCovered(c: Code, bs: seq<nat>)
    requires BackUp(c, bs) && |c.s.disk| >= c.s.g.size + NBUF
    ensures Spare(c.s, bs)
  {
    var g, n := c.s.g, |c.s.disk|;
    var homes := seq(NBUF, (k: nat) => if k < g.start then k else k + g.size);
    if !Spare(c.s, bs) {
      forall k | 0 <= k < NBUF
        ensures homes[k] in bs
      {
        assert g.Home(n, homes[k]);
      }
      Pigeons(homes, bs);
    }
  }
}
