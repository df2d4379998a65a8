/** recover_from_log at boot.  The images it writes are those of RedoLog.CutRecovery,
    and the reference counts it leaves are not those it found: install_trans drops a
    pin that only a commit takes. */
module Recovery {
  import opened Common
  import opened RedoLog
  import opened LruList
  import opened BlockMachine
  import opened BlockLayer
  import LA = LogAdmission

  /** Buffers in use. */
  ghost function Busy(buf: seq<Buf>): set<nat> {
    set i: nat | i < |buf| && buf[i].refcnt != 0
  }

  lemma {:induction false} FullRange(s: set<nat>, n: nat)
    requires forall i: nat :: i < n ==> i in s
    ensures |s| >= n
  {
    if n > 0 {
      FullRange(s - {n - 1}, n - 1);
    }
  }

  lemma FreeBuffer(buf: seq<Buf>)
    requires |buf| == NBUF
    ensures HasFree(buf) <==> |Busy(buf)| < NBUF
  {
    SmallSet(Busy(buf), NBUF);
    if HasFree(buf) {
      var i :| 0 <= i < NBUF && buf[i].refcnt == 0;
      FullWithout(Busy(buf), i);
    } else {
      FullRange(Busy(buf), NBUF);
    }
  }

  lemma FullWithout(s: set<nat>, i: nat)
    requires i < NBUF && i !in s && forall x <- s :: x < NBUF
    ensures |s| < NBUF
  {
    SmallSet(s + {i}, NBUF);
  }

  /** The count of a buffer once the blocks `done` have been installed at boot. */
  function BootCount(b: Buf, done: seq<nat>): nat {
    if b.dev == ROOTDEV && b.blockno in done then UINT_MOD - 1 else 0
  }

  ghost predicate BootBuf(g: Geometry, disk: Image, done: seq<nat>, b: Buf) {
    && b.lock.Free? && b.refcnt == BootCount(b, done)
    && (b.dev == 0 || b.dev == ROOTDEV)
    && (b.valid <==> b.dev == ROOTDEV)
    && (b.valid ==>
          && b.blockno < |disk| && b.data == disk[b.blockno]
          && (b.blockno in done || g.start <= b.blockno <= g.start + |done|))
  }

  ghost predicate BootCache(g: Geometry, disk: Image, done: seq<nat>, buf: seq<Buf>) {
    && |buf| == NBUF
    && (forall i :: 0 <= i < NBUF ==> BootBuf(g, disk, done, buf[i]))
    && (forall i, j :: 0 <= i < j < NBUF && buf[i].dev == ROOTDEV && buf[j].dev == ROOTDEV
          ==> buf[i].blockno != buf[j].blockno)
    && |Busy(buf)| == |done|
  }

  /** Recovery takes buffers from the end of the list; brelse moves those of the log to the
      front and does not move those of the installed blocks, their counts not being 0. */
  function Rank(b: Buf): (r: nat) { if b.refcnt != 0 then 2 else if b.dev == 0 then 1 else 0 }

  /** Free buffers that have been used come first in the order of use, then those that have
      not, then those in use. */
  ghost predicate Sunk(order: seq<nat>, bufs: seq<Buf>) {
    && (forall x :: 0 <= x < |order| ==> order[x] < |bufs|)
    && forall x, y :: 0 <= x < y < |order| ==> Rank(bufs[order[x]]) <= Rank(bufs[order[y]])
  }

  ghost function Used(buf: seq<Buf>): set<nat> {
    set i: nat | i < |buf| && buf[i].dev != 0
  }

  /** While the buffers last, every block that recovery reads stays cached. */
  ghost predicate Retained(g: Geometry, done: seq<nat>, buf: seq<Buf>) {
    2 * |done| < NBUF ==>
      && |Used(buf)| == 2 * |done| + 1
      && forall b: nat :: g.start <= b <= g.start + |done| || b in done ==> Has(buf, b)
  }

  ghost predicate NoUsers(users: seq<set<nat>>) {
    |users| == NBUF && forall i :: 0 <= i < NBUF ==> users[i] == {}
  }

  /** A buffer that installing block b from the next log block leaves alone. */
  lemma OtherBuf(g: Geometry, disk: Image, done: seq<nat>, b: nat, data: Block, x: Buf)
    requires BootBuf(g, disk, done, x) && g.Home(|disk|, b) && b !in done
    requires !x.For(b)
    ensures BootBuf(g, disk[b := data], done + [b], x)
  {
  }

  /** Blocks that the next turn reads are not cached yet. */
  lemma NotYetRead(g: Geometry, disk: Image, done: seq<nat>, b: nat, x: Buf)
    requires BootBuf(g, disk, done, x) && g.Home(|disk|, b) && b !in done && |done| + 1 < g.size
    requires forall k :: 0 <= k < |done| ==> g.Home(|disk|, done[k])
    ensures !x.For(b) && !x.For(g.start + 1 + |done|)
  {
    assert x.For(g.start + 1 + |done|) ==> x.blockno in done;
  }

  lemma InstalledOne(g: Geometry, disk: Image, done: seq<nat>, buf: seq<Buf>, l: nat, d: nat, b: nat,
                     disk': Image, buf': seq<Buf>)
    requires BootCache(g, disk, done, buf) && l < NBUF && d < NBUF && l != d
    requires buf[l].refcnt == 0 && buf[d].refcnt == 0
    requires g.Fits(|disk|) && |done| + 1 < g.size && g.Home(|disk|, b) && b !in done
    requires forall k :: 0 <= k < |done| ==> g.Home(|disk|, done[k])
    requires var a := g.start + 1 + |done|;
             && disk' == disk[b := disk[a]]
             && buf' == buf[l := Buf(true, ROOTDEV, a, 0, disk[a], Free)]
                           [d := Buf(true, ROOTDEV, b, UINT_MOD - 1, disk[a], Free)]
    ensures BootCache(g, disk', done + [b], buf')
  {
    hide BootBuf;
    var a := g.start + 1 + |done|;
    var done' := done + [b];
    BusyAfter(buf, l, d, buf');
    forall i | 0 <= i < NBUF && i != l && i != d
      ensures BootBuf(g, disk', done', buf'[i]) && !buf'[i].For(a) && !buf'[i].For(b)
    {
      NotYetRead(g, disk, done, b, buf[i]);
      OtherBuf(g, disk, done, b, disk[a], buf[i]);
    }
    TurnBufs(g, disk', done, b);
  }

  lemma TurnBufs(g: Geometry, disk: Image, done: seq<nat>, b: nat)
    requires g.Fits(|disk|) && |done| + 1 < g.size && g.Home(|disk|, b)
    requires forall k :: 0 <= k < |done| ==> g.Home(|disk|, done[k])
    requires disk[b] == disk[g.start + 1 + |done|]
    ensures var a := g.start + 1 + |done|;
            && BootBuf(g, disk, done + [b], Buf(true, ROOTDEV, a, 0, disk[a], Free))
            && BootBuf(g, disk, done + [b], Buf(true, ROOTDEV, b, UINT_MOD - 1, disk[b], Free))
  {
  }

  lemma BusyAfter(buf: seq<Buf>, l: nat, d: nat, buf': seq<Buf>)
    requires |buf| == |buf'| == NBUF && l < NBUF && d < NBUF && l != d
    requires buf[l].refcnt == 0 && buf[d].refcnt == 0 && buf'[l].refcnt == 0 && buf'[d].refcnt != 0
    requires forall i :: 0 <= i < NBUF && i != l && i != d ==> buf'[i] == buf[i]
    ensures |Busy(buf')| == |Busy(buf)| + 1
  {
    assert Busy(buf') == Busy(buf) + {d};
  }

  ghost predicate BootReady(st: BlockStore, p: nat, tail: nat)
    reads st
  {
    && st.ListOk() && p < LA.NPROC && tail < st.n && st.g.Fits(|st.disk|)
    && Loggable(st.g, |st.disk|, st.block[..st.n])
    && NoUsers(st.users) && BootCache(st.g, st.disk, st.block[..tail], st.buf)
  }

  lemma TurnMisses(st: BlockStore, p: nat, tail: nat)
    requires BootReady(st, p, tail)
    ensures !Has(st.buf, st.block[tail]) && !Has(st.buf, st.g.start + 1 + tail)
    ensures st.block[tail] !in st.block[..tail] && st.g.Home(|st.disk|, st.block[tail])
    ensures forall k :: 0 <= k < tail ==> st.g.Home(|st.disk|, st.block[k])
  {
    var bs := st.block[..st.n];
    assert st.block[..tail] == bs[..tail] && bs[tail] == st.block[tail];
    assert forall k :: 0 <= k < st.n ==> bs[k] == st.block[k];
    forall i | 0 <= i < NBUF
      ensures !st.buf[i].For(st.block[tail]) && !st.buf[i].For(st.g.start + 1 + tail)
    {
      NotYetRead(st.g, st.disk, st.block[..tail], st.block[tail], st.buf[i]);
    }
  }

  /** Free buffers are unlocked and unused. */
  ghost predicate FreeOnesIdle(st: BlockStore)
    reads st
  {
    |st.buf| == |st.users| && forall i :: 0 <= i < |st.buf| && st.buf[i].refcnt == 0 ==>
      st.buf[i].lock.Free? && st.users[i] == {}
  }

  /** bread of a block that is not cached. */
  method BootRead(st: BlockStore, p: nat, b: nat) returns (i: nat, ok: bool)
    requires st.ListOk() && p < LA.NPROC && b < |st.disk| && !Has(st.buf, b) && FreeOnesIdle(st)
    modifies st`buf, st`users
    ensures st.ListOk() && FreeOnesIdle(st)
    ensures ok <==> |Busy(old(st.buf))| < NBUF
    ensures ok ==>
              && i < NBUF && old(st.buf)[i].refcnt == 0
              && st.buf == old(st.buf)[i := Buf(true, ROOTDEV, b, 1, st.disk[b], Held(p))]
              && st.users == old(st.users)[i := {p}]
              && |Busy(st.buf)| == |Busy(old(st.buf))| + 1
              && LastFree(st.order, old(st.buf), i)
  {
    hide Path, Linked, LastFree;
    FreeBuffer(st.buf);
    assert st.MayLookup(p, b);
    ghost var es;
    var r;
    i, r, es := st.Bread(p, b);
    ok := r.Locked?;
    if ok {
      assert st.buf[i] == Buf(true, ROOTDEV, b, 1, st.disk[b], Held(p));
      assert Busy(st.buf) == Busy(old(st.buf)) + {i};
    }
  }

  /** The two bread calls of a turn of install_trans at boot. */
  method ReadTurn(st: BlockStore, p: nat, tail: nat) returns (l: nat, d: nat, ok: bool)
    requires BootReady(st, p, tail)
    modifies st`buf, st`users
    ensures st.ListOk()
    ensures ok <==> tail + 1 < NBUF
    ensures ok ==>
              var a, b := st.g.start + 1 + tail, st.block[tail];
              && l < NBUF && d < NBUF && l != d
              && old(st.buf)[l].refcnt == 0 && old(st.buf)[d].refcnt == 0
              && st.buf == old(st.buf)[l := Buf(true, ROOTDEV, a, 1, st.disk[a], Held(p))]
                                      [d := Buf(true, ROOTDEV, b, 1, st.disk[b], Held(p))]
              && st.users == old(st.users)[l := {p}][d := {p}]
              && LastFree(st.order, old(st.buf), l)
              && LastFree(st.order, old(st.buf)[l := Buf(true, ROOTDEV, a, 1, st.disk[a], Held(p))], d)
  {
    hide Linked, LastFree;
    d := 0;
    TurnMisses(st, p, tail);
    assert forall i :: 0 <= i < NBUF ==> BootBuf(st.g, st.disk, st.block[..tail], st.buf[i]);
    l, ok := BootRead(st, p, st.g.start + 1 + tail);
    d, ok := BootRead(st, p, st.block[tail]);
  }

  /** The copy and the two releases of a turn. */
  method FinishTurn(st: BlockStore, p: nat, l: nat, d: nat)
    requires st.ListOk() && l < NBUF && d < NBUF && l != d && st.users[l] == {p} && st.users[d] == {p}
    requires st.buf[l].lock == Held(p) && st.buf[d].lock == Held(p)
    requires st.buf[l].refcnt == 1 && st.buf[d].refcnt == 1 && st.buf[d].blockno < |st.disk|
    modifies st`buf, st`users, st`next, st`prev, st`order, st`disk
    ensures st.ListOk()
    ensures st.disk == old(st.disk)[old(st.buf)[d].blockno := old(st.buf)[l].data]
    ensures st.buf == old(st.buf)[l := old(st.buf)[l].(refcnt := 0, lock := Free)]
                                 [d := old(st.buf)[d].(refcnt := UINT_MOD - 1, lock := Free, data := old(st.buf)[l].data)]
    ensures st.users == old(st.users)[l := {}][d := {}]
    ensures l in old(st.order) && st.order == ToFront(old(st.order), l)
  {
    hide Path, Linked, ToFront;
    st.CopyHome(p, l, d);
    var ok := st.Brelse(p, l);
    ok := st.Brelse(p, d);
    assert {p} - {p} == {};
  }

  /** One turn of install_trans's loop at boot: no pin was taken, so the home block's
      buffer is left with a count of -1. */
  method RecoverOne(st: BlockStore, p: nat, tail: nat) returns (ok: bool)
    requires BootReady(st, p, tail) && Sunk(st.order, st.buf) && Retained(st.g, st.block[..tail], st.buf)
    modifies st`buf, st`users, st`next, st`prev, st`order, st`disk
    ensures st.ListOk()
    ensures ok <==> tail + 1 < NBUF
    ensures ok ==> st.disk == old(st.disk)[st.block[tail] := old(st.disk)[st.g.start + 1 + tail]]
    ensures ok ==> NoUsers(st.users) && BootCache(st.g, st.disk, st.block[..tail + 1], st.buf)
    ensures ok ==> Sunk(st.order, st.buf) && Retained(st.g, st.block[..tail + 1], st.buf)
  {
    hide BootBuf, Linked, LastFree, Sunk, ToFront, Retained, Used, Has;
    TurnMisses(st, p, tail);
    var l, d;
    l, d, ok := ReadTurn(st, p, tail);
    if !ok { return; }
    ghost var m := old(st.buf)[l := st.buf[l]];
    OrderDistinct(st);
    UnusedCounts(st.g, old(st.disk), st.block[..tail], old(st.buf));
    if 2 * tail + 2 < NBUF {
      RetainedUsed(st.g, st.block[..tail], old(st.buf));
      TurnTakesUnused(st.order, old(st.buf), l, m, d);
    }
    FinishTurn(st, p, l, d);
    SunkAfterTurn(old(st.order), old(st.buf), l, m, d, st.buf);
    assert st.block[..tail] + [st.block[tail]] == st.block[..tail + 1];
    RetainedAfterTurn(st.g, st.block[..tail], old(st.buf), l, d, st.block[tail], st.buf);
    InstalledOne(st.g, old(st.disk), st.block[..tail], old(st.buf), l, d, st.block[tail], st.disk, st.buf);
  }

  lemma OrderDistinct(st: BlockStore)
    requires st.ListOk()
    ensures Distinct(st.order) && forall j :: 0 <= j < NBUF ==> j in st.order
  {
  }

  lemma UnusedCounts(g: Geometry, disk: Image, done: seq<nat>, buf: seq<Buf>)
    requires BootCache(g, disk, done, buf)
    ensures forall j :: 0 <= j < NBUF && buf[j].dev == 0 ==> buf[j].refcnt == 0
  {
    forall j | 0 <= j < NBUF && buf[j].dev == 0
      ensures buf[j].refcnt == 0
    {
      assert BootBuf(g, disk, done, buf[j]);
    }
  }

  lemma RetainedUsed(g: Geometry, done: seq<nat>, buf: seq<Buf>)
    requires Retained(g, done, buf)
    ensures 2 * |done| < NBUF ==> |Used(buf)| == 2 * |done| + 1
  {
  }

  /** Where the element at place x > 0 was before the one at h was moved to the front. */
  function Before(h: nat, x: nat): (k: int) { if x - 1 < h then x - 1 else x }

  lemma FrontPlaces(order: seq<nat>, h: nat)
    requires h < |order| && Distinct(order)
    ensures var order' := ToFront(order, order[h]);
            && |order'| == |order| && order'[0] == order[h]
            && forall x :: 0 < x < |order| ==> order'[x] == order[Before(h, x)]
  {
    ToFrontAt(order, h);
  }

  /** Moving a free buffer to the front leaves the others in their order. */
  lemma SunkAfterUse(order: seq<nat>, bufs: seq<Buf>, h: nat)
    requires Distinct(order) && h < |order| && forall x :: 0 <= x < |order| ==> order[x] < |bufs|
    requires Rank(bufs[order[h]]) == 0
    requires forall x, y :: 0 <= x < y < |order| && x != h && y != h ==> Rank(bufs[order[x]]) <= Rank(bufs[order[y]])
    ensures Sunk(ToFront(order, order[h]), bufs)
  {
    FrontPlaces(order, h);
    hide ToFront, Distinct, Rank;
    var order' := ToFront(order, order[h]);
    forall x, y | 0 <= x < y < |order'|
      ensures Rank(bufs[order'[x]]) <= Rank(bufs[order'[y]])
    {
      var y' := Before(h, y);
      assert order'[y] == order[y'];
      if x > 0 {
        assert order'[x] == order[Before(h, x)];
      }
    }
  }

  /** A turn takes the last two free buffers, l for the log block and d for the home block;
      l goes to the front, and d stays where it is with a count other than 0. */
  lemma SunkAfterTurn(order: seq<nat>, bufs: seq<Buf>, l: nat, m: seq<Buf>, d: nat, bufs': seq<Buf>)
    requires Sunk(order, bufs) && Distinct(order) && l in order && l != d && |m| == |bufs'| == |bufs|
    requires l < |bufs| && m == bufs[l := m[l]] && LastFree(order, m, d)
    requires d < |bufs| && Rank(bufs'[l]) == 0 && Rank(bufs'[d]) == 2
    requires forall i :: 0 <= i < |bufs| && i != l && i != d ==> bufs'[i] == bufs[i]
    ensures Sunk(ToFront(order, l), bufs')
  {
    var h :| 0 <= h < |order| && order[h] == l;
    var k :| 0 <= k < |order| && order[k] == d && forall j :: k < j < |order| ==> order[j] < |m| && m[order[j]].refcnt != 0;
    forall x, y | 0 <= x < y < |order| && x != h && y != h
      ensures Rank(bufs'[order[x]]) <= Rank(bufs'[order[y]])
    {
      assert order[x] != l && order[y] != l;
      if order[x] == d {
        assert x == k;
        assert m[order[y]].refcnt != 0;
      }
    }
    SunkAfterUse(order, bufs', h);
  }

  lemma SunkAfterRead(order: seq<nat>, bufs: seq<Buf>, i: nat, bufs': seq<Buf>)
    requires Sunk(order, bufs) && Distinct(order) && i in order && |bufs'| == |bufs|
    requires i < |bufs| && Rank(bufs'[i]) == 0
    requires forall j :: 0 <= j < |bufs| && j != i ==> bufs'[j] == bufs[j]
    ensures Sunk(ToFront(order, i), bufs')
  {
    var h :| 0 <= h < |order| && order[h] == i;
    assert forall x :: 0 <= x < |order| && x != h ==> order[x] != i;
    SunkAfterUse(order, bufs', h);
  }

  /** The last free buffer has not been used, as long as there is such a one. */
  lemma UnusedFirst(order: seq<nat>, bufs: seq<Buf>, i: nat)
    requires Sunk(order, bufs) && LastFree(order, bufs, i) && |bufs| == NBUF && (forall j :: 0 <= j < NBUF ==> j in order)
    requires |Used(bufs)| < NBUF && forall j :: 0 <= j < NBUF && bufs[j].dev == 0 ==> bufs[j].refcnt == 0
    ensures bufs[i].dev == 0
  {
    if bufs[i].dev != 0 {
      var k :| 0 <= k < |order| && order[k] == i
               && forall j :: k < j < |order| ==> order[j] < |bufs| && bufs[order[j]].refcnt != 0;
      forall j: nat | j < NBUF
        ensures j in Used(bufs)
      {
        assert j in order;
        var x :| 0 <= x < |order| && order[x] == j;
        assert x < k ==> Rank(bufs[order[x]]) <= Rank(bufs[order[k]]);
      }
      FullRange(Used(bufs), NBUF);
    }
  }

  /** The two buffers that a turn takes have not been used, while there are two such. */
  lemma TurnTakesUnused(order: seq<nat>, bufs: seq<Buf>, l: nat, m: seq<Buf>, d: nat)
    requires Sunk(order, bufs) && Distinct(order) && |bufs| == |m| == NBUF && (forall j :: 0 <= j < NBUF ==> j in order)
    requires LastFree(order, bufs, l) && m == bufs[l := m[l]] && m[l].refcnt != 0 && m[l].dev != 0 && LastFree(order, m, d)
    requires |Used(bufs)| + 1 < NBUF && forall j :: 0 <= j < NBUF && bufs[j].dev == 0 ==> bufs[j].refcnt == 0
    ensures bufs[l].dev == 0 && bufs[d].dev == 0
  {
    UnusedFirst(order, bufs, l);
    assert Used(m) == Used(bufs) + {l};
    SunkTaken(order, bufs, l, m);
    UnusedFirst(order, m, d);
  }

  lemma SunkTaken(order: seq<nat>, bufs: seq<Buf>, l: nat, m: seq<Buf>)
    requires Sunk(order, bufs) && Distinct(order) && LastFree(order, bufs, l)
    requires |m| == |bufs| && m == bufs[l := m[l]] && m[l].refcnt != 0
    ensures Sunk(order, m)
  {
    var k :| 0 <= k < |order| && order[k] == l
             && forall j :: k < j < |order| ==> order[j] < |bufs| && bufs[order[j]].refcnt != 0;
    forall x, y | 0 <= x < y < |order|
      ensures Rank(m[order[x]]) <= Rank(m[order[y]])
    {
      assert x != k ==> order[x] != l;
      assert y != k ==> order[y] != l;
      assert x == k ==> bufs[order[y]].refcnt != 0;
    }
  }

  lemma RetainedAfterTurn(g: Geometry, done: seq<nat>, buf: seq<Buf>, l: nat, d: nat, b: nat, buf': seq<Buf>)
    requires Retained(g, done, buf) && |buf| == |buf'| == NBUF && l < NBUF && d < NBUF && l != d
    requires 2 * |done| + 2 < NBUF ==> buf[l].dev == 0 && buf[d].dev == 0
    requires buf'[l].For(g.start + 1 + |done|) && buf'[d].For(b)
    requires forall i :: 0 <= i < NBUF && i != l && i != d ==> buf'[i] == buf[i]
    ensures Retained(g, done + [b], buf')
  {
    if 2 * |done| + 2 < NBUF {
      assert Used(buf') == Used(buf) + {l} + {d};
      assert buf'[l].For(g.start + 1 + |done|) && buf'[d].For(b);
      assert Has(buf', g.start + 1 + |done|) && Has(buf', b);
      hide Has, Used;
      forall x: nat | g.start <= x <= g.start + |done| || x in done
        ensures Has(buf', x)
      {
        StaysCached(buf, l, d, buf', x);
      }
    }
  }

  lemma StaysCached(buf: seq<Buf>, l: nat, d: nat, buf': seq<Buf>, b: nat)
    requires |buf| == |buf'| == NBUF && l < NBUF && d < NBUF && buf[l].dev == 0 && buf[d].dev == 0 && Has(buf, b)
    requires forall i :: 0 <= i < NBUF && i != l && i != d ==> buf'[i] == buf[i]
    ensures Has(buf', b)
  {
    var i :| 0 <= i < NBUF && buf[i].For(b);
    assert buf'[i].For(b);
  }

  /** The cache as binit leaves it. */
  ghost predicate Untouched(st: BlockStore)
    reads st
  {
    && st.ListOk() && NoUsers(st.users)
    && forall i :: 0 <= i < NBUF ==>
         st.buf[i].dev == 0 && !st.buf[i].valid && st.buf[i].refcnt == 0 && st.buf[i].lock.Free?
  }

  /** The loop of read_head. */
  method CopyList(lh: Block, n: nat, block0: seq<nat>) returns (block: seq<nat>)
    requires n <= |block0| < BLOCK_WORDS
    ensures |block| == |block0| && block[..n] == lh[1..1 + n]
  {
    block := block0;
    for i := 0 to n
      invariant |block| == |block0| && forall k :: 0 <= k < i ==> block[k] == lh[1 + k]
    {
      block := block[i := lh[1 + i]];
    }
  }

  /** read_head. */
  method ReadHead(st: BlockStore, p: nat)
    requires Untouched(st) && p < LA.NPROC && ValidImage(st.g, st.disk)
    modifies st`buf, st`users, st`next, st`prev, st`order, st`n, st`block
    ensures st.ListOk() && NoUsers(st.users)
    ensures st.block[..st.n] == HeaderBlocks(st.disk[st.g.start])
    ensures BootCache(st.g, st.disk, [], st.buf) && Sunk(st.order, st.buf) && Retained(st.g, [], st.buf)
  {
    hide Path, Linked, LastFree, Sunk, ToFront, BootCache, Busy, Retained;
    NoneBusy(st.buf);
    OrderDistinct(st);
    AllUnusedSunk(st);
    var b, ok := BootRead(st, p, st.g.start);
    var lh := st.buf[b].data;
    st.n := lh[0];
    st.block := CopyList(lh, st.n, st.block);
    ok := st.Brelse(p, b);
    HeaderCached(st.g, st.disk, old(st.buf), b, st.buf);
    SunkAfterRead(old(st.order), old(st.buf), b, st.buf);
  }

  lemma AllUnusedSunk(st: BlockStore)
    requires Untouched(st)
    ensures Sunk(st.order, st.buf)
  {
    assert forall x :: 0 <= x < |st.order| ==> st.order[x] < NBUF && Rank(st.buf[st.order[x]]) == 1;
  }

  lemma NoneBusy(buf: seq<Buf>)
    requires |buf| == NBUF && forall i :: 0 <= i < NBUF ==> buf[i].refcnt == 0
    ensures Busy(buf) == {}
  {
  }

  /** An untouched cache with the header block read into it. */
  lemma HeaderCached(g: Geometry, disk: Image, buf: seq<Buf>, b: nat, buf': seq<Buf>)
    requires |buf| == NBUF && b < NBUF && g.start < |disk|
    requires forall i :: 0 <= i < NBUF ==> buf[i].dev == 0 && !buf[i].valid && buf[i].refcnt == 0 && buf[i].lock.Free?
    requires buf' == buf[b := Buf(true, ROOTDEV, g.start, 0, disk[g.start], Free)]
    ensures BootCache(g, disk, [], buf') && Busy(buf') == {} && Retained(g, [], buf')
  {
    NoneBusy(buf');
    assert Used(buf') == {b};
    assert buf'[b].For(g.start);
  }

  /** The second write_head of recovery, which erases the log. */
  method EraseHead(st: BlockStore, p: nat, ghost done: seq<nat>)
    requires st.ListOk() && p < LA.NPROC && NoUsers(st.users) && st.n == 0 && |done| < NBUF
    requires st.g.Fits(|st.disk|) && BootCache(st.g, st.disk, done, st.buf)
    requires Sunk(st.order, st.buf) && Retained(st.g, done, st.buf)
    requires forall k :: 0 <= k < |done| ==> st.g.Home(|st.disk|, done[k])
    modifies st`buf, st`users, st`next, st`prev, st`order, st`disk
    ensures st.ListOk() && NoUsers(st.users) && st.disk == Cleared(st.g, old(st.disk))
    ensures BootCache(st.g, st.disk, done, st.buf) && Sunk(st.order, st.buf) && Retained(st.g, done, st.buf)
  {
    hide Path, Linked, BootBuf, LastFree, Sunk, ToFront, Retained;
    OrderDistinct(st);
    var b := ReadHeadAgain(st, p, done);
    var data := FillHeader(st.buf[b].data, st.n, st.block);
    st.buf := st.buf[b := st.buf[b].(data := data)];
    var ok := st.Bwrite(p, b);
    ok := st.Brelse(p, b);
    SunkAfterRead(old(st.order), old(st.buf), b, st.buf);
    RetainedAfterHead(st.g, done, old(st.buf), b, st.buf);
    Rewritten(st.g, old(st.disk), done, old(st.buf), b, st.disk, st.buf);
  }

  lemma RetainedAfterHead(g: Geometry, done: seq<nat>, buf: seq<Buf>, b: nat, buf': seq<Buf>)
    requires Retained(g, done, buf) && b < |buf| == |buf'| && buf' == buf[b := buf'[b]] && buf'[b].For(g.start)
    requires buf[b].For(g.start) || !Has(buf, g.start)
    ensures Retained(g, done, buf')
  {
    if 2 * |done| < NBUF {
      assert Used(buf') == Used(buf);
      forall x: nat
        ensures Has(buf, x) ==> Has(buf', x)
      {
        if Has(buf, x) {
          var i :| 0 <= i < |buf| && buf[i].For(x);
          assert buf'[i].For(x);
        }
      }
    }
  }

  /** bread of the header block, which may or may not still be cached. */
  method ReadHeadAgain(st: BlockStore, p: nat, ghost done: seq<nat>) returns (b: nat)
    requires st.ListOk() && p < LA.NPROC && NoUsers(st.users) && |done| < NBUF
    requires st.g.Fits(|st.disk|) && BootCache(st.g, st.disk, done, st.buf)
    requires forall k :: 0 <= k < |done| ==> st.g.Home(|st.disk|, done[k])
    modifies st`buf, st`users
    ensures st.ListOk() && b < NBUF && st.users == old(st.users)[b := {p}]
    ensures st.buf == old(st.buf)[b := Buf(true, ROOTDEV, st.g.start, 1, st.disk[st.g.start], Held(p))]
    ensures old(st.buf)[b].For(st.g.start)
            || (old(st.buf)[b].refcnt == 0 && forall i :: 0 <= i < NBUF ==> !old(st.buf)[i].For(st.g.start))
  {
    hide Path, Linked;
    FreeBuffer(st.buf);
    forall i | 0 <= i < NBUF
      ensures st.buf[i].lock.Free? && (st.buf[i].For(st.g.start) ==>
                st.buf[i].refcnt == 0 && st.buf[i].valid && st.buf[i].data == st.disk[st.g.start])
    {
      assert BootBuf(st.g, st.disk, done, st.buf[i]);
    }
    assert st.MayLookup(p, st.g.start);
    var r;
    ghost var es;
    b, r, es := st.Bread(p, st.g.start);
    assert {} + {p} == {p};
    assert st.buf[b] == Buf(true, ROOTDEV, st.g.start, 1, st.disk[st.g.start], Held(p));
  }

  lemma Rewritten(g: Geometry, disk: Image, done: seq<nat>, buf: seq<Buf>, b: nat, disk': Image, buf': seq<Buf>)
    requires g.Fits(|disk|) && BootCache(g, disk, done, buf) && b < NBUF && |buf'| == NBUF
    requires forall k :: 0 <= k < |done| ==> g.Home(|disk|, done[k])
    requires buf[b].For(g.start) || (buf[b].refcnt == 0 && forall i :: 0 <= i < NBUF ==> !buf[i].For(g.start))
    requires |disk'| == |disk| && disk' == disk[g.start := disk'[g.start]]
    requires buf' == buf[b := Buf(true, ROOTDEV, g.start, 0, disk'[g.start], Free)]
    ensures BootCache(g, disk', done, buf')
  {
    assert BootBuf(g, disk, done, buf[b]);
    assert Busy(buf') == Busy(buf);
    forall i | 0 <= i < NBUF
      ensures BootBuf(g, disk', done, buf'[i])
    {
      assert BootBuf(g, disk, done, buf[i]);
    }
  }

  /** install_trans at boot.  It gets through unless the transaction fills every buffer. */
  method InstallTransAtBoot(st: BlockStore, p: nat, ghost bs: seq<nat>) returns (ok: bool, ghost images: seq<Image>)
    requires st.ListOk() && p < LA.NPROC && NoUsers(st.users) && st.g.Fits(|st.disk|)
    requires bs == st.block[..st.n] && Loggable(st.g, |st.disk|, bs)
    requires BootCache(st.g, st.disk, [], st.buf) && Sunk(st.order, st.buf) && Retained(st.g, [], st.buf)
    modifies st`buf, st`users, st`next, st`prev, st`order, st`disk
    ensures st.ListOk()
    ensures ok <==> |bs| < NBUF
    ensures |images| <= |bs| + 1
    ensures forall k :: 0 <= k < |images| ==> images[k] == Installed(st.g, old(st.disk), bs, k)
    ensures ok ==> |images| == |bs| + 1 && st.disk == images[|bs|]
    ensures ok ==> NoUsers(st.users) && BootCache(st.g, st.disk, bs, st.buf)
    ensures ok ==> Sunk(st.order, st.buf) && Retained(st.g, bs, st.buf)
  {
    hide Path, Linked, BootCache, Installed, Sunk, Retained;
    InstalledStart(st.g, st.disk, bs);
    ok, images := true, [st.disk];
    var tail := 0;
    assert st.block[..0] == [];
    while tail < st.n
      invariant st.ListOk() && NoUsers(st.users) && tail <= st.n && tail < NBUF
      invariant st.disk == Installed(st.g, old(st.disk), bs, tail)
      invariant BootCache(st.g, st.disk, st.block[..tail], st.buf)
      invariant Sunk(st.order, st.buf) && Retained(st.g, st.block[..tail], st.buf)
      invariant |images| == tail + 1
      invariant forall k :: 0 <= k < |images| ==> images[k] == Installed(st.g, old(st.disk), bs, k)
    {
      assert bs[tail] == st.block[tail];
      InstalledStep(st.g, old(st.disk), bs, tail);
      ok := RecoverOne(st, p, tail);
      if !ok { return; }
      tail := tail + 1;
      images := images + [st.disk];
    }
  }

  /** recover_from_log at boot: when it gets through, the disk is the recovered image,
      `images` are the disk contents around each of its writes, and the buffers of the
      installed blocks are left with a wrapped reference count. */
  method RecoverFromLog(st: BlockStore, p: nat) returns (ok: bool, ghost images: seq<Image>)
    requires Untouched(st) && p < LA.NPROC && ValidImage(st.g, st.disk)
    modifies st`buf, st`users, st`next, st`prev, st`order, st`disk, st`n, st`block
    ensures ok <==> |HeaderBlocks(old(st.disk)[st.g.start])| < NBUF
    ensures forall k :: 0 <= k < |images| ==> images[k] == CutRecovery(st.g, old(st.disk), k)
    ensures ok ==> st.ListOk() && st.n == 0 && NoUsers(st.users)
    ensures ok ==> st.disk == Recovered(st.g, old(st.disk)) && images != [] && st.disk == images[|images| - 1]
    ensures ok ==> CountsAfterRecovery(st.buf, HeaderBlocks(old(st.disk)[st.g.start]))
    ensures ok ==> BootCache(st.g, st.disk, HeaderBlocks(old(st.disk)[st.g.start]), st.buf)
    ensures ok ==> Sunk(st.order, st.buf) && Retained(st.g, HeaderBlocks(old(st.disk)[st.g.start]), st.buf)
  {
    hide Path, Linked, BootCache, CountsAfterRecovery, Installed, Sunk, Retained;
    ghost var bs := HeaderBlocks(st.disk[st.g.start]);
    ReadHead(st, p);
    ok, images := InstallTransAtBoot(st, p, bs);
    if !ok { return; }
    st.n := 0;
    EraseHead(st, p, bs);
    images := images + [st.disk];
    Counts(st.g, st.disk, bs, st.buf);
  }

  /** As many buffers as there were installed blocks are left with a count of
      2^32 - 1, all others with 0. */
  ghost predicate CountsAfterRecovery(buf: seq<Buf>, bs: seq<nat>) {
    && |buf| == NBUF && |Busy(buf)| == |bs|
    && forall i :: 0 <= i < NBUF ==> buf[i].refcnt == BootCount(buf[i], bs)
  }

  lemma Counts(g: Geometry, disk: Image, bs: seq<nat>, buf: seq<Buf>)
    requires BootCache(g, disk, bs, buf)
    ensures CountsAfterRecovery(buf, bs)
  {
    forall i | 0 <= i < NBUF
      ensures buf[i].refcnt == BootCount(buf[i], bs)
    {
      assert BootBuf(g, disk, bs, buf[i]);
    }
  }

  /** Recovery leaves the reference counts balanced exactly when there was nothing to
      recover. */
  lemma RecoveryBalancedIff(buf: seq<Buf>, bs: seq<nat>)
    requires CountsAfterRecovery(buf, bs)
    ensures (forall i :: 0 <= i < NBUF ==> buf[i].refcnt == 0) <==> bs == []
  {
    if forall i :: 0 <= i < NBUF ==> buf[i].refcnt == 0 {
      assert Busy(buf) == {};
    }
  }

  /** After a recovery that had nothing to do, the machine's invariant holds, so all its
      theorems apply from there. */
  lemma CleanBootStartsMachine(s: Sys)
    requires BootCache(s.g, s.disk, [], s.bufs) && NoUsers(s.users)
    requires s.g.Fits(|s.disk|) && SafeSize(s.g.size) && s.disk[s.g.start][0] == 0
    requires s.adm == LA.Booted() && s.phase.Idle?
    ensures Inv(s, Flat(s.disk, s.disk))
  {
    LA.BootedInv();
    forall i | 0 <= i < NBUF
      ensures BufOk(|s.disk|, Pinned(s), s.bufs[i], s.users[i])
           && DataOk(s.g, s.disk, s.disk, s.bufs[i])
    {
      assert BootBuf(s.g, s.disk, [], s.bufs[i]);
    }
  }
}
