/** The doubly linked list that orders the buffers by use: a ring through a head.
    Buffers are numbered, and number NBUF is bcache.head. */
module LruList {
  import opened RedoLog

  const HEAD: nat := NBUF

  /** Position k of the ring whose elements after the head are `order`. */
  function Ring(order: seq<nat>, k: int): nat {
    if 1 <= k <= |order| then order[k - 1] else HEAD
  }

  ghost predicate Linked(next: seq<nat>, prev: seq<nat>, order: seq<nat>) {
    && |next| == |prev| == NBUF + 1
    && Distinct(order)
    && (forall k :: 0 <= k < |order| ==> order[k] < NBUF)
    && forall k :: 0 <= k <= |order| ==>
         next[Ring(order, k)] == Ring(order, k + 1) && prev[Ring(order, k + 1)] == Ring(order, k)
  }

  function Without(order: seq<nat>, k: nat): seq<nat>
    requires k < |order|
  {
    order[..k] + order[k + 1..]
  }

  lemma PushFront(next: seq<nat>, prev: seq<nat>, order: seq<nat>, b: nat)
    requires Linked(next, prev, order) && b < NBUF && b !in order
    ensures var first := next[HEAD];
            first <= HEAD && Linked(next[b := first][HEAD := b], prev[b := HEAD][first := b], [b] + order)
  {
    var first := next[HEAD];
    assert first == Ring(order, 1) && Ring(order, 0) == HEAD;
    var next', prev' := next[b := first][HEAD := b], prev[b := HEAD][first := b];
    var order' := [b] + order;
    forall k | 0 <= k <= |order'|
      ensures next'[Ring(order', k)] == Ring(order', k + 1)
           && prev'[Ring(order', k + 1)] == Ring(order', k)
    {
      if k >= 2 {
        assert Ring(order', k) == Ring(order, k - 1) && Ring(order', k + 1) == Ring(order, k);
        assert next[Ring(order, k - 1)] == Ring(order, k) && prev[Ring(order, k)] == Ring(order, k - 1);
        assert Ring(order, k) != first || |order| == 0;
      }
    }
  }

  lemma Unlink(next: seq<nat>, prev: seq<nat>, order: seq<nat>, k: nat)
    requires Linked(next, prev, order) && k < |order|
    ensures var b := order[k];
            && next[b] <= HEAD && prev[b] <= HEAD && next[b] != b && prev[b] != b && b !in Without(order, k)
            && Linked(next[prev[b] := next[b]], prev[next[b] := prev[b]], Without(order, k))
  {
    var b := order[k];
    assert Ring(order, k + 1) == b;
    assert next[Ring(order, k + 1)] == Ring(order, k + 2) && prev[Ring(order, k + 1)] == Ring(order, k);
    var next', prev' := next[prev[b] := next[b]], prev[next[b] := prev[b]];
    var order' := Without(order, k);
    forall j | 0 <= j <= |order'|
      ensures next'[Ring(order', j)] == Ring(order', j + 1)
           && prev'[Ring(order', j + 1)] == Ring(order', j)
    {
      var i := if j <= k then j else j + 1;
      assert Ring(order', j) == Ring(order, i);
      assert Ring(order', j + 1) == Ring(order, if j == k then i + 2 else i + 1);
      assert next[Ring(order, i)] == Ring(order, i + 1) && prev[Ring(order, i + 1)] == Ring(order, i);
    }
  }
}

/** bio.c and log.c.  The struct buf array is a sequence of records with its links
    beside it; index NBUF of the links is bcache.head. */
module BlockLayer {
  import opened Common
  import opened RedoLog
  import opened LruList
  import opened BlockMachine
  import LA = LogAdmission

  /** Some buffer is for block b of the root device. */
  predicate Has(bufs: seq<Buf>, b: nat) {
    exists i :: 0 <= i < |bufs| && bufs[i].For(b)
  }

  predicate HasFree(bufs: seq<Buf>) {
    exists i :: 0 <= i < |bufs| && bufs[i].refcnt == 0
  }

  /** x is the buffer of block b, or a free one when b has none. */
  ghost predicate Found(x: Buf, b: nat, bufs: seq<Buf>) {
    x.For(b) || (x.refcnt == 0 && !Has(bufs, b))
  }

  /** binit's order: each buffer goes in front of those before it. */
  function BootOrder(): (r: seq<nat>) { seq(NBUF, (i: nat) => if i < NBUF then NBUF - 1 - i else 0) }

  /** Buffer i is the least recently used of those not in use. */
  ghost predicate LastFree(order: seq<nat>, bufs: seq<Buf>, i: nat) {
    && i < |bufs| && bufs[i].refcnt == 0
    && exists k :: 0 <= k < |order| && order[k] == i
                   && forall j :: k < j < |order| ==> order[j] < |bufs| && bufs[order[j]].refcnt != 0
  }

  /** The order of use once buffer i has been used. */
  ghost function ToFront(order: seq<nat>, i: nat): (r: seq<nat>)
    requires i in order
  {
    var k :| 0 <= k < |order| && order[k] == i;
    [i] + Without(order, k)
  }

  lemma ToFrontAt(order: seq<nat>, k: nat)
    requires k < |order| && Distinct(order)
    ensures ToFront(order, order[k]) == [order[k]] + Without(order, k)
  {
  }

  lemma StillThere(order: seq<nat>, k: nat)
    requires k < |order|
    ensures forall j :: j in order ==> j in [order[k]] + Without(order, k)
  {
    var order' := [order[k]] + Without(order, k);
    forall j | j in order
      ensures j in order'
    {
      var h :| 0 <= h < |order| && order[h] == j;
      assert order'[if h == k then 0 else if h < k then h + 1 else h] == j;
    }
  }

  lemma LinkedFacts(next: seq<nat>, prev: seq<nat>, order: seq<nat>)
    requires Linked(next, prev, order)
    ensures |next| == |prev| == NBUF + 1 && Distinct(order)
  {
  }

  /** What bread comes back with: no buffer could be had, the caller has to wait for the
      one it was given, or it has it locked. */
  datatype Got = NoBuffer | MustWait | Locked

  /** Fills a header block word by word, as write_head does. */
  method FillHeader(data: Block, n: nat, block: seq<nat>) returns (r: Block)
    requires n <= LOGSIZE && |block| == LOGSIZE
    ensures r == EncodeHeader(data, block[..n])
    ensures HeaderBlocks(r) == block[..n]
  {
    r := data[0 := n];
    for i := 0 to n
      invariant r == [n] + block[..i] + data[1 + i..]
    {
      r := r[1 + i := block[i]];
    }
    HeaderRoundTrip(data, block[..n]);
  }

  class BlockStore {
    // struct bcache
    var buf: seq<Buf>
    var next: seq<nat>
    var prev: seq<nat>
    // the device
    var disk: Image
    // struct log
    var g: Geometry
    var n: nat
    var block: seq<nat>
    var outstanding: int
    var committing: bool
    // bookkeeping that the code leaves to its callers
    ghost var order: seq<nat>
    ghost var users: seq<set<nat>>
    ghost var used: seq<int>
    ghost var passed: set<nat>
    ghost var phase: Phase

    ghost function View(): Sys
      reads this
    {
      Sys(buf, users, disk, g,
          LA.Admission(if n <= |block| then block[..n] else [], outstanding, committing, used, passed), phase)
    }

    ghost predicate ListOk()
      reads this
    {
      |buf| == NBUF && |users| == NBUF && |block| == LOGSIZE && n <= LOGSIZE && Links()
    }

    /** The links run once through every buffer, in the order `order`. */
    ghost predicate Links()
      reads this`next, this`prev, this`order
    {
      && |order| == NBUF && Linked(next, prev, order)
      && forall i :: 0 <= i < NBUF ==> i in order
    }

    /** Everything but the cache stands still. */
    twostate predicate CacheFrame()
      reads this
    {
      && unchanged(`disk, `g, `n, `block, `outstanding, `committing)
      && unchanged(`used, `passed, `phase)
    }

    /** binit, on a zeroed struct bcache. */
    constructor Binit(d: Image, log: Geometry)
      requires log.Fits(|d|)
      ensures ListOk() && disk == d && g == log && n == 0
      ensures outstanding == 0 && !committing && used == LA.Booted().used && passed == {} && phase.Idle?
      ensures d[log.start][0] == 0 ==> Init(View())
      ensures forall i :: 0 <= i < NBUF ==>
                buf[i].dev == 0 && !buf[i].valid && buf[i].refcnt == 0 && buf[i].lock.Free?
      ensures users == seq(NBUF, _ => {}) && order == BootOrder()
    {
      var empty: Block := seq(BLOCK_WORDS, _ => 0);
      buf := seq(NBUF, _ => Buf(false, 0, 0, 0, empty, Free));
      next := seq(NBUF + 1, _ => HEAD);
      prev := seq(NBUF + 1, _ => HEAD);
      disk, g := d, log;
      n, block, outstanding, committing := 0, seq(LOGSIZE, _ => 0), 0, false;
      order, users, used, passed, phase := [], seq(NBUF, _ => {}), LA.Booted().used, {}, Idle;
      new;
      var b := 0;
      while b < NBUF
        invariant b <= NBUF && |order| == b && Linked(next, prev, order)
        invariant forall i :: 0 <= i < |order| ==> order[i] == b - 1 - i
        modifies this`next, this`prev, this`order
      {
        PushFront(next, prev, order, b);
        var first := next[HEAD];
        next := next[b := first];
        prev := prev[b := HEAD];
        prev := prev[first := b];
        next := next[HEAD := b];
        order := [b] + order;
        b := b + 1;
      }
      forall i | 0 <= i < NBUF
        ensures i in order
      {
        assert order[NBUF - 1 - i] == i;
      }
      assert View().adm == LA.Booted();
      assert order == BootOrder();
    }

    /** Process p uses no buffer that bget could hand it for block b. */
    ghost predicate MayLookup(p: nat, b: nat)
      reads this
    {
      && p < LA.NPROC && b < |disk| && |users| == |buf|
      && forall i :: 0 <= i < |buf| && (buf[i].For(b) || buf[i].refcnt == 0) ==> p !in users[i]
    }

    /** bget up to the point where it waits for the buffer's lock.  Panics exactly when
        the block is not cached and every buffer is in use; otherwise a miss takes the
        least recently used free buffer. */
    method Bget(p: nat, b: nat) returns (i: nat, ok: bool)
      requires ListOk() && MayLookup(p, b)
      modifies this`buf, this`users
      ensures ListOk()
      ensures ok <==> Has(old(buf), b) || HasFree(old(buf))
      ensures !ok ==> buf == old(buf) && users == old(users)
      ensures ok ==> i < NBUF && Enabled(old(View()), Lookup(p, b, i))
                     && View() == Apply(old(View()), Lookup(p, b, i))
      ensures ok && !Has(old(buf), b) ==> LastFree(order, old(buf), i)
    {
      ok := true;
      i := next[HEAD];
      ghost var k := 1;
      assert next[Ring(order, 0)] == Ring(order, 1);
      while i != HEAD
        invariant 1 <= k <= NBUF + 1 && i == Ring(order, k)
        invariant forall j :: 0 <= j < k - 1 ==> !buf[order[j]].For(b)
        decreases NBUF + 1 - k
      {
        if buf[i].For(b) {
          buf := buf[i := buf[i].(refcnt := Inc(buf[i].refcnt))];
          users := users[i := users[i] + {p}];
          return;
        }
        assert next[Ring(order, k)] == Ring(order, k + 1);
        i := next[i];
        k := k + 1;
      }
      assert !Has(buf, b) by {
        forall j | 0 <= j < NBUF
          ensures !buf[j].For(b)
        {
          assert j in order;
        }
      }
      i, ok := BgetFree(p, b);
    }

    /** bget's second loop: recycle the least recently used buffer not in use. */
    method BgetFree(p: nat, b: nat) returns (i: nat, ok: bool)
      requires ListOk() && MayLookup(p, b) && !Has(buf, b)
      modifies this`buf, this`users
      ensures ListOk()
      ensures ok <==> HasFree(old(buf))
      ensures !ok ==> buf == old(buf) && users == old(users)
      ensures ok ==> i < NBUF && Enabled(old(View()), Lookup(p, b, i))
                     && View() == Apply(old(View()), Lookup(p, b, i))
      ensures ok ==> LastFree(order, old(buf), i)
    {
      ok := true;
      i := prev[HEAD];
      ghost var k := NBUF;
      assert prev[Ring(order, NBUF + 1)] == Ring(order, NBUF);
      while i != HEAD
        invariant 0 <= k <= NBUF && i == Ring(order, k)
        invariant forall j :: k <= j < NBUF ==> buf[order[j]].refcnt != 0
        decreases k
      {
        if buf[i].refcnt == 0 {
          assert order[k - 1] == i;
          buf := buf[i := buf[i].(dev := ROOTDEV, blockno := b, valid := false, refcnt := 1)];
          users := users[i := users[i] + {p}];
          return;
        }
        assert prev[Ring(order, k)] == Ring(order, k - 1);
        i := prev[i];
        k := k - 1;
      }
      forall j | 0 <= j < NBUF
        ensures buf[j].refcnt != 0
      {
        assert j in order;
      }
      ok := false;
    }

    /** bread: the events are a lookup, a lock and, on a buffer not yet valid, a disk read.
        When another process has the buffer locked, the reference is taken and the caller
        goes to sleep for the lock. */
    method Bread(p: nat, b: nat) returns (i: nat, r: Got, ghost es: seq<Event>)
      requires ListOk() && MayLookup(p, b)
      modifies this`buf, this`users
      ensures ListOk()
      ensures r.NoBuffer? <==> !Has(old(buf), b) && !HasFree(old(buf))
      ensures Path(old(View()), es, View()) && Quietly(es)
      ensures r.NoBuffer? ==> View() == old(View())
      ensures !r.NoBuffer? ==> i < NBUF && Found(old(buf)[i], b, old(buf)) && (r.Locked? <==> old(buf)[i].lock.Free?)
      ensures !r.NoBuffer? && !Has(old(buf), b) ==> LastFree(order, old(buf), i)
      ensures r.MustWait? ==> es == [Lookup(p, b, i)]
      ensures r.Locked? ==> View().Holds(p, i, b) && users[i] == old(users)[i] + {p}
      ensures r.Locked? ==> buf == old(buf)[i := buf[i]] && users == old(users)[i := users[i]]
      ensures r.Locked? ==>
                if old(buf)[i].For(b)
                then buf[i].refcnt == Inc(old(buf)[i].refcnt)
                     && buf[i].data == (if old(buf)[i].valid then old(buf)[i].data else disk[b])
                else buf[i].refcnt == 1 && buf[i].data == disk[b]
    {
      hide Links, Linked, Path, Apply, Enabled, Has, HasFree, Quietly, LastFree;
      var ok;
      i, ok := Bget(p, b);
      if !ok {
        r := NoBuffer;
        es := [];
        EmptyPath(View(), Flat([], []));
        QuietSteps(p, b, 0);
        return;
      }
      ghost var s := old(View());
      LookupShape(s, p, b, i);
      QuietSteps(p, b, i);
      if !buf[i].lock.Free? {
        r := MustWait;
        es := [Lookup(p, b, i)];
        return;
      }
      r := Locked;
      es := BreadPath(s, p, b, i);
      buf := buf[i := buf[i].(lock := Held(p))];
      if !buf[i].valid {
        buf := buf[i := buf[i].(valid := true, data := disk[buf[i].blockno])];
      }
      assert buf == s.bufs[i := Filled(Looked(s.bufs[i], b), p, disk)];
    }

    /** Moves buffer b to the front of the list: the six link assignments of brelse. */
    method MoveToFront(b: nat)
      requires ListOk() && b < NBUF
      modifies this`next, this`prev, this`order
      ensures ListOk()
      ensures b in old(order) && order == ToFront(old(order), b)
    {
      LinkedFacts(next, prev, order);
      hide Linked, ToFront;
      assert b in order;
      ghost var k :| 0 <= k < NBUF && order[k] == b;
      Unlink(next, prev, order, k);
      ghost var rest := Without(order, k);
      prev := prev[next[b] := prev[b]];
      next := next[prev[b] := next[b]];
      assert Linked(next, prev, rest);
      PushFront(next, prev, rest, b);
      next := next[b := next[HEAD]];
      prev := prev[b := HEAD];
      prev := prev[next[HEAD] := b];
      next := next[HEAD := b];
      StillThere(order, k);
      ToFrontAt(order, k);
      order := [b] + rest;
    }

    /** brelse: unlock, drop the reference, and if it was the last one make the buffer
        the most recently used.  Panics when the caller does not hold the lock. */
    method Brelse(p: nat, i: nat) returns (ok: bool)
      requires ListOk() && i < NBUF && (buf[i].lock == Held(p) ==> p in users[i])
      modifies this`buf, this`users, this`next, this`prev, this`order
      ensures ListOk()
      ensures ok <==> old(buf)[i].lock == Held(p)
      ensures !ok ==> View() == old(View()) && order == old(order)
      ensures ok ==> Path(old(View()), [Unlock(p, i), Deref(p, i)], View())
      ensures ok ==> buf == old(buf)[i := old(buf)[i].(lock := Free, refcnt := Dec(old(buf)[i].refcnt))]
      ensures ok ==> users == old(users)[i := old(users)[i] - {p}]
      ensures i in old(order)
      ensures ok ==> order == if buf[i].refcnt == 0 then ToFront(old(order), i) else old(order)
    {
      ok := buf[i].lock == Held(p);
      if !ok { return; }
      BrelsePath(View(), p, i);
      hide Path;
      buf := buf[i := buf[i].(lock := Free)];
      buf := buf[i := buf[i].(refcnt := Dec(buf[i].refcnt))];
      users := users[i := users[i] - {p}];
      if buf[i].refcnt == 0 {
        MoveToFront(i);
      }
    }

    /** bwrite: one block of the disk takes the buffer's contents.  Panics when the caller
        does not hold the lock. */
    method Bwrite(p: nat, i: nat) returns (ok: bool)
      requires i < |buf| && buf[i].blockno < |disk|
      modifies this`disk
      ensures ok <==> buf[i].lock == Held(p)
      ensures |disk| == |old(disk)|
      ensures forall b :: 0 <= b < |disk| ==>
                disk[b] == if ok && b == buf[i].blockno then buf[i].data else old(disk)[b]
    {
      ok := buf[i].lock == Held(p);
      if ok {
        disk := disk[buf[i].blockno := buf[i].data];
      }
    }

    method Bpin(i: nat)
      requires i < |buf|
      modifies this`buf
      ensures buf == old(buf)[i := old(buf)[i].(refcnt := Inc(old(buf)[i].refcnt))]
    {
      buf := buf[i := buf[i].(refcnt := Inc(buf[i].refcnt))];
    }

    method Bunpin(i: nat)
      requires i < |buf|
      modifies this`buf
      ensures buf == old(buf)[i := old(buf)[i].(refcnt := Dec(old(buf)[i].refcnt))]
    {
      buf := buf[i := buf[i].(refcnt := Dec(buf[i].refcnt))];
    }

    // ----- operations

    /** One turn of begin_op's loop: it succeeds exactly when no commit is running and the
        log has room for what the operations in progress and one more may write; when it
        does not the caller sleeps on &log. */
    method BeginOp(p: nat) returns (ok: bool)
      requires ListOk() && p < |used| && used[p] < 0
      modifies this`outstanding, this`used
      ensures ListOk()
      ensures ok <==> !committing && n + (old(outstanding) + 1) * MAXOPBLOCKS <= LOGSIZE
      ensures outstanding == (if ok then old(outstanding) + 1 else old(outstanding))
      ensures used == (if ok then old(used)[p := 0] else old(used))
      ensures if ok then Path(old(View()), [Event.BeginOp(p)], View()) else View() == old(View())
    {
      ok := !committing && n + (outstanding + 1) * MAXOPBLOCKS <= LOGSIZE;
      if ok {
        PathStep(old(View()), [], old(View()), Event.BeginOp(p));
        assert [] + [Event.BeginOp(p)] == [Event.BeginOp(p)];
        outstanding := outstanding + 1;
        used := used[p := 0];
      }
    }

    /** log_write's search for a block that is already logged. */
    method FindSlot(b: nat) returns (i: nat)
      requires |block| == LOGSIZE && n <= LOGSIZE
      ensures i == Slot(block[..n], b)
    {
      i := 0;
      while i < n
        invariant i <= n && b !in block[..i]
      {
        if block[i] == b {
          break;
        }
        i := i + 1;
      }
      FirstSlot(block[..n], b, i);
    }

    /** The caller has put `data` in buffer i, which it has locked, and calls log_write on
        it.  What is logged is the block that the buffer is for. */
    method LogWrite(p: nat, i: nat, data: Block) returns (ok: bool)
      requires ListOk() && i < NBUF && buf[i].lock == Held(p) && View().adm.Active(p) && p !in passed
      requires buf[i].blockno in block[..n] || used[p] < MAXOPBLOCKS
      modifies this`buf, this`n, this`block, this`used
      ensures ListOk()
      ensures ok <==> old(n) < LOGSIZE && old(n) + 1 < g.size && outstanding >= 1
      ensures ok ==> n == (if old(buf)[i].blockno in old(block[..n]) then old(n) else old(n) + 1)
      ensures ok ==> block[..n] == if n == old(n) then old(block[..n]) else old(block[..n]) + [old(buf)[i].blockno]
      ensures View() == if ok then LogWritten(old(View()), p, i, old(buf)[i].blockno, data) else old(View())
      ensures ok && old(View()).Holds(p, i, old(buf)[i].blockno) && g.Home(|disk|, old(buf)[i].blockno) ==>
                Path(old(View()), [TestLog(p), Update(p, i, old(buf)[i].blockno, data)], View())
    {
      ok := !(n >= LOGSIZE || n + 1 >= g.size) && outstanding >= 1;
      if !ok { return; }
      if View().Holds(p, i, buf[i].blockno) && g.Home(|disk|, buf[i].blockno) {
        LogWritePath(View(), p, i, buf[i].blockno, data);
      }
      AppendOrAbsorb(p, i, data);
    }

    /** log_write's critical section. */
    method AppendOrAbsorb(p: nat, i: nat, data: Block)
      requires |block| == LOGSIZE && n < LOGSIZE && i < |buf| && View().adm.Active(p)
      modifies this`buf, this`n, this`block, this`used
      ensures |block| == LOGSIZE && n <= LOGSIZE
      ensures n == (if old(buf)[i].blockno in old(block[..n]) then old(n) else old(n) + 1)
      ensures block[..n] == if n == old(n) then old(block[..n]) else old(block[..n]) + [old(buf)[i].blockno]
      ensures View() == LogWritten(old(View()), p, i, old(buf)[i].blockno, data)
    {
      var b := buf[i].blockno;
      buf := buf[i := buf[i].(data := data)];
      var k := FindSlot(b);
      block := block[k := b];
      if k == n {
        Bpin(i);
        n := n + 1;
        used := used[p := used[p] + 1];
        assert block[..n] == old(block[..n]) + [b];
      } else {
        assert block[..n] == old(block[..n]);
      }
    }

    // ----- commit

    /** No buffer is locked and p uses none. */
    ghost predicate Calm(p: nat)
      reads this
    {
      |buf| == |users| && p < LA.NPROC
      && forall i :: 0 <= i < |buf| ==> buf[i].lock.Free? && p !in users[i]
    }

    /** Reads block a and then block b, which is in use already; keeps both locked. */
    method ReadPair(p: nat, a: nat, b: nat) returns (i: nat, j: nat, ok: bool, ghost es: seq<Event>)
      requires ListOk() && Calm(p) && a < |disk| && b < |disk| && a != b && InUse(buf, b)
      requires forall k :: 0 <= k < NBUF ==> buf[k].refcnt + 1 < UINT_MOD || !buf[k].For(a)
      modifies this`buf, this`users
      ensures ListOk()
      ensures Path(old(View()), es, View()) && Quietly(es)
      ensures ok <==> !Stuck(old(buf), a)
      ensures !ok ==> View() == old(View())
      ensures ok ==> Both(p, i, j) && View().Holds(p, i, a) && View().Holds(p, j, b)
      ensures ok ==> PairRead(old(buf), buf, i, j, a, b)
    {
      hide Path, Links, Linked, Apply, Enabled, Quietly;
      j := 0;
      var r;
      i, r, es := Bread(p, a);
      ok := r.Locked?;
      if !ok { return; }
      ghost var v := View();
      assert buf[i].refcnt != 0 && buf[i].blockno != b;
      assert MayLookup(p, b);
      StillInUse(old(buf), buf, i, b);
      ghost var es';
      j, r, es' := Bread(p, b);
      assert i != j && buf[i] == v.bufs[i];
      PathJoin(old(View()), es, v, es', View());
      QuietJoin(es, es');
      es := es + es';
    }

    /** p has locked buffers i and j, and uses no other; nothing else is locked. */
    ghost predicate Both(p: nat, i: nat, j: nat)
      reads this`buf, this`users
    {
      && |buf| == |users| && i < |buf| && j < |buf| && i != j && p < LA.NPROC
      && buf[i].lock == Held(p) && p in users[i] && buf[j].lock == Held(p) && p in users[j]
      && forall k :: 0 <= k < |buf| && k != i && k != j ==> buf[k].lock.Free? && p !in users[k]
    }

    /** Releases the two buffers of ReadPair, the second first. */
    method ReleasePair(p: nat, i: nat, j: nat) returns (ghost es: seq<Event>)
      requires ListOk() && Both(p, i, j)
      modifies this`buf, this`users, this`next, this`prev, this`order
      ensures ListOk() && Calm(p)
      ensures Path(old(View()), es, View()) && Quietly(es)
      ensures buf == old(buf)[i := buf[i]][j := buf[j]]
      ensures Unreferenced(old(buf)[i], buf[i]) && Unreferenced(old(buf)[j], buf[j])
    {
      hide Path, Links;
      var ok := Brelse(p, j);
      ghost var v := View();
      ok := Brelse(p, i);
      PathJoin(old(View()), [Unlock(p, j), Deref(p, j)], v, [Unlock(p, i), Deref(p, i)], View());
      es := [Unlock(p, j), Deref(p, j)] + [Unlock(p, i), Deref(p, i)];
    }

    /** The machine has come from `s` by `es`, without touching the flat store f. */
    ghost predicate Came(s: Sys, f: Flat, es: seq<Event>)
      reads this
    {
      ListOk() && Path(s, es, View()) && Quietly(es) && Inv(View(), f)
    }

    /** One turn of write_log's loop. */
    method CopyOne(p: nat, tail: nat) returns (ok: bool, ghost es: seq<Event>)
      requires ListOk() && Calm(p) && phase == WriteLog(p, tail) && tail < n && Ready(View(), tail)
      modifies this`buf, this`users, this`next, this`prev, this`order, this`disk, this`phase
      ensures ListOk() && Path(old(View()), es, View()) && Quietly(es)
      ensures ok <==> !Stuck(old(buf), g.start + 1 + tail)
      ensures !ok ==> buf == old(buf)
      ensures if ok then Calm(p) && phase == WriteLog(p, tail + 1) else phase == old(phase)
      ensures ok ==> TurnMade(old(buf), buf, g.start + 1 + tail, block[tail], false)
    {
      hide Path, Links, Linked, Both, Stuck, TurnMade, PairRead, Finished, Quietly;
      var i, j;
      i, j, ok, es := ReadPair(p, g.start + 1 + tail, block[tail]);
      if !ok { return; }
      ghost var v := View();
      TurnEnabled(v, p, i, j, tail);
      ghost var es' := CopyAndRelease(p, i, j, tail);
      TurnSummary(old(buf), v.bufs, buf, i, j, g.start + 1 + tail, block[tail], false);
      PathJoin(old(View()), es, v, es', View());
      QuietJoin(es, es');
      es := es + es';
    }

    method CopyAndRelease(p: nat, i: nat, j: nat, tail: nat) returns (ghost es: seq<Event>)
      requires ListOk() && Both(p, i, j) && phase == WriteLog(p, tail) && Enabled(View(), CopyToLog(p, i, j))
      modifies this`buf, this`users, this`next, this`prev, this`order, this`disk, this`phase
      ensures ListOk() && Calm(p) && phase == WriteLog(p, tail + 1)
      ensures Path(old(View()), es, View()) && Quietly(es)
      ensures Finished(old(buf), buf, i, j, false)
    {
      hide Path, Links, Linked, Apply, Enabled, Both;
      CopyToLogBlock(p, i, j, tail);
      ghost var w := View();
      ghost var es' := ReleasePair(p, i, j);
      PathStart(old(View()), CopyToLog(p, i, j), w, es', View());
      es := [CopyToLog(p, i, j)] + es';
    }

    /** memmove and bwrite of write_log. */
    method CopyToLogBlock(p: nat, to: nat, from: nat, tail: nat)
      requires ListOk() && phase == WriteLog(p, tail) && Enabled(View(), CopyToLog(p, to, from))
      modifies this`buf, this`disk, this`phase
      ensures View() == Apply(old(View()), CopyToLog(p, to, from))
      ensures ListOk() && phase == WriteLog(p, tail + 1)
      ensures old(Both(p, to, from)) ==> Both(p, to, from)
      ensures to < |old(buf)| && buf == old(buf)[to := old(buf)[to].(data := buf[to].data)]
    {
      buf := buf[to := buf[to].(data := buf[from].data)];
      var ok := Bwrite(p, to);
      phase := WriteLog(p, tail + 1);
    }

    /** write_log.  It stops early, in bget's panic, exactly when no buffer is free and some
        block of the log is not cached. */
    method WriteLogBlocks(p: nat, ghost f: Flat) returns (ok: bool, ghost es: seq<Event>)
      requires ListOk() && Inv(View(), f) && Calm(p) && phase == WriteLog(p, 0)
      modifies this`buf, this`users, this`next, this`prev, this`order, this`disk, this`phase
      ensures Came(old(View()), f, es)
      ensures ok <==> HasFree(old(buf)) || HasAll(old(buf), g.start + 1, n)
      ensures if ok then Calm(p) && phase == WriteLog(p, n)
              else phase.WriteLog? && Stuck(buf, g.start + 1 + phase.t)
      ensures ok ==> HasFree(buf) == HasFree(old(buf))
      ensures ok && !HasFree(buf) ==> HasAll(buf, g.start + 1, n) && Has(buf, g.start) == Has(old(buf), g.start)
    {
      hide Inv, Path, Has, HasFree, HasAll, Stuck, TurnMade, Links, Linked, Ready, Copied;
      ok, es := true, [];
      EmptyPath(View(), f);
      CopiedNone(buf, g.start + 1);
      var tail := 0;
      while tail < n
        invariant tail <= n && Came(old(View()), f, es) && Calm(p) && phase == WriteLog(p, tail)
        invariant Copied(old(buf), buf, g.start + 1, tail)
      {
        LogReady(View(), f, tail);
        ghost var v := View();
        ghost var es';
        ok, es' := CopyOne(p, tail);
        Onward(old(View()), f, es, v, es', View());
        es := es + es';
        if !ok {
          CopiedStuck(old(buf), buf, g.start + 1, tail, n);
          return;
        }
        CopiedMore(old(buf), v.bufs, buf, g.start + 1, tail, block[tail]);
        tail := tail + 1;
      }
      CopiedAll(old(buf), buf, g.start, n);
    }

    /** write_head, both as the commit point and as the erasure of the log. */
    method WriteHeadBlock(p: nat) returns (ok: bool, ghost es: seq<Event>, ghost e: Event, ghost es': seq<Event>)
      requires ListOk() && Calm(p) && HeadDue(p)
      modifies this`buf, this`users, this`next, this`prev, this`order, this`disk, this`phase
      ensures ListOk() && Quietly(es) && Quietly(es')
      ensures ok <==> Has(old(buf), g.start) || HasFree(old(buf))
      ensures ok ==> HasFree(old(buf)) ==> HasFree(buf)
      ensures ok && !HasFree(old(buf)) ==> forall b: nat :: Has(buf, b) == Has(old(buf), b)
      ensures !ok ==> Path(old(View()), es, View()) && phase == old(phase)
      ensures ok ==> Path(old(View()), es + [e] + es', View()) && Calm(p)
      ensures ok ==> phase == old(AfterHead(p)) && e.WriteHead? == old(phase).WriteLog? && !e.Update?
    {
      hide Path, Links, Apply, Has, HasFree;
      var i;
      i, ok, es := ReadOne(p, g.start);
      e, es' := Lock(p, 0), [];
      if !ok { return; }
      ghost var v := View();
      e := FillAndWrite(p, i);
      ghost var w := View();
      es' := ReleaseOne(p, i);
      HeadKeeps(old(buf), buf, i, g.start);
      PathAround(old(View()), es, v, e, w, es', View());
    }

    method ReadOne(p: nat, a: nat) returns (i: nat, ok: bool, ghost es: seq<Event>)
      requires ListOk() && Calm(p) && a < |disk|
      modifies this`buf, this`users
      ensures ListOk() && Path(old(View()), es, View()) && Quietly(es)
      ensures ok <==> Has(old(buf), a) || HasFree(old(buf))
      ensures ok ==> View().Holds(p, i, a) && Only(p, i)
      ensures ok ==> OneRead(old(buf), buf, i, a)
    {
      var r;
      i, r, es := Bread(p, a);
      ok := r.Locked?;
    }

    /** p uses buffer i, and no other buffer is locked or used by p. */
    ghost predicate Only(p: nat, i: nat)
      reads this
    {
      && |buf| == |users| && i < |buf| && p < LA.NPROC && p in users[i]
      && forall k :: 0 <= k < |buf| && k != i ==> buf[k].lock.Free? && p !in users[k]
    }

    method ReleaseOne(p: nat, i: nat) returns (ghost es: seq<Event>)
      requires ListOk() && Only(p, i) && buf[i].lock == Held(p)
      modifies this`buf, this`users, this`next, this`prev, this`order
      ensures ListOk() && Path(old(View()), es, View()) && Quietly(es) && Calm(p)
      ensures buf == old(buf)[i := buf[i]] && Unreferenced(old(buf)[i], buf[i])
    {
      var ok := Brelse(p, i);
      es := [Unlock(p, i), Deref(p, i)];
    }

    /** The committing process is about to write the header. */
    ghost predicate HeadDue(p: nat)
      reads this
    {
      g.start < |disk| && n <= |block| && (phase == WriteLog(p, n) || (phase == Clear(p) && n == 0))
    }

    ghost function AfterHead(p: nat): Phase
      reads this
    {
      if phase.Clear? then Done(p) else Install(p, 0)
    }

    /** The body of write_head between bread and brelse. */
    method FillAndWrite(p: nat, i: nat) returns (ghost e: Event)
      requires ListOk() && HeadDue(p) && View().Holds(p, i, g.start)
      modifies this`buf, this`disk, this`phase
      ensures ListOk() && phase == old(AfterHead(p))
      ensures Enabled(old(View()), e) && View() == Apply(old(View()), e)
      ensures e == if old(phase).Clear? then ClearHead(p, i) else WriteHead(p, i)
      ensures buf == old(buf)[i := old(buf)[i].(data := buf[i].data)]
    {
      e := if phase.Clear? then ClearHead(p, i) else WriteHead(p, i);
      var data := FillHeader(buf[i].data, n, block);
      buf := buf[i := buf[i].(data := data)];
      var ok := Bwrite(p, i);
      phase := AfterHead(p);
    }

    /** memmove, bwrite and bunpin of install_trans. */
    method CopyHome(p: nat, l: nat, d: nat)
      requires ListOk() && l < NBUF && d < NBUF && buf[d].lock == Held(p) && buf[d].blockno < |disk|
      modifies this`buf, this`disk
      ensures ListOk()
      ensures disk == old(disk)[old(buf)[d].blockno := old(buf)[l].data]
      ensures buf == old(buf)[d := old(buf)[d].(data := old(buf)[l].data, refcnt := Dec(old(buf)[d].refcnt))]
    {
      buf := buf[d := buf[d].(data := buf[l].data)];
      var ok := Bwrite(p, d);
      Bunpin(d);
    }

    /** One turn of install_trans's loop, during a commit. */
    method InstallOne(p: nat, tail: nat) returns (ok: bool, ghost es: seq<Event>)
      requires ListOk() && Calm(p) && phase == Install(p, tail) && tail < n && Ready(View(), tail)
      modifies this`buf, this`users, this`next, this`prev, this`order, this`disk, this`phase
      ensures ListOk() && Path(old(View()), es, View()) && Quietly(es)
      ensures ok <==> !Stuck(old(buf), g.start + 1 + tail)
      ensures !ok ==> buf == old(buf)
      ensures if ok then Calm(p) && phase == Install(p, tail + 1) else phase == old(phase)
      ensures ok ==> TurnMade(old(buf), buf, g.start + 1 + tail, block[tail], true)
    {
      hide Path, Links, Linked, Both, Stuck, TurnMade, PairRead, Finished, Quietly;
      var l, d;
      l, d, ok, es := ReadPair(p, g.start + 1 + tail, block[tail]);
      if !ok { return; }
      ghost var v := View();
      TurnEnabled(v, p, l, d, tail);
      ghost var es' := InstallAndRelease(p, l, d, tail);
      TurnSummary(old(buf), v.bufs, buf, l, d, g.start + 1 + tail, block[tail], true);
      PathJoin(old(View()), es, v, es', View());
      QuietJoin(es, es');
      es := es + es';
    }

    method InstallAndRelease(p: nat, l: nat, d: nat, tail: nat) returns (ghost es: seq<Event>)
      requires ListOk() && Both(p, l, d) && phase == Install(p, tail) && Enabled(View(), InstallBlock(p, l, d))
      modifies this`buf, this`users, this`next, this`prev, this`order, this`disk, this`phase
      ensures ListOk() && Calm(p) && phase == Install(p, tail + 1)
      ensures Path(old(View()), es, View()) && Quietly(es)
      ensures Finished(old(buf), buf, l, d, true)
    {
      hide Path, Links, Linked, Apply, Enabled, Both;
      InstallHome(p, l, d, tail);
      ghost var w := View();
      ghost var es' := ReleasePair(p, d, l);
      PathStart(old(View()), InstallBlock(p, l, d), w, es', View());
      es := [InstallBlock(p, l, d)] + es';
    }

    method InstallHome(p: nat, l: nat, d: nat, tail: nat)
      requires ListOk() && phase == Install(p, tail) && Enabled(View(), InstallBlock(p, l, d))
      modifies this`buf, this`disk, this`phase
      ensures View() == Apply(old(View()), InstallBlock(p, l, d))
      ensures ListOk() && phase == Install(p, tail + 1)
      ensures old(Both(p, l, d)) ==> Both(p, d, l)
      ensures d < |old(buf)| && buf == old(buf)[d := old(buf)[d].(data := buf[d].data, refcnt := Dec(old(buf)[d].refcnt))]
    {
      CopyHome(p, l, d);
      phase := Install(p, tail + 1);
    }

    /** install_trans during a commit.  It stops early, in bget's panic, exactly when no
        buffer is free and some log block is not cached, the first home block that nobody
        but the log refers to being a later one: installing that one frees its buffer. */
    method InstallTrans(p: nat, ghost f: Flat) returns (ok: bool, ghost es: seq<Event>)
      requires ListOk() && Inv(View(), f) && Calm(p) && phase == Install(p, 0)
      modifies this`buf, this`users, this`next, this`prev, this`order, this`disk, this`phase
      ensures Came(old(View()), f, es)
      ensures ok <==> CanInstall(old(buf), g.start, block[..n])
      ensures CanCommit(old(buf), g, n) ==> ok && (HasFree(buf) || Has(buf, g.start))
      ensures if ok then Calm(p) && phase == Install(p, n) else phase.Install? && Stuck(buf, g.start + 1 + phase.t)
    {
      hide Inv, Path, Has, HasFree, TurnMade, Links, Linked, Ready, CanInstall, Unpinned, Stuck;
      ok, es := true, [];
      EmptyPath(View(), f);
      UnpinnedNone(buf, g.start, block[..n]);
      var tail := 0;
      while tail < n
        invariant tail <= n && Came(old(View()), f, es) && Calm(p) && phase == Install(p, tail)
        invariant CanCommit(old(buf), g, n) ==> CanCommit(buf, g, n)
        invariant Unpinned(old(buf), buf, g.start, block[..n], tail)
      {
        LogReady(View(), f, tail);
        ghost var v := View();
        LoggedDistinct(v, f, block[..n]);
        ghost var es';
        ok, es' := InstallOne(p, tail);
        Onward(old(View()), f, es, v, es', View());
        es := es + es';
        if !ok {
          UnpinnedStuck(old(buf), v.bufs, g.start, block[..n], tail);
          CommitNeverStuck(v.bufs, g, n, tail);
          return;
        }
        TurnKeeps(v.bufs, buf, g.start + 1 + tail, block[tail], true);
        UnpinnedMore(old(buf), v.bufs, buf, v.g, |v.disk|, block[..n], tail);
        tail := tail + 1;
      }
      UnpinnedAll(old(buf), buf, g.start, block[..n]);
    }

    /** The part of commit() after the header write. */
    method InstallAndErase(p: nat, ghost f: Flat) returns (ok: bool, ghost es: seq<Event>)
      requires ListOk() && Inv(View(), f) && Calm(p) && phase == Install(p, 0)
      requires CanCommit(buf, g, n)
      modifies this`buf, this`users, this`next, this`prev, this`order, this`disk, this`phase, this`n
      ensures ListOk() && Path(old(View()), es, View()) && Inv(View(), f) && FlatAfter(f, es) == f
      ensures ok && Calm(p) && phase == Done(p)
    {
      hide Inv, Path, FlatAfter, Links, Apply, Has, HasFree;
      ok, es := InstallTrans(p, f);
      FlatUnmoved(f, es);
      ghost var v := View();
      ghost var es';
      ok, es' := ForgetAndErase(p, f);
      PathJoin(old(View()), es, v, es', View());
      FlatJoin(f, es, es');
      es := es + es';
    }

    method ForgetAndErase(p: nat, ghost f: Flat) returns (ok: bool, ghost es: seq<Event>)
      requires ListOk() && Inv(View(), f) && Calm(p) && phase == Install(p, n)
      modifies this`buf, this`users, this`next, this`prev, this`order, this`disk, this`phase, this`n
      ensures ListOk() && Path(old(View()), es, View()) && Inv(View(), f) && FlatAfter(f, es) == f
      ensures ok <==> Has(old(buf), g.start) || HasFree(old(buf))
      ensures if ok then Calm(p) && phase == Done(p) else phase == Clear(p)
    {
      hide Inv, Path, FlatAfter, Links, Apply, Has, HasFree;
      CommitFacts(View(), f);
      ghost var e := ForgetLog(p);
      EmptyPath(View(), f);
      StepInv(View(), f, e);
      PathStep(View(), [], View(), e);
      es := [] + [e];
      FlatUnmoved(f, es);
      Forget(p);
      ghost var v := View();
      ghost var es1, e', es2;
      ok, es1, e', es2 := WriteHeadBlock(p);
      if !ok {
        Onward(old(View()), f, es, v, es1, View());
        FlatUnmoved(f, es + es1);
        es := es + es1;
        return;
      }
      OnwardHead(old(View()), f, f, es, v, es1, e', es2, View());
      es := es + (es1 + [e'] + es2);
    }

    /** log.lh.n = 0 */
    method Forget(p: nat)
      requires ListOk() && Enabled(View(), ForgetLog(p))
      modifies this`n, this`phase
      ensures n == 0 && phase == Clear(p) && ListOk() && View() == Apply(old(View()), ForgetLog(p))
      ensures old(Calm(p)) ==> Calm(p)
    {
      n := 0;
      phase := Clear(p);
    }

    /** commit(): the run it makes, and the flat store it leaves.  It stops early, in bget's
        panic, exactly when no buffer is free and some block of the log is not cached; the
        header has not been written then, so nothing has been committed. */
    method Commit(p: nat, ghost f: Flat) returns (ok: bool, ghost es: seq<Event>, ghost f': Flat)
      requires ListOk() && Inv(View(), f) && Calm(p)
      requires phase == if n == 0 then Done(p) else WriteLog(p, 0)
      modifies this`buf, this`users, this`next, this`prev, this`order, this`disk, this`phase, this`n
      ensures ListOk() && Path(old(View()), es, View()) && Inv(View(), f')
      ensures FlatAfter(f, es) == f' && f'.current == f.current
      ensures ok <==> old(n) == 0 || CanCommit(old(buf), g, old(n))
      ensures f'.committed == if ok && old(n) > 0 then f.current else f.committed
      ensures if ok then Calm(p) && phase == Done(p) else phase.WriteLog?
    {
      hide Inv, Path, FlatAfter, Links, Apply, Has, HasFree, CanCommit;
      ok, es, f' := true, [], f;
      EmptyPath(View(), f);
      if n > 0 {
        ok, es, f' := WriteUpToHead(p, f);
        if !ok { return; }
        ghost var w := View();
        ghost var es';
        ok, es' := InstallAndErase(p, f');
        FlatJoin(f, es, es');
        PathJoin(old(View()), es, w, es', View());
        es := es + es';
      }
    }

    /** write_log and the header write that commits. */
    method WriteUpToHead(p: nat, ghost f: Flat) returns (ok: bool, ghost es: seq<Event>, ghost f': Flat)
      requires ListOk() && Inv(View(), f) && Calm(p) && phase == WriteLog(p, 0) && n > 0
      modifies this`buf, this`users, this`next, this`prev, this`order, this`disk, this`phase
      ensures ListOk() && Path(old(View()), es, View()) && Inv(View(), f') && FlatAfter(f, es) == f'
      ensures ok <==> CanCommit(old(buf), g, n)
      ensures f' == if ok then f.(committed := f.current) else f
      ensures if ok then Calm(p) && phase == Install(p, 0) && CanCommit(buf, g, n) else phase.WriteLog?
    {
      hide Inv, Path, FlatAfter, Links, Apply, Has, HasFree;
      f' := f;
      CommitFacts(View(), f);
      ok, es := WriteLogBlocks(p, f);
      FlatUnmoved(f, es);
      if !ok { return; }
      CommitFacts(View(), f);
      ghost var v := View();
      ghost var es1, e, es2;
      ok, es1, e, es2 := WriteHeadBlock(p);
      if !ok {
        Onward(old(View()), f, es, v, es1, View());
        FlatUnmoved(f, es + es1);
        es := es + es1;
        return;
      }
      OnwardHead(old(View()), f, f, es, v, es1, e, es2, View());
      es := es + (es1 + [e] + es2);
      f' := f.(committed := f.current);
    }

    /** end_op.  The panic on a commit already running cannot happen; the last operation
        to end commits, and unless bget panics every home block is then on disk with its
        current contents and the log is empty. */
    method EndOp(p: nat, ghost f: Flat) returns (ok: bool, ghost es: seq<Event>, ghost f': Flat)
      requires ListOk() && Inv(View(), f) && Calm(p) && View().adm.Active(p) && p !in passed
      modifies this
      ensures ListOk() && Path(old(View()), es, View()) && Inv(View(), f')
      ensures FlatAfter(f, es) == f' && f'.current == f.current
      ensures es != [] && es[0] == Event.EndOp(p)
      ensures outstanding == old(outstanding) - 1 && used == old(used)[p := -1]
      ensures ok <==> old(outstanding) != 1 || old(n) == 0 || CanCommit(old(buf), g, old(n))
      ensures ok && old(outstanding) == 1 ==> !committing && n == 0 && Erased(View(), f)
      ensures !ok ==> committing && phase.WriteLog? && f' == f
      ensures old(outstanding) != 1 ==> ok && f' == f && n == old(n) && disk == old(disk)
    {
      hide Inv, Path, FlatAfter, Erased, Links, CanCommit;
      ok, f' := true, f;
      ghost var e := Event.EndOp(p);
      EmptyPath(View(), f);
      ActiveFacts(View(), f, p);
      PathStep(View(), [], View(), e);
      StepInv(View(), f, e);
      FlatUnmoved(f, [] + [e]);
      es := [] + [e];
      LeaveOp(p);
      if committing {
        ghost var v := View();
        ghost var es1;
        ok, es1, f' := CommitAndFinish(p, f);
        PathJoin(old(View()), es, v, es1, View());
        FlatJoin(f, es, es1);
        es := es + es1;
      }
    }

    /** The part of end_op outside its critical section. */
    method CommitAndFinish(p: nat, ghost f: Flat) returns (ok: bool, ghost es: seq<Event>, ghost f': Flat)
      requires ListOk() && Inv(View(), f) && Calm(p) && outstanding == 0
      requires phase == if n == 0 then Done(p) else WriteLog(p, 0)
      modifies this`buf, this`users, this`next, this`prev, this`order, this`disk, this`phase, this`n, this`committing
      ensures ListOk() && Path(old(View()), es, View()) && Inv(View(), f')
      ensures FlatAfter(f, es) == f' && f'.current == f.current
      ensures ok <==> old(n) == 0 || CanCommit(old(buf), g, old(n))
      ensures ok ==> !committing && n == 0 && Erased(View(), f)
      ensures !ok ==> committing == old(committing) && phase.WriteLog? && f' == f
    {
      hide Inv, Path, FlatAfter, Erased, Links, CanCommit;
      ok, es, f' := Commit(p, f);
      if ok {
        DoneFacts(View(), f');
        SameErased(View(), f, f');
        ghost var e := FinishCommit(p);
        StepInv(View(), f', e);
        PathStep(old(View()), es, View(), e);
        FlatJoin(f, es, [e]);
        FlatUnmoved(f', [e]);
        es := es + [e];
        ClearCommitting(p, f);
      }
    }

    /** log.committing = 0 */
    method ClearCommitting(p: nat, ghost f: Flat)
      requires ListOk() && Enabled(View(), FinishCommit(p))
      modifies this`committing, this`phase
      ensures ListOk() && !committing && View() == Apply(old(View()), FinishCommit(p))
      ensures old(Erased(View(), f)) ==> Erased(View(), f)
    {
      committing := false;
      phase := Idle;
    }

    /** end_op's critical section. */
    method LeaveOp(p: nat)
      requires ListOk() && Enabled(View(), Event.EndOp(p)) && !committing
      modifies this`outstanding, this`committing, this`used, this`phase
      ensures ListOk() && View() == Apply(old(View()), Event.EndOp(p))
    {
      outstanding := outstanding - 1;
      used := used[p := -1];
      if outstanding == 0 {
        committing := true;
        phase := if n == 0 then Done(p) else WriteLog(p, 0);
      }
    }
  }

  // ----- which buffers a commit finds

  /** Blocks a..a+n-1 are all cached. */
  predicate HasAll(bufs: seq<Buf>, a: nat, n: nat) {
    forall b: nat :: a <= b < a + n ==> Has(bufs, b)
  }

  /** commit() will find every buffer it asks for. */
  predicate CanCommit(bufs: seq<Buf>, g: Geometry, n: nat) {
    HasFree(bufs) || HasAll(bufs, g.start, n + 1)
  }

  /** Block b is cached, in a buffer that is not free. */
  predicate InUse(bufs: seq<Buf>, b: nat) {
    Has(bufs, b) && forall i :: 0 <= i < |bufs| && bufs[i].For(b) ==> bufs[i].refcnt != 0
  }

  /** bget would panic on a request for block b. */
  predicate Stuck(bufs: seq<Buf>, b: nat) {
    !Has(bufs, b) && !HasFree(bufs)
  }

  lemma StillInUse(bufs: seq<Buf>, bufs': seq<Buf>, i: nat, b: nat)
    requires i < |bufs| && |bufs'| == |bufs| && bufs' == bufs[i := bufs'[i]] && InUse(bufs, b)
    requires !bufs[i].For(b) && !bufs'[i].For(b)
    ensures InUse(bufs', b)
  {
    var j :| 0 <= j < |bufs| && bufs[j].For(b);
    assert bufs'[j].For(b);
  }

  /** What reading block a into buffer i does to the counts. */
  ghost predicate OneRead(bufs: seq<Buf>, bufs': seq<Buf>, i: nat, a: nat) {
    && i < |bufs| && |bufs'| == |bufs| && bufs' == bufs[i := bufs'[i]]
    && Found(bufs[i], a, bufs) && bufs'[i].For(a)
    && bufs'[i].refcnt == if bufs[i].For(a) then Inc(bufs[i].refcnt) else 1
  }

  ghost predicate PairRead(bufs: seq<Buf>, bufs': seq<Buf>, i: nat, j: nat, a: nat, b: nat) {
    && i < |bufs| && j < |bufs| && i != j && |bufs'| == |bufs| && bufs' == bufs[i := bufs'[i]][j := bufs'[j]]
    && Found(bufs[i], a, bufs) && bufs'[i].For(a)
    && bufs'[i].refcnt == (if bufs[i].For(a) then Inc(bufs[i].refcnt) else 1)
    && bufs[j].For(b) && bufs[j].refcnt != 0 && bufs'[j].For(b)
    && bufs'[j].refcnt == Inc(bufs[j].refcnt)
  }

  ghost predicate Unreferenced(x: Buf, x': Buf) {
    x'.dev == x.dev && x'.blockno == x.blockno && x'.refcnt == Dec(x.refcnt)
  }

  /** A turn of write_log or install_trans, seen from the cache: the log block a has a
      buffer, and apart from the one count that install_trans drops, the others are as
      they were. */
  ghost predicate TurnMade(bufs: seq<Buf>, bufs': seq<Buf>, a: nat, b: nat, drops: bool) {
    exists i, j ::
      && 0 <= i < |bufs| && 0 <= j < |bufs| && i != j && |bufs'| == |bufs| && bufs' == bufs[i := bufs'[i]][j := bufs'[j]]
      && Found(bufs[i], a, bufs) && bufs'[i].For(a) && bufs'[i].refcnt == bufs[i].refcnt
      && bufs[j].For(b) && bufs'[j].For(b) && bufs[j].refcnt != 0
      && bufs'[j].refcnt == if drops then bufs[j].refcnt - 1 else bufs[j].refcnt
  }

  /** What the rest of a turn does to the counts of the buffers it has read. */
  ghost predicate Finished(bufs: seq<Buf>, bufs': seq<Buf>, i: nat, j: nat, drops: bool) {
    && i < |bufs| && j < |bufs| && i != j && |bufs'| == |bufs| && bufs' == bufs[i := bufs'[i]][j := bufs'[j]]
    && bufs'[i].dev == bufs[i].dev && bufs'[i].blockno == bufs[i].blockno && bufs'[i].refcnt == Dec(bufs[i].refcnt)
    && bufs'[j].dev == bufs[j].dev && bufs'[j].blockno == bufs[j].blockno
    && bufs'[j].refcnt == if drops then Dec(Dec(bufs[j].refcnt)) else Dec(bufs[j].refcnt)
  }

  lemma TurnSummary(b0: seq<Buf>, b1: seq<Buf>, b2: seq<Buf>, i: nat, j: nat, a: nat, b: nat, drops: bool)
    requires PairRead(b0, b1, i, j, a, b) && Finished(b1, b2, i, j, drops)
    requires forall k :: 0 <= k < |b0| ==> b0[k].refcnt + 1 < UINT_MOD
    ensures TurnMade(b0, b2, a, b, drops)
  {
    assert b2 == b0[i := b2[i]][j := b2[j]];
  }

  /** A turn leaves a free buffer where there was one, and recycles nothing where there
      was none. */
  lemma TurnKeeps(bufs: seq<Buf>, bufs': seq<Buf>, a: nat, h: nat, drops: bool)
    requires TurnMade(bufs, bufs', a, h, drops)
    ensures HasFree(bufs) ==> HasFree(bufs')
    ensures !drops && HasFree(bufs') ==> HasFree(bufs)
    ensures Has(bufs', a)
    ensures !HasFree(bufs) ==> forall b: nat :: Has(bufs', b) == Has(bufs, b)
  {
    if HasFree(bufs) {
      var k :| 0 <= k < |bufs| && bufs[k].refcnt == 0;
      assert bufs'[k].refcnt == 0;
    }
    if !drops && HasFree(bufs') {
      var k :| 0 <= k < |bufs'| && bufs'[k].refcnt == 0;
      assert bufs[k].refcnt == 0;
    }
    if !HasFree(bufs) {
      SameBlocks(bufs, bufs');
    }
  }

  /** Only one reference to block b is left, the log's. */
  predicate Single(bufs: seq<Buf>, b: nat) {
    exists i :: 0 <= i < |bufs| && bufs[i].For(b) && bufs[i].refcnt == 1
  }

  /** install_trans will find every buffer it asks for: unless one is free, the log blocks
      are cached up to that of the first home block with a single reference. */
  ghost predicate CanInstall(bufs: seq<Buf>, start: nat, lh: seq<nat>) {
    HasFree(bufs) || forall t: nat :: t < |lh| && NoneSingle(bufs, lh, t) ==> SlotCached(bufs, start, t)
  }

  predicate SlotCached(bufs: seq<Buf>, start: nat, t: nat) {
    Has(bufs, start + 1 + t)
  }

  ghost predicate NoneSingle(bufs: seq<Buf>, lh: seq<nat>, t: nat)
    requires t <= |lh|
  {
    forall k :: 0 <= k < t ==> !Single(bufs, lh[k])
  }

  /** What t turns of install_trans's loop make of the cache. */
  ghost predicate Unpinned(bufs: seq<Buf>, bufs': seq<Buf>, start: nat, lh: seq<nat>, t: nat)
    requires t <= |lh|
  {
    && (HasFree(bufs') ==> CanInstall(bufs, start, lh))
    && (!HasFree(bufs') ==>
          && !HasFree(bufs) && NoneSingle(bufs, lh, t)
          && (forall b: nat :: Has(bufs', b) == Has(bufs, b))
          && (forall k: nat :: k < t ==> SlotCached(bufs, start, k))
          && forall k :: t <= k < |lh| ==> Single(bufs', lh[k]) == Single(bufs, lh[k]))
  }

  lemma UnpinnedNone(bufs: seq<Buf>, start: nat, lh: seq<nat>)
    ensures Unpinned(bufs, bufs, start, lh, 0)
  {
  }

  lemma UnpinnedStuck(bufs: seq<Buf>, m: seq<Buf>, start: nat, lh: seq<nat>, t: nat)
    requires t < |lh| && Unpinned(bufs, m, start, lh, t) && Stuck(m, start + 1 + t)
    ensures !CanInstall(bufs, start, lh)
  {
    hide Has, HasFree, Single;
    assert NoneSingle(bufs, lh, t) && !SlotCached(bufs, start, t);
  }

  lemma UnpinnedAll(bufs: seq<Buf>, m: seq<Buf>, start: nat, lh: seq<nat>)
    requires Unpinned(bufs, m, start, lh, |lh|)
    ensures CanInstall(bufs, start, lh)
  {
    hide Has, HasFree, Single;
  }

  lemma CommitNeverStuck(bufs: seq<Buf>, g: Geometry, n: nat, t: nat)
    requires t < n && Stuck(bufs, g.start + 1 + t)
    ensures !CanCommit(bufs, g, n)
  {
    hide Has, HasFree;
  }

  /** Different logged blocks are in different buffers. */
  lemma LoggedDistinct(s: Sys, f: Flat, lh: seq<nat>)
    requires Inv(s, f) && lh == s.adm.lh
    ensures Distinct(lh) && OneEach(s.bufs) && forall k :: 0 <= k < |lh| ==> s.g.Home(|s.disk|, lh[k])
    ensures s.g.Fits(|s.disk|) && (s.phase.Install? && lh != [] ==> |lh| < s.g.size)
  {
  }

  ghost predicate OneEach(bufs: seq<Buf>) {
    forall i, j, b: nat :: 0 <= i < |bufs| && 0 <= j < |bufs| && bufs[i].For(b) && bufs[j].For(b) ==> i == j
  }

  /** A turn that finds no free buffer makes one exactly when its home block has a single
      reference, and leaves the other blocks' references alone. */
  lemma TurnFrees(bufs: seq<Buf>, bufs': seq<Buf>, a: nat, b: nat)
    requires TurnMade(bufs, bufs', a, b, true) && OneEach(bufs) && !HasFree(bufs) && a != b
    ensures HasFree(bufs') <==> Single(bufs, b)
    ensures Has(bufs, a) && forall x: nat :: x != b && x != a ==> Single(bufs', x) == Single(bufs, x)
  {
    var i, j :| && 0 <= i < |bufs| && 0 <= j < |bufs| && i != j && |bufs'| == |bufs|
                && bufs' == bufs[i := bufs'[i]][j := bufs'[j]]
                && Found(bufs[i], a, bufs) && bufs'[i].For(a) && bufs'[i].refcnt == bufs[i].refcnt
                && bufs[j].For(b) && bufs'[j].For(b) && bufs[j].refcnt != 0 && bufs'[j].refcnt == bufs[j].refcnt - 1;
    assert bufs[i].For(a);
    if HasFree(bufs') {
      var k :| 0 <= k < |bufs'| && bufs'[k].refcnt == 0;
      assert k == j;
    }
    if Single(bufs, b) {
      assert bufs'[j].refcnt == 0;
    }
    forall x: nat | x != b && x != a
      ensures Single(bufs', x) == Single(bufs, x)
    {
      assert forall k :: 0 <= k < |bufs| && (bufs[k].For(x) || bufs'[k].For(x)) ==> bufs'[k] == bufs[k];
    }
  }

  lemma UnpinnedMore(bufs: seq<Buf>, m: seq<Buf>, bufs': seq<Buf>, g: Geometry, blocks: nat, lh: seq<nat>, t: nat)
    requires t < |lh| && Unpinned(bufs, m, g.start, lh, t) && TurnMade(m, bufs', g.start + 1 + t, lh[t], true)
    requires Distinct(lh) && OneEach(m) && (forall k :: 0 <= k < |lh| ==> g.Home(blocks, lh[k]))
    requires g.Fits(blocks) && |lh| < g.size
    ensures Unpinned(bufs, bufs', g.start, lh, t + 1)
  {
    hide Has, HasFree, TurnMade, Single, OneEach;
    TurnKeeps(m, bufs', g.start + 1 + t, lh[t], true);
    if !HasFree(m) {
      assert g.Home(blocks, lh[t]);
      assert SlotCached(m, g.start, t) == SlotCached(bufs, g.start, t);
      TurnFrees(m, bufs', g.start + 1 + t, lh[t]);
      if HasFree(bufs') {
        assert Single(bufs, lh[t]);
        forall k: nat | k < |lh| && NoneSingle(bufs, lh, k)
          ensures SlotCached(bufs, g.start, k)
        {
          assert k <= t;
        }
      } else {
        forall k | t + 1 <= k < |lh|
          ensures Single(bufs', lh[k]) == Single(bufs, lh[k])
        {
          assert g.Home(blocks, lh[k]);
        }
      }
    }
  }

  /** What t turns of write_log's loop make of the cache. */
  ghost predicate Copied(bufs: seq<Buf>, bufs': seq<Buf>, a: nat, t: nat) {
    && HasFree(bufs') == HasFree(bufs)
    && (!HasFree(bufs) ==> HasAll(bufs', a, t) && forall b: nat :: Has(bufs', b) == Has(bufs, b))
  }

  lemma CopiedNone(bufs: seq<Buf>, a: nat)
    ensures Copied(bufs, bufs, a, 0)
  {
  }

  lemma CopiedMore(bufs: seq<Buf>, m: seq<Buf>, bufs': seq<Buf>, a: nat, t: nat, h: nat)
    requires Copied(bufs, m, a, t) && TurnMade(m, bufs', a + t, h, false)
    ensures Copied(bufs, bufs', a, t + 1)
  {
    hide Has, HasFree, TurnMade;
    TurnKeeps(m, bufs', a + t, h, false);
  }

  lemma CopiedStuck(bufs: seq<Buf>, m: seq<Buf>, a: nat, t: nat, n: nat)
    requires Copied(bufs, m, a, t) && t < n && Stuck(m, a + t)
    ensures !HasFree(bufs) && !HasAll(bufs, a, n)
  {
    hide Has, HasFree;
    assert !Has(bufs, a + t);
  }

  lemma CopiedAll(bufs: seq<Buf>, bufs': seq<Buf>, a: nat, n: nat)
    requires Copied(bufs, bufs', a + 1, n)
    ensures HasFree(bufs') == HasFree(bufs)
    ensures !HasFree(bufs) ==> HasAll(bufs, a + 1, n) && HasAll(bufs', a + 1, n) && Has(bufs', a) == Has(bufs, a)
  {
    hide Has, HasFree;
  }

  lemma SameBlocks(bufs: seq<Buf>, bufs': seq<Buf>)
    requires |bufs'| == |bufs|
    requires forall k :: 0 <= k < |bufs| ==> bufs'[k].dev == bufs[k].dev && bufs'[k].blockno == bufs[k].blockno
    ensures forall b: nat :: Has(bufs', b) == Has(bufs, b)
  {
    forall b: nat
      ensures Has(bufs', b) == Has(bufs, b)
    {
      if Has(bufs, b) {
        var k :| 0 <= k < |bufs| && bufs[k].For(b);
        assert bufs'[k].For(b);
      }
    }
  }

  lemma HeadKeeps(bufs: seq<Buf>, bufs': seq<Buf>, i: nat, a: nat)
    requires i < |bufs| == |bufs'| && bufs' == bufs[i := bufs'[i]]
    requires Found(bufs[i], a, bufs) && bufs'[i].For(a) && bufs'[i].refcnt == bufs[i].refcnt
    ensures HasFree(bufs) ==> HasFree(bufs')
    ensures !HasFree(bufs) ==> forall b: nat :: Has(bufs', b) == Has(bufs, b)
  {
    if HasFree(bufs) {
      var k :| 0 <= k < |bufs| && bufs[k].refcnt == 0;
      assert bufs'[k].refcnt == 0;
    } else {
      SameBlocks(bufs, bufs');
    }
  }

  /** A transaction of as many blocks as there are buffers cannot be committed: all of them
      are pinned, and none holds a block of the log. */
  lemma FullCacheCannotCommit(s: Sys, f: Flat)
    requires Inv(s, f) && s.phase.WriteLog? && s.phase.t == 0 && |s.adm.lh| == NBUF
    ensures !CanCommit(s.bufs, s.g, |s.adm.lh|)
  {
    hide LA.Inv;
    AdmDistinct(s.adm);
    var a: nat := s.g.start + 1;
    assert !s.g.Home(|s.disk|, a);
    if Has(s.bufs, a) {
      var to :| 0 <= to < |s.bufs| && s.bufs[to].For(a);
      RoomForOneMore(s.bufs, s.adm.lh, a, to);
    }
    if HasFree(s.bufs) {
      var i: nat :| i < |s.bufs| && s.bufs[i].refcnt == 0;
      PinnedElsewhere(s, f, i);
    }
  }

  /** The pinned blocks are in buffers other than a free one. */
  lemma PinnedElsewhere(s: Sys, f: Flat, i: nat)
    requires Inv(s, f) && s.phase.WriteLog? && i < NBUF && s.bufs[i].refcnt == 0
    ensures |s.adm.lh| < NBUF
  {
    hide PhaseInv, LA.Inv;
    var idx := set k: nat | k < |s.bufs| && k != i && s.bufs[k].dev == ROOTDEV;
    forall b | b in s.adm.lh
      ensures exists k: nat :: k in idx && k < |s.bufs| && s.bufs[k].For(b)
    {
      PinnedInUse(s, f, b);
      var k: nat :| k < |s.bufs| && s.bufs[k].For(b);
      assert k in idx;
    }
    AdmDistinct(s.adm);
    BuffersEnough(s.bufs, s.adm.lh, idx);
    SmallSet(idx + {i}, NBUF);
    assert |idx + {i}| == |idx| + 1;
  }

  lemma AdmDistinct(a: LA.Admission)
    requires LA.Inv(a)
    ensures Distinct(a.lh)
  {
  }

  lemma PinnedInUse(s: Sys, f: Flat, b: nat)
    requires CacheInv(s) && DataInv(s, f) && b in Pinned(s)
    ensures InUse(s.bufs, b)
  {
    var j :| 0 <= j < |s.bufs| && s.bufs[j].valid && s.bufs[j].For(b);
    forall k | 0 <= k < |s.bufs| && s.bufs[k].For(b)
      ensures s.bufs[k].refcnt != 0
    {
      assert BufOk(|s.disk|, Pinned(s), s.bufs[k], s.users[k]);
    }
  }

  /** The disk holds f's current contents and its log is empty. */
  ghost predicate Erased(s: Sys, f: Flat) {
    && s.g.Fits(|s.disk|) && |f.current| == |s.disk|
    && HeaderBlocks(s.disk[s.g.start]) == []
    && forall b: nat :: s.g.Home(|s.disk|, b) ==> s.disk[b] == f.current[b]
  }

  lemma SameErased(s: Sys, f: Flat, f': Flat)
    requires f.current == f'.current
    ensures Erased(s, f) == Erased(s, f')
  {
  }

  lemma DoneFacts(s: Sys, f: Flat)
    requires Inv(s, f) && s.phase.Done?
    ensures s.adm.committing && s.adm.lh == [] && Erased(s, f)
  {
  }

  lemma ActiveFacts(s: Sys, f: Flat, p: nat)
    requires Inv(s, f) && s.adm.Active(p)
    ensures s.phase.Idle? && !s.adm.committing
  {
    UpdateIsIdle(s, f, p);
  }

  lemma EmptyPath(s: Sys, f: Flat)
    ensures Path(s, [], s) && FlatAfter(f, []) == f
  {
  }

  lemma CommitFacts(s: Sys, f: Flat)
    requires Inv(s, f) && !s.phase.Idle?
    ensures s.g.start < |s.disk| && s.adm.committing
  {
  }

  /** With both blocks of log entry t locked, its copy can be made. */
  lemma TurnEnabled(s: Sys, p: nat, l: nat, d: nat, t: nat)
    requires t < |s.adm.lh| && s.g.start + 1 + t < |s.disk| && s.adm.lh[t] < |s.disk|
    requires s.Holds(p, l, s.g.start + 1 + t) && s.Holds(p, d, s.adm.lh[t])
    ensures s.phase == WriteLog(p, t) ==> Enabled(s, CopyToLog(p, l, d))
    ensures s.phase == Install(p, t) ==> Enabled(s, InstallBlock(p, l, d))
  {
  }

  lemma PathStart(s: Sys, e: Event, m: Sys, es: seq<Event>, t: Sys)
    requires Enabled(s, e) && m == Apply(s, e) && Path(m, es, t)
    ensures Path(s, [e] + es, t)
  {
    assert ([e] + es)[1..] == es;
  }

  lemma PathAround(s: Sys, es: seq<Event>, m: Sys, e: Event, m': Sys, es': seq<Event>, t: Sys)
    requires Path(s, es, m) && Enabled(m, e) && m' == Apply(m, e) && Path(m', es', t)
    ensures Path(s, es + [e] + es', t)
  {
    PathStep(s, es, m, e);
    PathJoin(s, es + [e], m', es', t);
  }

  /** Continuing a run by a header write. */
  lemma OnwardHead(s: Sys, f0: Flat, f: Flat, es: seq<Event>, m: Sys,
                   es1: seq<Event>, e: Event, es2: seq<Event>, t: Sys)
    requires Path(s, es, m) && FlatAfter(f0, es) == f && Inv(m, f)
    requires Path(m, es1 + [e] + es2, t) && Quietly(es1) && Quietly(es2) && !e.Update?
    ensures Path(s, es + (es1 + [e] + es2), t)
    ensures Inv(t, FlatApply(f, e))
    ensures FlatAfter(f0, es + (es1 + [e] + es2)) == FlatApply(f, e)
  {
    PathJoin(s, es, m, es1 + [e] + es2, t);
    RunInv(m, f, es1 + [e] + es2);
    FlatJoin(f0, es, es1 + [e] + es2);
    FlatJoin(f, es1 + [e], es2);
    FlatJoin(f, es1, [e]);
    FlatUnmoved(f, es1);
    FlatUnmoved(FlatApply(f, e), es2);
  }

  /** The blocks that the turn for log entry t reads are there to be read. */
  ghost predicate Ready(s: Sys, t: nat) {
    && t < |s.adm.lh| && s.g.start + 1 + t < |s.disk| && s.adm.lh[t] < |s.disk|
    && s.adm.lh[t] != s.g.start + 1 + t && InUse(s.bufs, s.adm.lh[t])
    && forall k :: 0 <= k < |s.bufs| ==> s.bufs[k].refcnt + 1 < UINT_MOD
  }

  lemma LogReady(s: Sys, f: Flat, t: nat)
    requires Inv(s, f) && t < |s.adm.lh| && ((s.phase.WriteLog? || s.phase.Install?) && s.phase.t == t)
    ensures Ready(s, t)
  {
    forall k | 0 <= k < NBUF
      ensures s.bufs[k].refcnt + 1 < UINT_MOD
    {
      assert BufOk(|s.disk|, Pinned(s), s.bufs[k], s.users[k]);
      SmallSet(s.users[k], LA.NPROC);
    }
    assert s.g.Home(|s.disk|, s.adm.lh[t]);
    assert Pinned(s)[if s.phase.Install? then 0 else t] == s.adm.lh[t];
    PinnedInUse(s, f, s.adm.lh[t]);
  }

  lemma Onward(s: Sys, f: Flat, es: seq<Event>, m: Sys, es': seq<Event>, t: Sys)
    requires Path(s, es, m) && Path(m, es', t) && Quietly(es') && Inv(m, f)
    ensures Path(s, es + es', t) && Inv(t, f)
  {
    PathJoin(s, es, m, es', t);
    FlatUnmoved(f, es');
    RunInv(m, f, es');
  }

  /** Buffer x once bget has given it out for block b. */
  function Looked(x: Buf, b: nat): Buf {
    if x.For(b) then x.(refcnt := Inc(x.refcnt))
    else x.(dev := ROOTDEV, blockno := b, valid := false, refcnt := 1)
  }

  /** Buffer x once it is locked by p and filled. */
  function Filled(x: Buf, p: nat, disk: Image): Buf
    requires x.blockno < |disk|
  {
    if x.valid then x.(lock := Held(p)) else x.(lock := Held(p), valid := true, data := disk[x.blockno])
  }

  lemma LookupShape(s: Sys, p: nat, b: nat, i: nat)
    requires Enabled(s, Lookup(p, b, i))
    ensures i < |s.bufs| && i < |s.users| && b < |s.disk| && Found(s.bufs[i], b, s.bufs)
    ensures Apply(s, Lookup(p, b, i)) ==
            s.(bufs := s.bufs[i := Looked(s.bufs[i], b)], users := s.users[i := s.users[i] + {p}])
    ensures Path(s, [Lookup(p, b, i)], Apply(s, Lookup(p, b, i)))
  {
    PathStep(s, [], s, Lookup(p, b, i));
    assert [] + [Lookup(p, b, i)] == [Lookup(p, b, i)];
  }

  lemma QuietSteps(p: nat, b: nat, i: nat)
    ensures Quietly([]) && Quietly([Lookup(p, b, i)])
  {
  }

  lemma BreadPath(s: Sys, p: nat, b: nat, i: nat) returns (es: seq<Event>)
    requires Enabled(s, Lookup(p, b, i)) && s.bufs[i].lock.Free?
    ensures Quietly(es)
    ensures i < |s.bufs| && i < |s.users| && Looked(s.bufs[i], b).blockno < |s.disk|
    ensures Path(s, es, s.(bufs := s.bufs[i := Filled(Looked(s.bufs[i], b), p, s.disk)],
                           users := s.users[i := s.users[i] + {p}]))
  {
    LookupShape(s, p, b, i);
    hide Path;
    var m := Apply(s, Lookup(p, b, i));
    es := [Lookup(p, b, i)];
    PathStep(s, es, m, Lock(p, i));
    var m' := Apply(m, Lock(p, i));
    es := es + [Lock(p, i)];
    if !m.bufs[i].valid {
      PathStep(s, es, m', Fill(p, i));
      es := es + [Fill(p, i)];
    }
  }

  lemma BrelsePath(s: Sys, p: nat, i: nat)
    requires i < |s.bufs| == |s.users| && s.bufs[i].lock == Held(p) && p in s.users[i]
    ensures Path(s, [Unlock(p, i), Deref(p, i)],
                 s.(bufs := s.bufs[i := s.bufs[i].(lock := Free, refcnt := Dec(s.bufs[i].refcnt))],
                    users := s.users[i := s.users[i] - {p}]))
  {
    PathStep(s, [], s, Unlock(p, i));
    assert [] + [Unlock(p, i)] == [Unlock(p, i)];
    PathStep(s, [Unlock(p, i)], Apply(s, Unlock(p, i)), Deref(p, i));
    assert [Unlock(p, i)] + [Deref(p, i)] == [Unlock(p, i), Deref(p, i)];
  }

  function LogWritten(s: Sys, p: nat, i: nat, b: nat, data: Block): Sys
    requires i < |s.bufs| && s.adm.Active(p)
  {
    var buf := s.bufs[i].(data := data);
    if b in s.adm.lh then s.(bufs := s.bufs[i := buf])
    else s.(bufs := s.bufs[i := buf.(refcnt := Inc(buf.refcnt))],
            adm := s.adm.(lh := s.adm.lh + [b], used := s.adm.used[p := s.adm.used[p] + 1]))
  }

  lemma LogWritePath(s: Sys, p: nat, i: nat, b: nat, data: Block)
    requires Enabled(s, TestLog(p)) && s.Holds(p, i, b) && s.g.Home(|s.disk|, b)
    requires b in s.adm.lh || s.adm.used[p] < MAXOPBLOCKS
    ensures Path(s, [TestLog(p), Update(p, i, b, data)], LogWritten(s, p, i, b, data))
  {
    var t := Apply(s, TestLog(p));
    PathStep(s, [], s, TestLog(p));
    assert [] + [TestLog(p)] == [TestLog(p)];
    PathStep(s, [TestLog(p)], t, Update(p, i, b, data));
    assert [TestLog(p)] + [Update(p, i, b, data)] == [TestLog(p), Update(p, i, b, data)];
    assert t.adm.passed - {p} == s.adm.passed;
  }

  lemma {:induction false} FirstSlot(bs: seq<nat>, b: nat, i: nat)
    requires i <= |bs| && b !in bs[..i] && (i < |bs| ==> bs[i] == b)
    ensures Slot(bs, b) == i
  {
    if i > 0 {
      assert bs[0] == bs[..i][0];
      FirstSlot(bs[1..], b, i - 1);
    }
  }
}
