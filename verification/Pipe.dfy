/** The pipe: a ring of PIPESIZE bytes between two 32-bit counters that wrap around. */
module Pipe {
  import opened Common

  const PIPESIZE: nat := 512
  const WRAP: nat := UINT_MOD            // nread and nwrite are uints

  function Inc(n: nat): (m: nat) { (n + 1) % WRAP }

  /** How a writer leaves the pipe: done, refused, or asleep at byte i. */
  datatype WriteEnd = Wrote(i: int) | Refused | SleepAt(i: int)

  /** How a reader leaves it. */
  datatype ReadEnd = Read | Killed | SleepEmpty

  /** Counters at w and r bytes, and the q bytes between them. */
  predicate Between(r: nat, w: nat, q: nat) {
    r < WRAP && w < WRAP && q <= PIPESIZE && w == (r + q) % WRAP
  }

  lemma FullIff(r: nat, w: nat, q: nat)
    requires Between(r, w, q)
    ensures w == (r + PIPESIZE) % WRAP <==> q == PIPESIZE
    ensures r == w <==> q == 0
  {
  }

  lemma Enqueued(r: nat, w: nat, q: nat)
    requires Between(r, w, q) && q < PIPESIZE
    ensures Between(r, Inc(w), q + 1)
  {
  }

  lemma Dequeued(r: nat, w: nat, q: nat)
    requires Between(r, w, q) && q > 0
    ensures Between(Inc(r), w, q - 1)
  {
  }

  /** The ring position k bytes on. */
  function Slot(r: nat, k: nat): (i: nat)
    ensures i < PIPESIZE
  {
    (r + k) % PIPESIZE
  }

  lemma SlotOfEnd(r: nat, w: nat, q: nat)
    requires Between(r, w, q)
    ensures w % PIPESIZE == Slot(r, q)
  {
  }

  lemma SlotShift(r: nat, k: nat)
    requires r < WRAP
    ensures Slot(Inc(r), k) == Slot(r, k + 1)
  {
  }

  lemma SlotsDiffer(r: nat, j: nat, k: nat)
    requires j < k < PIPESIZE
    ensures Slot(r, j) != Slot(r, k)
  {
  }

  // ----- an unbounded queue

  /** One critical section: some bytes go in at the end, or some come out at the front, of
      which lost (at most one) never reach a user; or an end is closed. */
  datatype Op = In(bytes: seq<Byte>) | Out(got: seq<Byte>, lost: seq<Byte>) | Close(writable: bool)

  /** ops take an unbounded queue from q to q'. */
  ghost predicate Queues(q: seq<Byte>, ops: seq<Op>, q': seq<Byte>)
    decreases |ops|
  {
    if ops == [] then q' == q
    else match ops[0]
         case In(b) => Queues(q + b, ops[1..], q')
         case Out(g, l) => g + l <= q && Queues(q[|g + l|..], ops[1..], q')
         case Close(_) => Queues(q, ops[1..], q')
  }

  lemma {:induction false} QueuesMore(q: seq<Byte>, ops: seq<Op>, q': seq<Byte>, op: Op, q'': seq<Byte>)
    requires Queues(q, ops, q') && Queues(q', [op], q'')
    ensures Queues(q, ops + [op], q'')
    decreases |ops|
  {
    if ops == [] {
      assert ops + [op] == [op];
    } else {
      assert (ops + [op])[1..] == ops[1..] + [op];
      match ops[0]
      case In(b) => QueuesMore(q + b, ops[1..], q', op, q'');
      case Out(g, l) => QueuesMore(q[|g + l|..], ops[1..], q', op, q'');
      case Close(_) => QueuesMore(q, ops[1..], q', op, q'');
    }
  }

  ghost function AllIn(ops: seq<Op>): (s: seq<Byte>) {
    if ops == [] then [] else (if ops[0].In? then ops[0].bytes else []) + AllIn(ops[1..])
  }

  ghost function AllOut(ops: seq<Op>): (s: seq<Byte>) {
    if ops == [] then [] else (if ops[0].Out? then ops[0].got + ops[0].lost else []) + AllOut(ops[1..])
  }

  /** However writers and readers interleave: what has come out, followed by what is still
      inside, is what has gone in, in the same order. */
  lemma {:induction false} FirstInFirstOut(q: seq<Byte>, ops: seq<Op>, q': seq<Byte>)
    requires Queues(q, ops, q')
    ensures AllOut(ops) + q' == q + AllIn(ops)
    decreases |ops|
  {
    if ops == [] {
    } else {
      var rest := ops[1..];
      AllOfFirst(ops);
      hide AllIn, AllOut;
      match ops[0]
      case In(b) =>
        FirstInFirstOut(q + b, rest, q');
        Regroup(q, b, AllIn(rest));
      case Out(g, l) =>
        FirstInFirstOut(q[|g + l|..], rest, q');
        TakenFirst(g + l, q, AllOut(rest), AllIn(rest), q');
      case Close(_) =>
        FirstInFirstOut(q, rest, q');
    }
  }

  lemma AllOfFirst(ops: seq<Op>)
    requires ops != []
    ensures AllIn(ops) == if ops[0].In? then ops[0].bytes + AllIn(ops[1..]) else AllIn(ops[1..])
    ensures AllOut(ops) == if ops[0].Out? then ops[0].got + ops[0].lost + AllOut(ops[1..]) else AllOut(ops[1..])
  {
  }

  lemma TakenFirst(d: seq<Byte>, q: seq<Byte>, out: seq<Byte>, more: seq<Byte>, q': seq<Byte>)
    requires d <= q && out + q' == q[|d|..] + more
    ensures d + out + q' == q + more
  {
    Regroup(d, out, q');
    Regroup(d, q[|d|..], more);
    assert q == d + q[|d|..];
  }

  lemma Regroup(a: seq<Byte>, b: seq<Byte>, c: seq<Byte>)
    ensures a + b + c == a + (b + c)
  {
  }

  class PipeBuffer {
    const data: array<Byte>
    var nread: nat
    var nwrite: nat
    var readopen: bool
    var writeopen: bool
    ghost var q: seq<Byte>          // the bytes in the pipe
    ghost var log: seq<Op>          // what has been done to it

    /** The ring holds q. */
    ghost predicate Ring()
      reads this, data
    {
      && data.Length == PIPESIZE && Between(nread, nwrite, |q|)
      && forall k: nat :: k < |q| ==> data[Slot(nread, k)] == q[k]
    }

    /** And q is what the operations so far leave in an unbounded queue. */
    ghost predicate Valid()
      reads this, data
    {
      Ring() && Queues([], log, q)
    }

    constructor ()
      ensures Valid() && fresh(data) && q == [] && log == [] && readopen && writeopen
    {
      data := new Byte[PIPESIZE](_ => 0);
      nread, nwrite, readopen, writeopen, q, log := 0, 0, true, true, [], [];
    }

    /** pi->data[pi->nwrite++ % PIPESIZE] = ch. */
    method Put(ch: Byte)
      requires Ring() && |q| < PIPESIZE
      modifies data, this`nwrite, this`q
      ensures Ring() && q == old(q) + [ch]
    {
      SlotOfEnd(nread, nwrite, |q|);
      Enqueued(nread, nwrite, |q|);
      forall k: nat | k < |q|
        ensures Slot(nread, k) != Slot(nread, |q|)
      {
        SlotsDiffer(nread, k, |q|);
      }
      data[nwrite % PIPESIZE] := ch;
      nwrite := Inc(nwrite);
      q := q + [ch];
    }

    /** ch = pi->data[pi->nread++ % PIPESIZE]. */
    method Get() returns (ch: Byte)
      requires Ring() && q != []
      modifies this`nread, this`q
      ensures Ring() && ch == old(q)[0] && q == old(q)[1..]
    {
      Dequeued(nread, nwrite, |q|);
      forall k: nat | k < |q| - 1
        ensures Slot(Inc(nread), k) == Slot(nread, k + 1)
      {
        SlotShift(nread, k);
      }
      assert Slot(nread, 0) == nread % PIPESIZE;
      ch := data[nread % PIPESIZE];
      nread := Inc(nread);
      q := q[1..];
    }

    /** pipewrite while it holds the lock, from byte i on; i is not 0 when it has slept.
        The user's bytes are src; if there are fewer than n, copyin fails after them.  What
        it puts in is as much of src as fits; it sleeps, or is refused, exactly when the
        pipe is full with bytes left. */
    method PipeWrite(src: seq<Byte>, n: int, i: nat, killed: bool) returns (e: WriteEnd, ghost k: nat)
      requires Valid() && i <= |src| <= (if n > 0 then n else 0)
      modifies data, this`nwrite, this`q, this`log
      ensures Valid() && i <= k <= |src| && q == old(q) + src[i..k] && log == old(log) + [In(src[i..k])]
      ensures k - i == Min(|src| - i, PIPESIZE - |old(q)|)
      ensures e.Wrote? <==> k >= n || (k == |src| && |q| < PIPESIZE)
      ensures e.Refused? <==> k < n && |q| == PIPESIZE && (!readopen || killed)
      ensures e.SleepAt? <==> k < n && |q| == PIPESIZE && readopen && !killed
      ensures !e.Refused? ==> e.i == k
    {
      e, k := Fill(src, n, i, killed);
      QueuesMore([], log, old(q), In(src[i..k]), q);
      log := log + [In(src[i..k])];
    }

    /** The loop of pipewrite. */
    method Fill(src: seq<Byte>, n: int, i: nat, killed: bool) returns (e: WriteEnd, ghost k: nat)
      requires Ring() && i <= |src| <= (if n > 0 then n else 0)
      modifies data, this`nwrite, this`q
      ensures Ring() && i <= k <= |src| && q == old(q) + src[i..k]
      ensures k - i == Min(|src| - i, PIPESIZE - |old(q)|)
      ensures e.Wrote? <==> k >= n || (k == |src| && |q| < PIPESIZE)
      ensures e.Refused? <==> k < n && |q| == PIPESIZE && (!readopen || killed)
      ensures e.SleepAt? <==> k < n && |q| == PIPESIZE && readopen && !killed
      ensures !e.Refused? ==> e.i == k
    {
      var j := i;
      while j < n
        invariant Ring() && i <= j <= |src| && q == old(q) + src[i..j]
      {
        FullIff(nread, nwrite, |q|);
        if nwrite == (nread + PIPESIZE) % WRAP {
          if !readopen || killed {
            return Refused, j;
          }
          return SleepAt(j), j;
        }
        if j == |src| {
          break;
        }
        Put(src[j]);
        assert src[i..j] + [src[j]] == src[i..j + 1];
        j := j + 1;
      }
      return Wrote(j), j;
    }

    /** piperead while it holds the lock.  copyout fails after room bytes.  The bytes it
        delivers are the oldest ones, in order; when copyout fails, the byte it failed on
        has been taken out as well.  Unless copyout fails at once, a read of n > 0 bytes
        delivers none only when the writer is closed and every byte has been taken out. */
    method PipeRead(n: int, room: nat, killed: bool) returns (e: ReadEnd, out: seq<Byte>, ghost lost: seq<Byte>)
      requires Valid()
      modifies this`nread, this`q, this`log
      ensures Valid()
      ensures e.SleepEmpty? <==> old(q) == [] && writeopen && !killed
      ensures e.Killed? <==> old(q) == [] && writeopen && killed
      ensures !e.Read? ==> q == old(q) && log == old(log) && out == []
      ensures e.Read? ==> old(q) == out + lost + q && log == old(log) + [Out(out, lost)]
      ensures e.Read? ==> |out| == Min(Min(if n > 0 then n else 0, room), |old(q)|)
      ensures e.Read? ==> |lost| == if |out| == room && room < n && room < |old(q)| then 1 else 0
      ensures e.Read? && out == [] && n > 0 && room > 0 ==> !writeopen && old(q) == [] && AllOut(log) == AllIn(log)
    {
      ghost var q0 := q;
      FullIff(nread, nwrite, |q|);
      if nread == nwrite && writeopen {
        return if killed then Killed else SleepEmpty, [], [];
      }
      out, lost := Drain(n, room);
      e := Read;
      assert out + lost <= q0 && q0[|out + lost|..] == q;
      QueuesMore([], log, q0, Out(out, lost), q);
      log := log + [Out(out, lost)];
      FirstInFirstOut([], log, q);
      assert [] + AllIn(log) == AllIn(log);
      assert q == [] ==> AllOut(log) + q == AllOut(log);
    }

    lemma EmptyIff()
      requires Ring()
      ensures nread == nwrite <==> q == []
    {
      FullIff(nread, nwrite, |q|);
    }

    /** The loop of piperead. */
    method Drain(n: int, room: nat) returns (out: seq<Byte>, ghost lost: seq<Byte>)
      requires Ring()
      modifies this`nread, this`q
      ensures Ring() && old(q) == out + lost + q
      ensures |out| == Min(Min(if n > 0 then n else 0, room), |old(q)|)
      ensures |lost| == if |out| == room && room < n && room < |old(q)| then 1 else 0
    {
      hide Ring;
      out, lost := [], [];
      var i := 0;
      while i < n
        invariant Ring() && 0 <= i == |out| <= |old(q)| && i <= room && i <= (if n > 0 then n else 0)
        invariant old(q) == out + q
      {
        EmptyIff();
        if nread == nwrite {
          break;
        }
        ghost var q1 := q;
        var ch := Get();
        assert q1 == [ch] + q;
        if i == room {
          lost := [ch];
          break;
        }
        assert out + q1 == out + [ch] + q;
        out := out + [ch];
        i := i + 1;
      }
    }

    /** pipeclose; true when both ends are closed and the page is freed. */
    method PipeClose(writable: bool) returns (freed: bool)
      requires Valid()
      modifies this`readopen, this`writeopen, this`log
      ensures Valid() && q == old(q) && log == old(log) + [Close(writable)]
      ensures writeopen == (old(writeopen) && !writable) && readopen == (old(readopen) && writable)
      ensures freed <==> !readopen && !writeopen
    {
      QueuesMore([], log, q, Close(writable), q);
      log := log + [Close(writable)];
      if writable {
        writeopen := false;
      } else {
        readopen := false;
      }
      freed := !readopen && !writeopen;
    }
  }
}
