/** The Kernighan and Ritchie allocator.  Addresses are counted in headers; memory is a
    map from addresses to headers.  The free list is kept as the program keeps it, through
    the headers' pointers, beside a ghost sequence of its blocks in address order. */
module FreeList {
  datatype Header = Header(ptr: nat, size: nat)
  type Memory = map<nat, Header>

  /** The block after position k, going round at the end. */
  function After(free: seq<nat>, k: nat): (a: nat)
    requires k < |free|
  {
    if k + 1 < |free| then free[k + 1] else free[0]
  }

  /** The headers of `free` form one ring in that order. */
  ghost predicate Ring(mem: Memory, free: seq<nat>) {
    && free != []
    && (forall k :: 0 <= k < |free| ==> free[k] in mem)
    && forall k {:trigger After(free, k)} :: 0 <= k < |free| ==> mem[free[k]].ptr == After(free, k)
  }

  ghost predicate Rising(free: seq<nat>) {
    forall i, j :: 0 <= i < j < |free| ==> free[i] < free[j]
  }

  /** Address order without overlap.  The first block is `base`, the only one of size 0. */
  ghost predicate Ordered(mem: Memory, free: seq<nat>) {
    && free != [] && Rising(free)
    && (forall k :: 0 <= k < |free| ==> free[k] in mem)
    && mem[free[0]].size == 0
    && (forall k :: 1 <= k < |free| ==> mem[free[k]].size > 0)
    && forall k {:trigger After(free, k)} :: 0 <= k < |free| - 1 ==> free[k] + mem[free[k]].size <= After(free, k)
  }

  /** Block k ends where block k + 1 starts. */
  predicate Touching(mem: Memory, free: seq<nat>, k: nat)
    requires forall k :: 0 <= k < |free| ==> free[k] in mem
  {
    k + 1 < |free| && free[k] + mem[free[k]].size == free[k + 1]
  }

  /** No two neighbours could be merged. */
  ghost predicate Coalesced(mem: Memory, free: seq<nat>)
    requires forall k :: 0 <= k < |free| ==> free[k] in mem
  {
    forall k: nat :: !Touching(mem, free, k)
  }

  predicate InBlock(a: nat, n: nat, u: nat) {
    a <= u < a + n
  }

  predicate Apart(a: nat, n: nat, b: nat, m: nat) {
    a + n <= b || b + m <= a
  }

  /** Unit u lies in a free block. */
  ghost predicate IsFree(mem: Memory, free: seq<nat>, u: nat) {
    exists k :: 0 <= k < |free| && free[k] in mem && InBlock(free[k], mem[free[k]].size, u)
  }

  ghost predicate IsUsed(used: map<nat, nat>, u: nat) {
    exists a :: a in used && InBlock(a, used[a], u)
  }

  /** Every unit supplied is in exactly one block, free or in use. */
  ghost predicate Tiled(mem: Memory, free: seq<nat>, used: map<nat, nat>, supplied: set<nat>) {
    && (forall a :: a in used ==> a in mem && mem[a].size == used[a] && used[a] > 0 && a !in free)
    && (forall u: nat :: u in supplied <==> IsFree(mem, free, u) || IsUsed(used, u))
    && (forall u: nat :: !(IsFree(mem, free, u) && IsUsed(used, u)))
    && (forall a, b :: a in used && b in used && a != b ==> Apart(a, used[a], b, used[b]))
  }

  /** A block clear of every free block and above base. */
  ghost predicate Clear(mem: Memory, free: seq<nat>, b: nat, n: nat) {
    && free != [] && free[0] < b && n > 0
    && forall k :: 0 <= k < |free| && free[k] in mem ==> Apart(b, n, free[k], mem[free[k]].size) && free[k] != b
  }

  /** The position whose successor is the first free block beyond b. */
  ghost predicate Precedes(free: seq<nat>, j: nat, b: nat) {
    j < |free| && free[j] < b && forall k :: j < k < |free| ==> b < free[k]
  }

  // ----- the two edits that free() is made of

  /** b linked in after p. */
  function Link(mem: Memory, p: nat, b: nat): (r: Memory)
    requires b in mem && p in mem
  {
    mem[b := Header(mem[p].ptr, mem[b].size)][p := Header(b, mem[p].size)]
  }

  /** a takes in the block its pointer leads to. */
  function Absorb(mem: Memory, a: nat): (r: Memory)
    requires a in mem && mem[a].ptr in mem
  {
    var n := mem[mem[a].ptr];
    mem[a := Header(n.ptr, mem[a].size + n.size)]
  }

  function Insert(free: seq<nat>, i: nat, b: nat): (r: seq<nat>)
    requires i <= |free|
    ensures |r| == |free| + 1 && r[i] == b
    ensures forall k {:trigger r[k]} :: 0 <= k < i ==> r[k] == free[k]
    ensures forall k {:trigger r[k]} :: i < k < |r| ==> r[k] == free[k - 1]
  {
    free[..i] + [b] + free[i..]
  }

  function Remove(free: seq<nat>, i: nat): (r: seq<nat>)
    requires i < |free|
    ensures |r| == |free| - 1
    ensures forall k {:trigger r[k]} :: 0 <= k < i ==> r[k] == free[k]
    ensures forall k {:trigger r[k]} :: i <= k < |r| ==> r[k] == free[k + 1]
  {
    free[..i] + free[i + 1..]
  }

  lemma LinkRing(mem: Memory, free: seq<nat>, j: nat, b: nat)
    requires Ring(mem, free) && Rising(free) && b in mem && j < |free| && b !in free
    ensures Ring(Link(mem, free[j], b), Insert(free, j + 1, b))
  {
    hide Insert;
    var mem', free' := Link(mem, free[j], b), Insert(free, j + 1, b);
    forall k | 0 <= k < |free'|
      ensures free'[k] in mem' && mem'[free'[k]].ptr == After(free', k)
    {
      if k < j {
        assert free[k] < free[j] && mem'[free[k]] == mem[free[k]];
        assert mem[free[k]].ptr == After(free, k);
      } else if k > j + 1 {
        assert free'[k] == free[k - 1] && free[j] < free[k - 1];
        assert mem[free[k - 1]].ptr == After(free, k - 1);
      } else {
        assert mem[free[j]].ptr == After(free, j);
      }
    }
  }

  lemma AbsorbRing(mem: Memory, free: seq<nat>, i: nat)
    requires Ring(mem, free) && Rising(free) && i + 1 < |free|
    ensures mem[free[i]].ptr == free[i + 1] && Ring(Absorb(mem, free[i]), Remove(free, i + 1))
  {
    hide Remove;
    assert mem[free[i]].ptr == After(free, i);
    assert mem[free[i + 1]].ptr == After(free, i + 1);
    var mem', free' := Absorb(mem, free[i]), Remove(free, i + 1);
    forall k | 0 <= k < |free'|
      ensures free'[k] in mem' && mem'[free'[k]].ptr == After(free', k)
    {
      if k < i {
        assert free[k] < free[i];
        assert mem[free[k]].ptr == After(free, k);
      } else if k > i {
        assert free'[k] == free[k + 1] && free[i] < free[k + 1];
        assert mem[free[k + 1]].ptr == After(free, k + 1);
      }
    }
  }

  lemma InsertRising(free: seq<nat>, j: nat, b: nat)
    requires Rising(free) && Precedes(free, j, b)
    ensures Rising(Insert(free, j + 1, b))
  {
    hide Insert;
    var free' := Insert(free, j + 1, b);
    forall i, k | 0 <= i < k < |free'|
      ensures free'[i] < free'[k]
    {
      assert i <= j ==> free'[i] == free[i] <= free[j];
      assert j + 1 < k ==> free'[k] == free[k - 1];
    }
  }

  lemma LinkOrdered(mem: Memory, free: seq<nat>, j: nat, b: nat)
    requires Ordered(mem, free) && b in mem && Clear(mem, free, b, mem[b].size) && Precedes(free, j, b)
    ensures Ordered(Link(mem, free[j], b), Insert(free, j + 1, b))
  {
    InsertRising(free, j, b);
    hide Insert, Rising;
    var mem', free' := Link(mem, free[j], b), Insert(free, j + 1, b);
    assert b !in free;
    assert Apart(b, mem[b].size, free[j], mem[free[j]].size);
    assert j + 1 < |free| ==> Apart(b, mem[b].size, free[j + 1], mem[free[j + 1]].size);
    hide Clear, Precedes;
    forall k | 0 <= k < |free'|
      ensures free'[k] in mem' && (k > 0 ==> mem'[free'[k]].size > 0)
      ensures k + 1 < |free'| ==> free'[k] + mem'[free'[k]].size <= After(free', k)
    {
      if k < j {
        assert free'[k] == free[k] && mem'[free[k]].size == mem[free[k]].size;
        assert free[k] + mem[free[k]].size <= After(free, k);
      } else if k > j + 1 {
        assert free'[k] == free[k - 1] && mem'[free[k - 1]].size == mem[free[k - 1]].size;
        assert k < |free| ==> free[k - 1] + mem[free[k - 1]].size <= After(free, k - 1);
      }
    }
  }

  lemma LinkTouching(mem: Memory, free: seq<nat>, j: nat, b: nat, k: nat)
    requires Ordered(mem, free) && b in mem && Clear(mem, free, b, mem[b].size) && Precedes(free, j, b)
    requires Coalesced(mem, free)
    ensures var mem', free' := Link(mem, free[j], b), Insert(free, j + 1, b);
            && (forall i :: 0 <= i < |free'| ==> free'[i] in mem')
            && (Touching(mem', free', k) ==> k == j || k == j + 1)
  {
    hide Insert;
    var free' := Insert(free, j + 1, b);
    if k < j {
      assert free[k] < free[j] && !Touching(mem, free, k);
    } else if j + 1 < k < |free| {
      assert free[j] < free[k - 1] && !Touching(mem, free, k - 1);
    }
  }

  lemma AbsorbOrdered(mem: Memory, free: seq<nat>, i: nat)
    requires Ring(mem, free) && Ordered(mem, free) && 0 < i < |free| - 1 && Touching(mem, free, i)
    ensures mem[free[i]].ptr == free[i + 1] && Ordered(Absorb(mem, free[i]), Remove(free, i + 1))
  {
    hide Remove;
    assert mem[free[i]].ptr == After(free, i);
    var mem', free' := Absorb(mem, free[i]), Remove(free, i + 1);
    forall k | 0 <= k < |free'|
      ensures free'[k] in mem' && (k > 0 ==> mem'[free'[k]].size > 0)
      ensures k + 1 < |free'| ==> free'[k] + mem'[free'[k]].size <= After(free', k)
    {
      if k < i {
        assert free[k] < free[i];
        assert free[k] + mem[free[k]].size <= After(free, k);
      } else {
        assert k > i ==> free'[k] == free[k + 1] && free[i] < free[k + 1];
        assert k + 2 < |free| ==> free[k + 1] + mem[free[k + 1]].size <= After(free, k + 1);
      }
    }
  }

  lemma AbsorbTouching(mem: Memory, free: seq<nat>, i: nat, k: nat)
    requires Ring(mem, free) && Ordered(mem, free) && 0 < i < |free| - 1 && Touching(mem, free, i)
    ensures mem[free[i]].ptr == free[i + 1]
    ensures var mem', free' := Absorb(mem, free[i]), Remove(free, i + 1);
            && (forall i :: 0 <= i < |free'| ==> free'[i] in mem')
            && (Touching(mem', free', k) <==> Touching(mem, free, if k < i then k else k + 1))
  {
    hide Remove;
    assert mem[free[i]].ptr == After(free, i);
    var free' := Remove(free, i + 1);
    if k < i {
      assert free[k] < free[i];
    } else if i < k < |free'| {
      assert free'[k] == free[k + 1] && free[i] < free[k + 1];
    }
  }

  // ----- the units that are free

  lemma LinkUnits(mem: Memory, free: seq<nat>, j: nat, b: nat, u: nat)
    requires Ordered(mem, free) && b in mem && j < |free| && b !in free
    ensures IsFree(Link(mem, free[j], b), Insert(free, j + 1, b), u)
            <==> IsFree(mem, free, u) || InBlock(b, mem[b].size, u)
  {
    hide Insert;
    var mem', free' := Link(mem, free[j], b), Insert(free, j + 1, b);
    if IsFree(mem, free, u) {
      var k :| 0 <= k < |free| && free[k] in mem && InBlock(free[k], mem[free[k]].size, u);
      var k' := if k <= j then k else k + 1;
      assert free'[k'] == free[k] && InBlock(free'[k'], mem'[free'[k']].size, u);
    }
    if InBlock(b, mem[b].size, u) {
      assert free'[j + 1] == b && InBlock(free'[j + 1], mem'[free'[j + 1]].size, u);
    }
    if IsFree(mem', free', u) {
      var k' :| 0 <= k' < |free'| && free'[k'] in mem' && InBlock(free'[k'], mem'[free'[k']].size, u);
      if k' != j + 1 {
        var k := if k' <= j then k' else k' - 1;
        assert free[k] == free'[k'] && InBlock(free[k], mem[free[k]].size, u);
      }
    }
  }

  lemma AbsorbUnits(mem: Memory, free: seq<nat>, i: nat, u: nat)
    requires Ring(mem, free) && Ordered(mem, free) && 0 < i < |free| - 1 && Touching(mem, free, i)
    ensures mem[free[i]].ptr == free[i + 1]
    ensures IsFree(Absorb(mem, free[i]), Remove(free, i + 1), u) <==> IsFree(mem, free, u)
  {
    hide Remove;
    assert mem[free[i]].ptr == After(free, i);
    var mem', free' := Absorb(mem, free[i]), Remove(free, i + 1);
    if IsFree(mem, free, u) {
      var k :| 0 <= k < |free| && free[k] in mem && InBlock(free[k], mem[free[k]].size, u);
      var k' := if k <= i then k else k - 1;
      assert k < i ==> free[k] < free[i];
      assert k > i + 1 ==> free[i] < free[k];
      assert InBlock(free'[k'], mem'[free'[k']].size, u);
    }
    if IsFree(mem', free', u) {
      var k' :| 0 <= k' < |free'| && free'[k'] in mem' && InBlock(free'[k'], mem'[free'[k']].size, u);
      if k' == i {
        assert InBlock(free[i], mem[free[i]].size, u) || InBlock(free[i + 1], mem[free[i + 1]].size, u);
      } else {
        var k := if k' < i then k' else k' + 1;
        assert free[k] == free'[k'] && (k' < i ==> free[k] < free[i]) && (k' > i ==> free[i] < free[k]);
        assert InBlock(free[k], mem[free[k]].size, u);
      }
    }
  }

  lemma AbsorbHas(mem: Memory, free: seq<nat>, i: nat, b: nat, n: nat)
    requires Ring(mem, free) && Ordered(mem, free) && 0 < i < |free| - 1 && Touching(mem, free, i)
    requires HasBlock(mem, free, b, n)
    ensures mem[free[i]].ptr == free[i + 1]
    ensures HasBlock(Absorb(mem, free[i]), Remove(free, i + 1), b, n)
  {
    hide Remove;
    assert mem[free[i]].ptr == After(free, i);
    var mem', free' := Absorb(mem, free[i]), Remove(free, i + 1);
    var k :| 0 <= k < |free| && free[k] in mem && free[k] <= b && b + n <= free[k] + mem[free[k]].size;
    var k' := if k <= i then k else k - 1;
    assert k < i ==> free[k] < free[i];
    assert k > i + 1 ==> free[i] < free[k];
    assert free'[k'] in mem' && free'[k'] <= b && b + n <= free'[k'] + mem'[free'[k']].size;
  }

  /** The largest position whose block is below b. */
  ghost function Below(free: seq<nat>, b: nat): (j: nat)
    requires free != [] && free[0] < b && Rising(free)
    ensures Precedes'(free, j, b)
  {
    var last := |free| - 1;
    if free[last] < b then last else Below(free[..last], b)
  }

  ghost predicate Precedes'(free: seq<nat>, j: nat, b: nat) {
    j < |free| && free[j] < b && forall k :: j < k < |free| ==> b <= free[k]
  }

  // ----- all of free()

  /** The headers of b and of its predecessor p once free() has linked b in. */
  function HeaderOfFreed(mem: Memory, p: nat, b: nat): (h: Header)
    requires p in mem && b in mem && mem[p].ptr in mem
  {
    var q := mem[p].ptr;
    if b + mem[b].size == q then Header(mem[q].ptr, mem[b].size + mem[q].size) else Header(q, mem[b].size)
  }

  function HeaderOfPrev(mem: Memory, p: nat, b: nat): (h: Header)
    requires p in mem && b in mem && mem[p].ptr in mem
  {
    var hb := HeaderOfFreed(mem, p, b);
    if p + mem[p].size == b then Header(hb.ptr, mem[p].size + hb.size) else Header(b, mem[p].size)
  }

  function Freed(mem: Memory, p: nat, b: nat): (r: Memory)
    requires p in mem && b in mem && mem[p].ptr in mem
  {
    mem[b := HeaderOfFreed(mem, p, b)][p := HeaderOfPrev(mem, p, b)]
  }

  /** A well-formed list whose free units are those of the first list and of block b. */
  ghost predicate Settled(mem0: Memory, free0: seq<nat>, b: nat, n: nat, mem: Memory, free: seq<nat>) {
    && Ring(mem, free) && Ordered(mem, free)
    && free0 != [] && free[0] == free0[0]
    && (forall k :: 0 <= k < |free| ==> free[k] in free0 || free[k] == b)
    && (forall a :: a in mem0 ==> a in mem)
    && (forall a :: a in mem0 && a !in free0 && a != b ==> mem[a] == mem0[a])
    && (forall u: nat :: IsFree(mem, free, u) <==> IsFree(mem0, free0, u) || InBlock(b, n, u))
    && HasBlock(mem, free, b, n)
  }

  /** Some free block contains all of [b, b + n). */
  ghost predicate HasBlock(mem: Memory, free: seq<nat>, b: nat, n: nat) {
    exists k :: 0 <= k < |free| && free[k] in mem && free[k] <= b && b + n <= free[k] + mem[free[k]].size
  }

  /** Only these two positions may touch their successors. */
  ghost predicate TouchOnly(mem: Memory, free: seq<nat>, i: nat, j: nat)
    requires forall k :: 0 <= k < |free| ==> free[k] in mem
  {
    forall k: nat :: Touching(mem, free, k) ==> k == i || k == j
  }

  lemma SettleLink(mem: Memory, free: seq<nat>, j: nat, b: nat)
    requires Ring(mem, free) && Ordered(mem, free) && Coalesced(mem, free) && b in mem && b !in free
    requires Clear(mem, free, b, mem[b].size) && Precedes(free, j, b)
    ensures Settled(mem, free, b, mem[b].size, Link(mem, free[j], b), Insert(free, j + 1, b))
    ensures TouchOnly(Link(mem, free[j], b), Insert(free, j + 1, b), j, j + 1)
  {
    var mem', free' := Link(mem, free[j], b), Insert(free, j + 1, b);
    LinkRing(mem, free, j, b);
    LinkOrdered(mem, free, j, b);
    assert free'[j + 1] == b;
    assert HasBlock(mem', free', b, mem[b].size);
    forall u: nat
      ensures IsFree(Link(mem, free[j], b), Insert(free, j + 1, b), u)
              <==> IsFree(mem, free, u) || InBlock(b, mem[b].size, u)
    {
      LinkUnits(mem, free, j, b, u);
    }
    forall k: nat
      ensures Touching(mem', free', k) ==> k == j || k == j + 1
    {
      LinkTouching(mem, free, j, b, k);
    }
    hide Ring, Ordered, IsFree, Insert;
  }

  lemma SettleAbsorb(mem0: Memory, free0: seq<nat>, b: nat, n: nat, mem: Memory, free: seq<nat>, i: nat)
    requires Settled(mem0, free0, b, n, mem, free) && 0 < i < |free| - 1 && Touching(mem, free, i)
    requires free[i] in free0 || free[i] == b
    ensures mem[free[i]].ptr == free[i + 1]
    ensures Settled(mem0, free0, b, n, Absorb(mem, free[i]), Remove(free, i + 1))
    ensures TouchOnly(mem, free, i - 1, i) ==> TouchOnly(Absorb(mem, free[i]), Remove(free, i + 1), i - 1, i - 1)
    ensures TouchOnly(mem, free, i, i) ==> Coalesced(Absorb(mem, free[i]), Remove(free, i + 1))
  {
    AbsorbRing(mem, free, i);
    AbsorbOrdered(mem, free, i);
    var mem', free' := Absorb(mem, free[i]), Remove(free, i + 1);
    AbsorbHas(mem, free, i, b, n);
    forall u: nat
      ensures IsFree(mem', free', u) <==> IsFree(mem, free, u)
    {
      AbsorbUnits(mem, free, i, u);
    }
    forall k: nat
      ensures Touching(mem', free', k) <==> Touching(mem, free, if k < i then k else k + 1)
    {
      AbsorbTouching(mem, free, i, k);
    }
    hide Ring, Ordered, IsFree, Remove;
  }

  lemma SettleNext(mem: Memory, free: seq<nat>, j: nat, b: nat) returns (mem': Memory, free': seq<nat>)
    requires Ring(mem, free) && Ordered(mem, free) && Coalesced(mem, free) && b in mem && b !in free
    requires Clear(mem, free, b, mem[b].size) && Precedes(free, j, b)
    ensures mem[free[j]].ptr in mem
    ensures mem' == mem[b := HeaderOfFreed(mem, free[j], b)][free[j] := Header(b, mem[free[j]].size)]
    ensures Settled(mem, free, b, mem[b].size, mem', free') && TouchOnly(mem', free', j, j)
    ensures j + 1 < |free'| && free'[j] == free[j] && free'[j + 1] == b && j < |free| && free[j] in mem
    ensures forall k :: 0 <= k < |free'| ==> free'[k] in mem'
  {
    hide Ring, Ordered, Coalesced, Clear, Precedes, IsFree, Insert, Remove, Settled, TouchOnly, Touching;
    SettleLink(mem, free, j, b);
    NextTouches(mem, free, j, b);
    mem', free' := Link(mem, free[j], b), Insert(free, j + 1, b);
    if b + mem[b].size == mem[free[j]].ptr {
      SettleAbsorb(mem, free, b, mem[b].size, mem', free', j + 1);
      mem', free' := Absorb(mem', free'[j + 1]), Remove(free', j + 2);
    } else {
      TouchLess(mem', free', j);
    }
  }

  lemma NextTouches(mem: Memory, free: seq<nat>, j: nat, b: nat)
    requires Ring(mem, free) && Ordered(mem, free) && b in mem && b !in free
    requires Clear(mem, free, b, mem[b].size) && Precedes(free, j, b)
    ensures j < |free| && free[j] in mem && free[j] != b && mem[free[j]].ptr in mem && mem[free[j]].ptr != b
    ensures var mem', free' := Link(mem, free[j], b), Insert(free, j + 1, b);
            && (forall k :: 0 <= k < |free'| ==> free'[k] in mem')
            && (Touching(mem', free', j + 1) <==> b + mem[b].size == mem[free[j]].ptr)
            && (b + mem[b].size == mem[free[j]].ptr ==>
                  j + 2 < |free'| && free'[j + 2] == mem[free[j]].ptr && free'[j + 2] != free[j])
  {
    hide Insert;
    assert mem[free[j]].ptr == After(free, j);
  }

  lemma TouchLess(mem: Memory, free: seq<nat>, j: nat)
    requires forall k :: 0 <= k < |free| ==> free[k] in mem
    requires TouchOnly(mem, free, j, j + 1) && !Touching(mem, free, j + 1)
    ensures TouchOnly(mem, free, j, j)
  {
  }

  /** free() leaves a well-formed, coalesced list, in which p is still a member. */
  lemma Settle(mem: Memory, free: seq<nat>, j: nat, b: nat) returns (free': seq<nat>)
    requires Ring(mem, free) && Ordered(mem, free) && Coalesced(mem, free) && b in mem && b !in free
    requires Clear(mem, free, b, mem[b].size) && Precedes(free, j, b)
    ensures mem[free[j]].ptr in mem
    ensures Settled(mem, free, b, mem[b].size, Freed(mem, free[j], b), free')
    ensures Coalesced(Freed(mem, free[j], b), free')
    ensures j < |free'| && free'[j] == free[j]
  {
    hide Ring, Ordered, Coalesced, Clear, Precedes, IsFree, Remove, Settled, TouchOnly, Touching;
    var mem1, free1 := SettleNext(mem, free, j, b);
    PrevTouches(mem, free, j, b, mem1, free1);
    if free[j] + mem[free[j]].size == b {
      SettleAbsorb(mem, free, b, mem[b].size, mem1, free1, j);
      free' := Remove(free1, j + 1);
      assert Absorb(mem1, free[j]) == Freed(mem, free[j], b);
    } else {
      free' := free1;
      assert mem1 == Freed(mem, free[j], b);
    }
  }

  lemma PrevTouches(mem: Memory, free: seq<nat>, j: nat, b: nat, mem1: Memory, free1: seq<nat>)
    requires Ordered(mem, free) && b in mem && Clear(mem, free, b, mem[b].size) && Precedes(free, j, b)
    requires forall k :: 0 <= k < |free1| ==> free1[k] in mem1
    requires j + 1 < |free1| && free1[j] == free[j] && free1[j + 1] == b
    requires mem1[free[j]].size == mem[free[j]].size && TouchOnly(mem1, free1, j, j)
    ensures free[j] != b && (Touching(mem1, free1, j) <==> free[j] + mem[free[j]].size == b)
    ensures free[j] + mem[free[j]].size == b ==> 0 < j
    ensures free[j] + mem[free[j]].size != b ==> Coalesced(mem1, free1)
  {
  }

  // ----- what malloc() takes out

  /** The units of [b, b + n) leave the free list, and nothing else changes hands. */
  ghost predicate Took(mem0: Memory, free0: seq<nat>, b: nat, n: nat, mem: Memory, free: seq<nat>) {
    && Ring(mem, free) && Ordered(mem, free) && Coalesced(mem, free)
    && free0 != [] && free[0] == free0[0]
    && (forall k :: 0 <= k < |free| ==> free[k] in free0)
    && (forall a :: a in mem0 ==> a in mem)
    && (forall a :: a in mem0 && a !in free0 && a != b ==> mem[a] == mem0[a])
    && b in mem && mem[b].size == n && b !in free
    && (forall u: nat :: InBlock(b, n, u) ==> IsFree(mem0, free0, u))
    && (forall u: nat :: IsFree(mem, free, u) <==> IsFree(mem0, free0, u) && !InBlock(b, n, u))
  }

  /** Units of different free blocks are different. */
  lemma OneBlock(mem: Memory, free: seq<nat>, i: nat, k: nat, u: nat)
    requires Ordered(mem, free) && i < |free| && k < |free| && i != k
    requires InBlock(free[i], mem[free[i]].size, u)
    ensures !InBlock(free[k], mem[free[k]].size, u)
  {
    if i < k { Gap(mem, free, i, k); } else { Gap(mem, free, k, i); }
  }

  lemma {:induction false} Gap(mem: Memory, free: seq<nat>, i: nat, k: nat)
    requires Ordered(mem, free) && i < k < |free|
    ensures free[i] + mem[free[i]].size <= free[k]
    decreases k - i
  {
    assert free[i] + mem[free[i]].size <= After(free, i);
    if i + 1 < k {
      assert free[i + 1] < free[k];
    }
  }

  /** A block of exactly the right size is unlinked from its predecessor. */
  function Unlinked(mem: Memory, prev: nat, p: nat): (r: Memory)
    requires prev in mem && p in mem
  {
    mem[prev := mem[prev].(ptr := mem[p].ptr)]
  }

  lemma UnlinkRing(mem: Memory, free: seq<nat>, i: nat)
    requires Ring(mem, free) && Rising(free) && 0 < i < |free|
    ensures Ring(Unlinked(mem, free[i - 1], free[i]), Remove(free, i))
  {
    hide Remove;
    var mem', free' := Unlinked(mem, free[i - 1], free[i]), Remove(free, i);
    assert mem[free[i]].ptr == After(free, i);
    forall k | 0 <= k < |free'|
      ensures free'[k] in mem' && mem'[free'[k]].ptr == After(free', k)
    {
      if k < i - 1 {
        assert free[k] < free[i - 1];
        assert mem[free[k]].ptr == After(free, k);
      } else if k >= i {
        assert free'[k] == free[k + 1] && free[i - 1] < free[k + 1];
        assert mem[free[k + 1]].ptr == After(free, k + 1);
      }
    }
  }

  lemma UnlinkOrdered(mem: Memory, free: seq<nat>, i: nat)
    requires Ordered(mem, free) && Coalesced(mem, free) && 0 < i < |free|
    ensures var mem', free' := Unlinked(mem, free[i - 1], free[i]), Remove(free, i);
            Ordered(mem', free') && Coalesced(mem', free')
  {
    hide Remove;
    var mem', free' := Unlinked(mem, free[i - 1], free[i]), Remove(free, i);
    forall k | 0 <= k < |free'|
      ensures free'[k] in mem' && (k > 0 ==> mem'[free'[k]].size > 0)
      ensures k + 1 < |free'| ==> free'[k] + mem'[free'[k]].size <= After(free', k) && !Touching(mem', free', k)
    {
      var k0 := if k < i then k else k + 1;
      assert mem'[free'[k]].size == mem[free[k0]].size;
      if k + 1 < |free'| {
        var k1 := if k + 1 < i then k + 1 else k + 2;
        Gap(mem, free, k0, k1);
        assert !Touching(mem, free, k0);
        if k0 + 1 < k1 {
          assert free[k0] + mem[free[k0]].size <= After(free, k0);
          assert free[k0 + 1] < free[k1];
        }
      }
    }
  }

  lemma UnlinkUnits(mem: Memory, free: seq<nat>, i: nat, u: nat)
    requires Ordered(mem, free) && 0 < i < |free|
    ensures InBlock(free[i], mem[free[i]].size, u) ==> IsFree(mem, free, u)
    ensures IsFree(Unlinked(mem, free[i - 1], free[i]), Remove(free, i), u)
            <==> IsFree(mem, free, u) && !InBlock(free[i], mem[free[i]].size, u)
  {
    hide Remove;
    var mem', free' := Unlinked(mem, free[i - 1], free[i]), Remove(free, i);
    if IsFree(mem, free, u) && !InBlock(free[i], mem[free[i]].size, u) {
      var k :| 0 <= k < |free| && free[k] in mem && InBlock(free[k], mem[free[k]].size, u);
      var k' := if k < i then k else k - 1;
      assert free'[k'] == free[k] && InBlock(free'[k'], mem'[free'[k']].size, u);
    }
    if IsFree(mem', free', u) {
      var k' :| 0 <= k' < |free'| && free'[k'] in mem' && InBlock(free'[k'], mem'[free'[k']].size, u);
      var k := if k' < i then k' else k' + 1;
      assert free[k] == free'[k'] && InBlock(free[k], mem[free[k]].size, u);
      OneBlock(mem, free, k, i, u);
    }
  }

  lemma TakeWhole(mem: Memory, free: seq<nat>, i: nat)
    requires Ring(mem, free) && Ordered(mem, free) && Coalesced(mem, free) && 0 < i < |free|
    ensures Took(mem, free, free[i], mem[free[i]].size, Unlinked(mem, free[i - 1], free[i]), Remove(free, i))
  {
    UnlinkRing(mem, free, i);
    UnlinkOrdered(mem, free, i);
    var mem', free' := Unlinked(mem, free[i - 1], free[i]), Remove(free, i);
    assert mem'[free[i]] == mem[free[i]];
    assert free[i] !in free' by {
      assert forall k :: 0 <= k < |free'| ==> free'[k] == free[if k < i then k else k + 1];
    }
    forall u: nat
      ensures InBlock(free[i], mem[free[i]].size, u) ==> IsFree(mem, free, u)
      ensures IsFree(mem', free', u) <==> IsFree(mem, free, u) && !InBlock(free[i], mem[free[i]].size, u)
    {
      UnlinkUnits(mem, free, i, u);
    }
    hide Ring, Ordered, Coalesced, IsFree, Remove;
  }

  /** A larger block gives up its last n units. */
  function Trimmed(mem: Memory, p: nat, n: nat): (r: Memory)
    requires p in mem && n < mem[p].size
  {
    var a := p + mem[p].size - n;
    var ptr := if a in mem then mem[a].ptr else 0;
    mem[p := mem[p].(size := mem[p].size - n)][a := Header(ptr, n)]
  }

  lemma NextInRing(mem: Memory, free: seq<nat>, j: nat)
    requires Ring(mem, free) && Ordered(mem, free) && j < |free|
    ensures free[0] <= free[j] && free[j] in mem && mem[free[j]].ptr == After(free, j) && mem[free[j]].ptr in mem && After(free, j) in free
  {
  }

  lemma ListFacts(mem: Memory, free: seq<nat>, i: nat)
    requires Ring(mem, free) && Ordered(mem, free) && 0 < i < |free|
    ensures free[i] in mem && free[i - 1] in mem && free[0] <= free[i - 1]
  {
  }

  lemma RemoveKeeps(free: seq<nat>, i: nat)
    requires 0 < i < |free|
    ensures free[i - 1] in Remove(free, i)
  {
    assert Remove(free, i)[i - 1] == free[i - 1];
  }

  lemma TakeTail(mem: Memory, free: seq<nat>, i: nat, n: nat)
    requires Ring(mem, free) && Ordered(mem, free) && Coalesced(mem, free) && i < |free|
    requires 0 < n < mem[free[i]].size
    ensures Took(mem, free, free[i] + mem[free[i]].size - n, n, Trimmed(mem, free[i], n), free)
  {
    var p := free[i];
    var a := p + mem[p].size - n;
    var mem' := Trimmed(mem, p, n);
    assert a !in free by {
      forall k | 0 <= k < |free|
        ensures free[k] != a
      {
        if k > i { Gap(mem, free, i, k); } else if k < i { assert free[k] < free[i]; }
      }
    }
    TrimShape(mem, free, i, n);
    forall u: nat
      ensures InBlock(a, n, u) ==> IsFree(mem, free, u)
      ensures IsFree(mem', free, u) <==> IsFree(mem, free, u) && !InBlock(a, n, u)
    {
      TrimUnits(mem, free, i, n, u);
    }
    hide Ring, Ordered, Coalesced, IsFree;
  }

  lemma TrimShape(mem: Memory, free: seq<nat>, i: nat, n: nat)
    requires Ring(mem, free) && Ordered(mem, free) && Coalesced(mem, free) && i < |free|
    requires 0 < n < mem[free[i]].size && free[i] + mem[free[i]].size - n !in free
    ensures var mem' := Trimmed(mem, free[i], n); Ring(mem', free) && Ordered(mem', free) && Coalesced(mem', free)
  {
    var mem' := Trimmed(mem, free[i], n);
    forall k | 0 <= k < |free|
      ensures mem'[free[k]].ptr == mem[free[k]].ptr && 0 <= mem'[free[k]].size <= mem[free[k]].size
      ensures k > 0 ==> mem'[free[k]].size > 0
      ensures !Touching(mem', free, k)
    {
      assert !Touching(mem, free, k);
      assert k + 1 < |free| ==> free[k] + mem[free[k]].size <= After(free, k);
    }
  }

  lemma TrimUnits(mem: Memory, free: seq<nat>, i: nat, n: nat, u: nat)
    requires Ordered(mem, free) && i < |free|
    requires 0 < n < mem[free[i]].size && free[i] + mem[free[i]].size - n !in free
    ensures var a := free[i] + mem[free[i]].size - n;
            && (InBlock(a, n, u) ==> IsFree(mem, free, u))
            && (IsFree(Trimmed(mem, free[i], n), free, u) <==> IsFree(mem, free, u) && !InBlock(a, n, u))
  {
    var a := free[i] + mem[free[i]].size - n;
    var mem' := Trimmed(mem, free[i], n);
    if InBlock(a, n, u) {
      assert InBlock(free[i], mem[free[i]].size, u);
    }
    if IsFree(mem, free, u) && !InBlock(a, n, u) {
      var k :| 0 <= k < |free| && free[k] in mem && InBlock(free[k], mem[free[k]].size, u);
      assert InBlock(free[k], mem'[free[k]].size, u);
    }
    if IsFree(mem', free, u) {
      var k :| 0 <= k < |free| && free[k] in mem' && InBlock(free[k], mem'[free[k]].size, u);
      assert InBlock(free[k], mem[free[k]].size, u);
      if k != i { OneBlock(mem, free, k, i, u); }
    }
  }

  // ----- the books

  lemma UsedIsClear(mem: Memory, free: seq<nat>, used: map<nat, nat>, supplied: set<nat>, b: nat)
    requires Ordered(mem, free) && Tiled(mem, free, used, supplied) && b in used && free[0] < b
    ensures b in mem && mem[b].size == used[b] && b !in free && Clear(mem, free, b, used[b])
  {
    forall k | 0 <= k < |free|
      ensures Apart(b, used[b], free[k], mem[free[k]].size)
    {
      var u: nat := if b < free[k] then free[k] else b;
      assert InBlock(b, used[b], u) ==> IsUsed(used, u);
      assert InBlock(free[k], mem[free[k]].size, u) ==> IsFree(mem, free, u);
      assert !(InBlock(b, used[b], u) && InBlock(free[k], mem[free[k]].size, u));
    }
  }

  ghost function Units(b: nat, n: nat): (s: set<nat>)
    ensures forall u: nat :: u in s <==> InBlock(b, n, u)
  {
    set u: nat | u < b + n && InBlock(b, n, u)
  }

  /** sbrk supplies a region: for the moment one block in use. */
  lemma TiledAfterSupply(mem: Memory, free: seq<nat>, used: map<nat, nat>, supplied: set<nat>,
                         b: nat, h: Header)
    requires Ordered(mem, free) && Tiled(mem, free, used, supplied) && h.size > 0
    requires free[0] < b && supplied !! Units(b, h.size)
    ensures b !in free && Tiled(mem[b := h], free, used[b := h.size], supplied + Units(b, h.size))
  {
    var n := h.size;
    var mem', used' := mem[b := h], used[b := n];
    forall k | 0 <= k < |free|
      ensures free[k] != b
    {
      assert k > 0 ==> InBlock(free[k], mem[free[k]].size, free[k]) && IsFree(mem, free, free[k]);
      assert InBlock(b, n, b);
    }
    forall a | a in used
      ensures a != b && Apart(a, used[a], b, n)
    {
      assert forall u: nat :: InBlock(a, used[a], u) ==> IsUsed(used, u);
      assert InBlock(a, used[a], a);
      var u: nat := if a < b then b else a;
      assert !(InBlock(a, used[a], u) && InBlock(b, n, u));
    }
    forall u: nat
      ensures IsFree(mem', free, u) <==> IsFree(mem, free, u)
      ensures IsUsed(used', u) <==> IsUsed(used, u) || InBlock(b, n, u)
    {
      SupplyUnits(mem, free, used, b, h, u);
    }
    hide IsFree, IsUsed, Ordered;
  }

  lemma SupplyUnits(mem: Memory, free: seq<nat>, used: map<nat, nat>, b: nat, h: Header, u: nat)
    requires (forall k :: 0 <= k < |free| ==> free[k] in mem) && b !in free && b !in used
    ensures IsFree(mem[b := h], free, u) <==> IsFree(mem, free, u)
    ensures IsUsed(used[b := h.size], u) <==> IsUsed(used, u) || InBlock(b, h.size, u)
  {
    var mem', used' := mem[b := h], used[b := h.size];
    if IsFree(mem, free, u) {
      var k :| 0 <= k < |free| && free[k] in mem && InBlock(free[k], mem[free[k]].size, u);
      assert InBlock(free[k], mem'[free[k]].size, u);
    }
    if IsFree(mem', free, u) {
      var k :| 0 <= k < |free| && free[k] in mem' && InBlock(free[k], mem'[free[k]].size, u);
      assert InBlock(free[k], mem[free[k]].size, u);
    }
    if IsUsed(used, u) {
      var a :| a in used && InBlock(a, used[a], u);
      assert a in used' && InBlock(a, used'[a], u);
    }
    assert InBlock(b, h.size, u) ==> InBlock(b, used'[b], u);
    if IsUsed(used', u) && !InBlock(b, h.size, u) {
      var a :| a in used' && InBlock(a, used'[a], u);
      assert a in used && InBlock(a, used[a], u);
    }
  }

  /** No block in use starts in memory that had not been supplied. */
  lemma NewToUsed(mem: Memory, free: seq<nat>, used: map<nat, nat>, supplied: set<nat>, b: nat, n: nat)
    requires Tiled(mem, free, used, supplied) && supplied !! Units(b, n) && n > 0
    ensures b !in used
  {
    assert InBlock(b, n, b);
    assert b in used ==> InBlock(b, used[b], b) && IsUsed(used, b);
  }

  lemma SupplyShape(mem: Memory, free: seq<nat>, b: nat, h: Header)
    requires Ring(mem, free) && Ordered(mem, free) && Coalesced(mem, free) && b !in free
    ensures Ring(mem[b := h], free) && Ordered(mem[b := h], free) && Coalesced(mem[b := h], free)
  {
    var mem' := mem[b := h];
    forall k: nat
      ensures !Touching(mem', free, k)
    {
      assert !Touching(mem, free, k);
    }
  }

  lemma TiledAfterFree(mem0: Memory, free0: seq<nat>, used: map<nat, nat>, supplied: set<nat>,
                       b: nat, mem: Memory, free: seq<nat>)
    requires Tiled(mem0, free0, used, supplied) && b in used
    requires Settled(mem0, free0, b, used[b], mem, free)
    ensures Tiled(mem, free, used - {b}, supplied)
  {
    hide Ring, Ordered, HasBlock;
    var used' := used - {b};
    forall u: nat
      ensures IsUsed(used, u) <==> IsUsed(used', u) || InBlock(b, used[b], u)
      ensures !(IsUsed(used', u) && InBlock(b, used[b], u))
    {
      if IsUsed(used, u) {
        var a :| a in used && InBlock(a, used[a], u);
        assert a != b ==> a in used' && InBlock(a, used'[a], u);
      }
      if IsUsed(used', u) {
        var a :| a in used' && InBlock(a, used'[a], u);
        assert a in used && InBlock(a, used[a], u) && Apart(a, used[a], b, used[b]);
      }
    }
    hide IsFree, IsUsed;
  }

  lemma TiledAfterTake(mem0: Memory, free0: seq<nat>, used: map<nat, nat>, supplied: set<nat>,
                       b: nat, n: nat, mem: Memory, free: seq<nat>)
    requires Tiled(mem0, free0, used, supplied) && n > 0
    requires Took(mem0, free0, b, n, mem, free)
    ensures b !in used && Tiled(mem, free, used[b := n], supplied)
  {
    hide Ring, Ordered, Coalesced;
    var used' := used[b := n];
    assert InBlock(b, n, b) && IsFree(mem0, free0, b);
    assert b in used ==> InBlock(b, used[b], b);
    assert b !in used;
    forall u: nat
      ensures IsUsed(used', u) <==> IsUsed(used, u) || InBlock(b, n, u)
    {
      if IsUsed(used, u) {
        var a :| a in used && InBlock(a, used[a], u);
        assert a in used' && InBlock(a, used'[a], u);
      }
      assert InBlock(b, n, u) ==> InBlock(b, used'[b], u);
      if IsUsed(used', u) && !InBlock(b, n, u) {
        var a :| a in used' && InBlock(a, used'[a], u);
        assert a in used && InBlock(a, used[a], u);
      }
    }
    forall a | a in used
      ensures Apart(a, used[a], b, n)
    {
      var u: nat := if a < b then b else a;
      assert InBlock(a, used[a], u) ==> IsUsed(used, u);
      assert !(InBlock(a, used[a], u) && InBlock(b, n, u));
    }
    hide IsFree, IsUsed;
  }

  // ----- where a large block comes from

  /** Consecutive free units lie in one block, because touching blocks are merged. */
  lemma {:induction false} RunInBlock(mem: Memory, free: seq<nat>, a: nat, n: nat) returns (k: nat)
    requires Ordered(mem, free) && Coalesced(mem, free) && n > 0
    requires forall u: nat :: InBlock(a, n, u) ==> IsFree(mem, free, u)
    ensures k < |free| && free[k] <= a && a + n <= free[k] + mem[free[k]].size
    decreases n
  {
    var last := a + n - 1;
    assert InBlock(a, n, last) && IsFree(mem, free, last);
    var j: nat :| j < |free| && free[j] in mem && InBlock(free[j], mem[free[j]].size, last);
    if n == 1 {
      k := j;
    } else {
      forall u: nat | InBlock(a, n - 1, u)
        ensures IsFree(mem, free, u)
      {
        assert InBlock(a, n, u);
      }
      k := RunInBlock(mem, free, a, n - 1);
      SameRun(mem, free, k, j, last);
    }
  }

  /** A block that reaches up to unit u and the block that holds u are the same. */
  lemma SameRun(mem: Memory, free: seq<nat>, k: nat, j: nat, u: nat)
    requires Ordered(mem, free) && Coalesced(mem, free) && k < |free| && j < |free|
    requires free[k] < u <= free[k] + mem[free[k]].size && InBlock(free[j], mem[free[j]].size, u)
    ensures k == j
  {
    if k < j {
      Beyond(mem, free, k, j);
    } else if j < k {
      Gap(mem, free, j, k);
    }
  }

  /** Between free blocks there is at least one unit. */
  lemma Beyond(mem: Memory, free: seq<nat>, k: nat, j: nat)
    requires Ordered(mem, free) && Coalesced(mem, free) && k < j < |free|
    ensures free[k] + mem[free[k]].size < free[j]
  {
    assert !Touching(mem, free, k);
    assert free[k] + mem[free[k]].size <= After(free, k);
    assert free[k + 1] <= free[j];
  }

  /** After new core, the free units are those that were free and those of the core. */
  lemma FreeAfterCore(mem0: Memory, free0: seq<nat>, mem1: Memory, free1: seq<nat>,
                      used: map<nat, nat>, supplied: set<nat>, b: nat, n: nat, u: nat)
    requires Tiled(mem0, free0, used, supplied) && Tiled(mem1, free1, used, supplied + Units(b, n))
    requires supplied !! Units(b, n)
    ensures IsFree(mem1, free1, u) <==> IsFree(mem0, free0, u) || InBlock(b, n, u)
  {
    hide IsFree, IsUsed;
    assert u in Units(b, n) <==> InBlock(b, n, u);
  }

  /** Core for n units was asked for because no free block had as many; then the n units at
      the end of any block that has them include the last unit of the core. */
  lemma LastUnitTaken(mem0: Memory, free0: seq<nat>, mem1: Memory, free1: seq<nat>,
                      used: map<nat, nat>, supplied: set<nat>, b: nat, n: nat, i: nat)
    requires Ordered(mem0, free0) && Coalesced(mem0, free0) && Tiled(mem0, free0, used, supplied)
    requires forall k :: 0 <= k < |free0| ==> mem0[free0[k]].size < n
    requires Ordered(mem1, free1) && Tiled(mem1, free1, used, supplied + Units(b, n)) && supplied !! Units(b, n)
    requires HasBlock(mem1, free1, b, n) && i < |free1| && mem1[free1[i]].size >= n > 0
    ensures InBlock(free1[i] + mem1[free1[i]].size - n, n, b + n - 1)
  {
    var end := free1[i] + mem1[free1[i]].size;
    var a := end - n;
    if !InBlock(a, n, b + n - 1) {
      OutsideCore(mem1, free1, b, n, i);
      forall u: nat | InBlock(a, n, u)
        ensures IsFree(mem0, free0, u)
      {
        assert InBlock(free1[i], mem1[free1[i]].size, u) && IsFree(mem1, free1, u);
        FreeAfterCore(mem0, free0, mem1, free1, used, supplied, b, n, u);
      }
      var k := RunInBlock(mem0, free0, a, n);
      assert false;
    }
  }

  lemma OutsideCore(mem: Memory, free: seq<nat>, b: nat, n: nat, i: nat)
    requires Ordered(mem, free) && HasBlock(mem, free, b, n) && i < |free| && mem[free[i]].size >= n > 0
    requires !InBlock(free[i] + mem[free[i]].size - n, n, b + n - 1)
    ensures forall u: nat :: InBlock(free[i] + mem[free[i]].size - n, n, u) ==> !InBlock(b, n, u)
  {
    var end := free[i] + mem[free[i]].size;
    var k :| 0 <= k < |free| && free[k] in mem && free[k] <= b && b + n <= free[k] + mem[free[k]].size;
    if b < end <= b + n - 1 {
      OneBlock(mem, free, i, k, end - 1);
    }
  }
}

module Umalloc {
  import opened Common
  import opened FreeList

  const UNIT: nat := 16           // sizeof(Header)
  const PAGE: nat := 256          // units in a page
  const MINCORE: nat := 4096

  /** How morecore ends: sbrk fails, the program is killed, or there is a new free block. */
  datatype Core = NoCore | Fault | Added

  class Arena {
    const base: nat               // &base
    var mem: Memory
    var freep: nat                // 0 before the first malloc
    ghost var list: seq<nat>
    ghost var used: map<nat, nat>
    ghost var supplied: set<nat>  // the units that sbrk was asked for
    ghost var granted: set<nat>   // the units that sbrk handed over and has not taken back

    constructor (b: nat)
      requires 0 < b
      ensures Valid() && freep == 0 && base == b && supplied == {} && granted == {}
    {
      base, mem, freep := b, map[b := Header(0, 0)], 0;
      list, used, supplied, granted := [], map[], {}, {};
    }

    /** The free list is one address-ordered, coalesced ring through base and freep. */
    ghost predicate ListOk()
      reads this`mem, this`freep, this`list
    {
      && Ring(mem, list) && Ordered(mem, list) && Coalesced(mem, list)
      && list[0] == base && freep in list
    }

    ghost predicate Valid()
      reads this
    {
      && 0 < base && base in mem && granted <= supplied
      && (freep == 0 ==> used == map[] && supplied == {})
      && (freep != 0 ==> ListOk() && Tiled(mem, list, used, supplied) && forall u <- supplied :: base < u)
    }

    /** free's search for the place of block bp. */
    method FindPlace(bp: nat) returns (p: nat, ghost j: nat)
      requires ListOk() && base < bp && bp !in list
      ensures Precedes(list, j, bp) && p == list[j]
    {
      ghost var target := Below(list, bp);
      p := freep;
      j :| 0 <= j < |list| && list[j] == freep;
      while !(bp > p && bp < mem[p].ptr)
        invariant j < |list| && p == list[j]
        decreases if j <= target then target - j else target + |list| - j
      {
        assert mem[p].ptr == After(list, j);
        if p >= mem[p].ptr && (bp > p || bp < mem[p].ptr) {
          break;
        }
        p := mem[p].ptr;
        j := if j + 1 < |list| then j + 1 else 0;
      }
      assert mem[p].ptr == After(list, j);
    }

    /** free, on the header of the block. */
    method Free(bp: nat)
      requires Valid() && bp in used
      modifies this`mem, this`freep, this`list, this`used
      ensures Valid() && freep != 0 && used == old(used) - {bp}
      ensures HasBlock(mem, list, bp, old(used)[bp])
    {
      assert freep != 0 && IsUsed(used, bp) by {
        assert InBlock(bp, used[bp], bp);
      }
      hide Ring, Ordered, Coalesced, IsFree, IsUsed;
      Place(bp);
      TiledAfterFree(old(mem), old(list), used, supplied, bp, mem, list);
      used := used - {bp};
    }

    /** The search and the two joins of free. */
    method Place(bp: nat)
      requires Valid() && freep != 0 && bp in used && base < bp
      modifies this`mem, this`freep, this`list
      ensures ListOk() && freep != 0
      ensures Settled(old(mem), old(list), bp, used[bp], mem, list)
    {
      hide IsFree, IsUsed, Ring, Ordered, Coalesced, Clear, Tiled;
      UsedIsClear(mem, list, used, supplied, bp);
      var p;
      ghost var j;
      p, j := FindPlace(bp);
      NextInRing(mem, list, j);
      ghost var list' := Settle(mem, list, j, bp);
      var q := mem[p].ptr;
      if bp + mem[bp].size == q {
        mem := mem[bp := Header(mem[q].ptr, mem[bp].size + mem[q].size)];
      } else {
        mem := mem[bp := mem[bp].(ptr := q)];
      }
      if p + mem[p].size == bp {
        mem := mem[p := Header(mem[bp].ptr, mem[p].size + mem[bp].size)];
      } else {
        mem := mem[p := mem[p].(ptr := bp)];
      }
      assert mem == Freed(old(mem), p, bp);
      freep := p;
      list := list';
    }

    // ----- malloc

    /** The units malloc asks for: room for the bytes, and a header. */
    static function UnitsFor(nbytes: nat): (n: nat)
      ensures n >= 1 && nbytes <= (n - 1) * UNIT < nbytes + UNIT
    {
      (nbytes + UNIT - 1) / UNIT + 1
    }

    /** The units morecore asks for: those needed, and no fewer than MINCORE. */
    static function CoreFor(nunits: nat): (n: nat)
      ensures n >= nunits && n >= 4096 && (n == nunits || n == 4096)
    {
      if nunits < MINCORE then MINCORE else nunits
    }

    /** What sbrk may return when asked for nu units: 0 for failure, if it had to find any
        memory, or the break, which is above base and above all memory the program has. */
    ghost predicate Fresh(brk: nat, nu: nat)
      reads this`supplied, this`granted
    {
      if brk == 0 then SbrkArgument(nu) > 0
      else base < brk && supplied !! Units(brk, nu) && forall u <- granted :: u < brk
    }

    /** Position k lies strictly after s and not beyond i, going round. */
    ghost predicate Passed(s: nat, i: nat, k: nat) {
      if s <= i then s < k <= i else k > s || k <= i
    }

    /** Every block from freep, round the list, to before position i has fewer than n units. */
    ghost predicate FirstFit(i: nat, n: nat)
      requires i > 0
      reads this`mem, this`freep, this`list
    {
      exists s ::
        && 0 <= s < |list| && list[s] == freep
        && forall k :: 0 <= k < |list| && Passed(s, i - 1, k) ==> list[k] in mem && mem[list[k]].size < n
    }

    /** malloc's loop from freep round to freep, as far as the first block that fits. */
    method Search(nunits: nat) returns (prevp: nat, p: nat, found: bool, ghost i: nat)
      requires ListOk() && nunits > 0
      ensures found ==> 0 < i < |list| && prevp == list[i - 1] && p == list[i] && p in mem && mem[p].size >= nunits
      ensures found ==> FirstFit(i, nunits)
      ensures !found ==> forall k :: 0 <= k < |list| ==> list[k] in mem && mem[list[k]].size < nunits
    {
      ghost var s :| 0 <= s < |list| && list[s] == freep;
      prevp := freep;
      i := s;
      p := mem[prevp].ptr;
      ghost var n, c := |list|, 0;
      while true
        invariant i < n && prevp == list[i] && 0 <= c < n && i == if s + c < n then s + c else s + c - n
        invariant p == mem[prevp].ptr
        invariant forall k :: 0 <= k < n && Passed(s, i, k) ==> mem[list[k]].size < nunits
        decreases n - c
      {
        assert mem[prevp].ptr == After(list, i);
        if mem[p].size >= nunits {
          found, i := true, i + 1;
          return;
        }
        if p == freep {
          assert c == n - 1 by {
            assert forall k :: 0 <= k < n && list[k] == freep ==> k == s;
          }
          found := false;
          return;
        }
        prevp := p;
        p := mem[p].ptr;
        i := if i + 1 < n then i + 1 else 0;
        c := c + 1;
      }
    }

    /** morecore: asks sbrk for memory and frees as much as it asked for, which is not
        always what it got.  A block that fits then exists.  Writing the block's header
        kills the program when the break is not in a page of its memory. */
    method Morecore(nunits: nat, brk: nat) returns (r: Core)
      requires Valid() && freep != 0 && Fresh(brk, CoreFor(nunits))
      modifies this`mem, this`freep, this`list, this`used, this`supplied, this`granted
      ensures Valid() && freep != 0 && used == old(used)
      ensures r.NoCore? <==> brk == 0
      ensures r.Fault? <==> brk != 0 && Faults(brk, SbrkArgument(CoreFor(nunits)))
      ensures !r.Added? ==> supplied == old(supplied) && mem == old(mem) && list == old(list)
      ensures granted == if r.NoCore? then old(granted) else AfterSbrk(old(granted), brk, SbrkArgument(CoreFor(nunits)))
      ensures r.Added? ==> supplied == old(supplied) + Units(brk, CoreFor(nunits))
                           && HasBlock(mem, list, brk, CoreFor(nunits))
    {
      hide Ring, Ordered, Coalesced, IsFree, IsUsed, Tiled;
      var nu := CoreFor(nunits);
      if brk == 0 {
        return NoCore;
      }
      if Faults(brk, SbrkArgument(nu)) {
        FaultGivesNothing(granted, brk, SbrkArgument(nu));
        granted := AfterSbrk(granted, brk, SbrkArgument(nu));
        return Fault;
      }
      AddCore(nu, brk);
      r := Added;
    }

    /** The core that sbrk has found becomes a free block. */
    method AddCore(nu: nat, brk: nat)
      requires Valid() && freep != 0 && nu > 0 && base < brk && supplied !! Units(brk, nu)
      modifies this`mem, this`freep, this`list, this`used, this`supplied, this`granted
      ensures Valid() && freep != 0 && used == old(used)
      ensures granted == AfterSbrk(old(granted), brk, SbrkArgument(nu))
      ensures supplied == old(supplied) + Units(brk, nu) && HasBlock(mem, list, brk, nu)
    {
      hide Ring, Ordered, Coalesced, IsFree, IsUsed, Tiled;
      var h := Header(if brk in mem then mem[brk].ptr else 0, nu);
      ghost var used0 := used;
      TiledAfterSupply(mem, list, used, supplied, brk, h);
      SupplyShape(mem, list, brk, h);
      NewToUsed(mem, list, used, supplied, brk, nu);
      mem := mem[brk := h];
      used := used[brk := nu];
      supplied := supplied + Units(brk, nu);
      SbrkWithin(granted, supplied, brk, nu);
      granted := AfterSbrk(granted, brk, SbrkArgument(nu));
      Free(brk);
      assert used == used0;
    }

    /** Takes nunits out of the block p that Search found, leaving freep before it. */
    method Take(nunits: nat, prevp: nat, p: nat, ghost i: nat) returns (a: nat)
      requires Valid() && freep != 0 && nunits > 0
      requires 0 < i < |list| && prevp == list[i - 1] && p == list[i] && mem[p].size >= nunits
      modifies this`mem, this`freep, this`list, this`used
      ensures Valid() && freep == prevp != 0
      ensures a !in old(used) && used == old(used)[a := nunits]
      ensures a == p + old(mem)[p].size - nunits
    {
      hide Ring, Ordered, Coalesced, IsFree, IsUsed, Tiled, Took;
      a := Carve(nunits, prevp, p, i);
      Booked(old(mem), old(list), used, supplied, a, nunits, mem, list);
      used := used[a := nunits];
    }

    method Carve(nunits: nat, prevp: nat, p: nat, ghost i: nat) returns (a: nat)
      requires ListOk() && freep != 0 && 0 < base
      requires 0 < i < |list| && prevp == list[i - 1] && p == list[i] && 0 < nunits <= mem[p].size
      modifies this`mem, this`freep, this`list
      ensures Took(old(mem), old(list), a, nunits, mem, list)
      ensures freep == prevp && prevp in list && prevp != 0 && a == p + old(mem)[p].size - nunits
    {
      hide Ring, Ordered, Coalesced, Took, Remove;
      ListFacts(mem, list, i);
      if mem[p].size == nunits {
        TakeWhole(mem, list, i);
        RemoveKeeps(list, i);
        mem := mem[prevp := mem[prevp].(ptr := mem[p].ptr)];
        a := p;
        list := Remove(list, i);
      } else {
        TakeTail(mem, list, i, nunits);
        a := p + (mem[p].size - nunits);
        mem := mem[p := mem[p].(size := mem[p].size - nunits)];
        mem := mem[a := Header(if a in mem then mem[a].ptr else 0, nunits)];
        assert mem == Trimmed(old(mem), p, nunits);
      }
      freep := prevp;
    }

    /** malloc.  It asks sbrk only when no free block is large enough, and then at most once.
        When sbrk fails it returns 0.  When sbrk returns a break that is not in a page of the
        program's memory, the program is killed.  Otherwise it returns a block that was not
        in use; if the memory it worked with was all handed over by sbrk, so is the new
        block, unless core had to be asked for and the request is for more than 2^31 - 32
        bytes: then part of the block is not the program's. */
    method Malloc(nbytes: nat, brk: nat) returns (r: nat, ok: bool)
      requires Valid() && nbytes < UINT_MOD && Fresh(brk, CoreFor(UnitsFor(nbytes)))
      modifies this`mem, this`freep, this`list, this`used, this`supplied, this`granted
      ensures Valid() && freep != 0
      ensures ok <==> old(Room(UnitsFor(nbytes))) || brk == 0 || !Killing(brk, nbytes)
      ensures r == 0 <==> !old(Room(UnitsFor(nbytes))) && (brk == 0 || !ok)
      ensures r == 0 ==> used == old(used) && supplied == old(supplied)
      ensures r != 0 ==> r - 1 !in old(used) && used == old(used)[r - 1 := UnitsFor(nbytes)]
      ensures supplied == if r != 0 && !old(Room(UnitsFor(nbytes)))
                          then old(supplied) + Units(brk, CoreFor(UnitsFor(nbytes))) else old(supplied)
      ensures r != 0 && old(granted == supplied) ==>
                && (granted == supplied <==> old(Room(UnitsFor(nbytes))) || nbytes <= UINT_MOD / 2 - 32)
                && (Units(r - 1, UnitsFor(nbytes)) <= granted <==>
                      old(Room(UnitsFor(nbytes))) || nbytes <= UINT_MOD / 2 - 32)
    {
      if freep == 0 {
        Start();
      }
      assert Room(UnitsFor(nbytes)) == old(Room(UnitsFor(nbytes)));
      r, ok := FindOrGrow(nbytes, brk);
    }

    /** malloc's loop. */
    method FindOrGrow(nbytes: nat, brk: nat) returns (r: nat, ok: bool)
      requires Valid() && freep != 0 && nbytes < UINT_MOD && Fresh(brk, CoreFor(UnitsFor(nbytes)))
      modifies this`mem, this`freep, this`list, this`used, this`supplied, this`granted
      ensures Valid() && freep != 0
      ensures ok <==> old(Room(UnitsFor(nbytes))) || brk == 0 || !Killing(brk, nbytes)
      ensures r == 0 <==> !old(Room(UnitsFor(nbytes))) && (brk == 0 || !ok)
      ensures r == 0 ==> used == old(used) && supplied == old(supplied)
      ensures r != 0 ==> r - 1 !in old(used) && used == old(used)[r - 1 := UnitsFor(nbytes)]
      ensures supplied == if r != 0 && !old(Room(UnitsFor(nbytes)))
                          then old(supplied) + Units(brk, CoreFor(UnitsFor(nbytes))) else old(supplied)
      ensures r != 0 && old(granted == supplied) ==>
                && (granted == supplied <==> old(Room(UnitsFor(nbytes))) || nbytes <= UINT_MOD / 2 - 32)
                && (Units(r - 1, UnitsFor(nbytes)) <= granted <==>
                      old(Room(UnitsFor(nbytes))) || nbytes <= UINT_MOD / 2 - 32)
    {
      var nunits := UnitsFor(nbytes);
      hide Ring, Ordered, Coalesced, IsFree, IsUsed, Tiled, SbrkArgument, AfterSbrk, HasBlock, CoreAdded, Units, UnitsFor,
           Faults;
      ghost var grew := false;
      while true
        invariant Valid() && freep != 0 && used == old(used)
        invariant grew ==> Room(nunits) && brk != 0 && !old(Room(nunits)) && !Killing(brk, nbytes)
        invariant grew ==> CoreAdded(old(granted), old(supplied), brk, nunits)
        invariant grew ==> supplied == old(supplied) + Units(brk, CoreFor(nunits))
        invariant !grew ==> supplied == old(supplied) && granted == old(granted) && Room(nunits) == old(Room(nunits))
        decreases if grew then 0 else 1
      {
        var prevp, p, found;
        ghost var i;
        prevp, p, found, i := Search(nunits);
        if found {
          FoundRoom(i, nunits);
          var a := Grab(nunits, prevp, p, i, nbytes, brk, grew, old(granted), old(supplied));
          return a + 1, true;
        }
        NotFound(nunits);
        ghost var mem0, list0 := mem, list;
        var core := Morecore(nunits, brk);
        if !core.Added? {
          return 0, core.NoCore?;
        }
        FitsNow(mem, list, brk, nunits);
        CoreIsAdded(mem0, list0, old(granted), old(supplied), brk, nunits);
        grew := true;
      }
    }

    /** Asking for core for nbytes kills the program when sbrk returns brk. */
    static predicate Killing(brk: nat, nbytes: nat) {
      Faults(brk, SbrkArgument(CoreFor(UnitsFor(nbytes))))
    }

    /** The block found is cut and handed out; whether it is all the program's. */
    method Grab(nunits: nat, prevp: nat, p: nat, ghost i: nat, ghost nbytes: nat, ghost brk: nat, ghost grew: bool,
                ghost granted0: set<nat>, ghost supplied0: set<nat>) returns (a: nat)
      requires Valid() && freep != 0 && nunits == UnitsFor(nbytes) && nbytes < UINT_MOD && granted0 <= supplied0
      requires 0 < i < |list| && prevp == list[i - 1] && p == list[i] && p in mem && mem[p].size >= nunits
      requires !grew ==> granted == granted0 && supplied == supplied0
      requires grew ==> CoreAdded(granted0, supplied0, brk, nunits)
      modifies this`mem, this`freep, this`list, this`used
      ensures Valid() && freep != 0 && a !in old(used) && used == old(used)[a := nunits]
      ensures granted0 == supplied0 ==>
                && (granted == supplied <==> !grew || nbytes <= UINT_MOD / 2 - 32)
                && (Units(a, nunits) <= granted <==> !grew || nbytes <= UINT_MOD / 2 - 32)
    {
      hide Ring, Ordered, Coalesced, IsFree, IsUsed, Tiled, SbrkArgument, AfterSbrk, HasBlock, CoreAdded, Units;
      if grew {
        CoreTaken(granted0, supplied0, brk, nunits, i);
        Handover(granted0, supplied0, brk, nbytes);
      }
      a := Take(nunits, prevp, p, i);
      BlockSupplied(mem, list, used, supplied, a);
      Verdict(granted0, supplied0, granted, supplied, a, nbytes, brk, grew);
    }

    lemma FoundRoom(i: nat, n: nat)
      requires ListOk() && freep != 0 && i < |list| && list[i] in mem && mem[list[i]].size >= n
      ensures Room(n)
    {
    }

    lemma NotFound(n: nat)
      requires ListOk() && freep != 0
      requires forall k :: 0 <= k < |list| ==> list[k] in mem && mem[list[k]].size < n
      ensures !Room(n)
    {
    }

    lemma CoreIsAdded(mem0: Memory, list0: seq<nat>, granted0: set<nat>, supplied0: set<nat>, brk: nat, n: nat)
      requires Remembered(mem0, list0, used, supplied0, n)
      requires HasBlock(mem, list, brk, CoreFor(n)) && supplied0 !! Units(brk, CoreFor(n))
      requires supplied == supplied0 + Units(brk, CoreFor(n))
      requires granted == AfterSbrk(granted0, brk, SbrkArgument(CoreFor(n)))
      ensures CoreAdded(granted0, supplied0, brk, n)
    {
    }

    /** A list that had no block of n units. */
    static ghost predicate Remembered(mem0: Memory, list0: seq<nat>, used0: map<nat, nat>, supplied0: set<nat>, n: nat) {
      && Ordered(mem0, list0) && Coalesced(mem0, list0) && Tiled(mem0, list0, used0, supplied0)
      && forall k :: 0 <= k < |list0| ==> mem0[list0[k]].size < n
    }

    /** Core has been added for n units, which no free block had. */
    ghost predicate CoreAdded(granted0: set<nat>, supplied0: set<nat>, brk: nat, n: nat)
      reads this
    {
      && HasBlock(mem, list, brk, CoreFor(n)) && supplied0 !! Units(brk, CoreFor(n))
      && supplied == supplied0 + Units(brk, CoreFor(n))
      && granted == AfterSbrk(granted0, brk, SbrkArgument(CoreFor(n)))
      && exists mem0, list0 :: Remembered(mem0, list0, used, supplied0, n)
    }

    lemma CoreTaken(granted0: set<nat>, supplied0: set<nat>, brk: nat, n: nat, i: nat)
      requires Valid() && freep != 0 && CoreAdded(granted0, supplied0, brk, n)
      requires i < |list| && list[i] in mem && mem[list[i]].size >= n > 0
      ensures supplied0 !! Units(brk, CoreFor(n)) && supplied == supplied0 + Units(brk, CoreFor(n))
      ensures granted == AfterSbrk(granted0, brk, SbrkArgument(CoreFor(n)))
      ensures CoreFor(n) == n ==> InBlock(list[i] + mem[list[i]].size - n, n, brk + n - 1)
    {
      hide Ring, Ordered, Coalesced, IsFree, IsUsed, Tiled, HasBlock;
      var mem0, list0 :| Remembered(mem0, list0, used, supplied0, n);
      if CoreFor(n) == n {
        LastUnitTaken(mem0, list0, mem, list, used, supplied0, brk, n, i);
      }
    }

    /** Some free block has at least n units. */
    ghost predicate Room(n: nat)
      reads this`mem, this`freep, this`list
    {
      freep != 0 && exists k :: 0 <= k < |list| && list[k] in mem && mem[list[k]].size >= n
    }

    /** malloc's first call: a list of base alone. */
    method Start()
      requires Valid() && freep == 0
      modifies this`mem, this`freep, this`list
      ensures Valid() && freep == base && list == [base] && mem[base].size == 0
    {
      mem := mem[base := Header(base, 0)];
      freep := base;
      list := [base];
      assert forall u: nat :: !IsFree(mem, list, u);
    }

    lemma Booked(mem0: Memory, free0: seq<nat>, used: map<nat, nat>, supplied: set<nat>,
                 b: nat, n: nat, mem: Memory, free: seq<nat>)
      requires Tiled(mem0, free0, used, supplied) && n > 0 && Took(mem0, free0, b, n, mem, free)
      ensures b !in used && Tiled(mem, free, used[b := n], supplied)
      ensures Ring(mem, free) && Ordered(mem, free) && Coalesced(mem, free) && free0 != [] && free[0] == free0[0]
      ensures free0[0] in mem0 ==> free0[0] in mem
    {
      TiledAfterTake(mem0, free0, used, supplied, b, n, mem, free);
    }
  }

  /** The argument that reaches sbrk(int) for nu headers. */
  function SbrkArgument(nu: nat): (n: int) {
    var w := nu * UNIT % UINT_MOD;
    if w < UINT_MOD / 2 then w else w - UINT_MOD
  }

  /** The break after sbrk(n) has returned brk; a request to shrink by more than there is
      changes nothing. */
  function NewBreak(brk: nat, n: int): (r: nat) {
    if brk * UNIT + n < 0 then brk else (brk * UNIT + n) / UNIT
  }

  /** The memory a program has then: more from brk on, or less from the top. */
  ghost function AfterSbrk(granted: set<nat>, brk: nat, n: int): (r: set<nat>) {
    if n >= 0 then granted + Units(brk, n / UNIT)
    else if brk * UNIT + n < 0 then granted
    else set u | u in granted && u < NewBreak(brk, n)
  }

  /** The first unit behind the page that unit u - 1 is in. */
  function PageUp(u: nat): (r: nat)
    ensures u <= r < u + PAGE && r % PAGE == 0
  {
    (u + PAGE - 1) / PAGE * PAGE
  }

  /** After sbrk(n) has returned brk there is no memory at brk: the program's pages end at
      the new break, rounded up. */
  predicate Faults(brk: nat, n: int) {
    PageUp(NewBreak(brk, n)) <= brk
  }

  lemma FaultGivesNothing(granted: set<nat>, brk: nat, n: int)
    requires Faults(brk, n)
    ensures n < UNIT && AfterSbrk(granted, brk, n) <= granted
  {
    assert n >= UNIT ==> NewBreak(brk, n) > brk;
    assert n >= 0 ==> n / UNIT == 0 && Units(brk, 0) == {};
  }

  /** The least multiple of a page from u on. */
  lemma PageUpLeast(u: nat, q: nat)
    ensures PageUp(u) <= q * PAGE <==> u <= q * PAGE
  {
    var k := (u + PAGE - 1) / PAGE;
    assert PageUp(u) == k * PAGE && u <= k * PAGE < u + PAGE;
  }

  lemma FaultsByPage(brk: nat, k: nat)
    ensures Faults(brk, -(k * UNIT)) <==> brk % PAGE == 0 || (0 < k <= brk && brk % PAGE <= k)
  {
    var u, q := NewBreak(brk, -(k * UNIT)), brk / PAGE;
    assert u == if k > brk then brk else brk - k by {
      assert k <= brk ==> brk * UNIT - k * UNIT == (brk - k) * UNIT;
    }
    assert brk == q * PAGE + brk % PAGE;
    PageUpLeast(u, q);
    assert PageUp(u) <= brk <==> PageUp(u) <= q * PAGE by {
      var p := PageUp(u) / PAGE;
      assert PageUp(u) == p * PAGE;
      assert p * PAGE <= brk ==> p <= q;
    }
  }

  lemma ShrinkArgument(nbytes: nat)
    requires UINT_MOD / 2 - 32 < nbytes <= UINT_MOD - UNIT
    ensures var n := Arena.UnitsFor(nbytes);
            n <= UINT_MOD / UNIT && SbrkArgument(n) == -((UINT_MOD / UNIT - n) * UNIT)
  {
  }

  /** Exactly which requests kill the program, by the size and the place of the break in its
      page: k is the number of units by which sbrk is told to shrink. */
  lemma KillingIff(brk: nat, nbytes: nat)
    requires nbytes < UINT_MOD
    ensures var k := UINT_MOD / UNIT - Arena.UnitsFor(nbytes);
            Arena.Killing(brk, nbytes) <==>
              && UINT_MOD / 2 - 32 < nbytes <= UINT_MOD - UNIT
              && (brk % PAGE == 0 || (0 < k <= brk && brk % PAGE <= k))
  {
    HonestIff(nbytes);
    var n := Arena.UnitsFor(nbytes);
    if UINT_MOD / 2 - 32 < nbytes <= UINT_MOD - UNIT {
      ShrinkArgument(nbytes);
      FaultsByPage(brk, UINT_MOD / UNIT - n);
    } else {
      var a := SbrkArgument(Arena.CoreFor(n));
      assert a >= UNIT by {
        assert nbytes > UINT_MOD - UNIT ==> n == UINT_MOD / UNIT + 1;
      }
      if Faults(brk, a) {
        FaultGivesNothing({}, brk, a);
      }
    }
  }

  lemma SbrkWithin(granted: set<nat>, supplied: set<nat>, brk: nat, nu: nat)
    requires granted <= supplied && Units(brk, nu) <= supplied
    ensures AfterSbrk(granted, brk, SbrkArgument(nu)) <= supplied
  {
    var n := SbrkArgument(nu);
    assert n >= 0 ==> n / UNIT <= nu;
  }

  /** A request reaches sbrk undistorted exactly when it is for at most 2^31 - 32 bytes. */
  lemma HonestIff(nbytes: nat)
    requires nbytes < UINT_MOD
    ensures var nu := Arena.CoreFor(Arena.UnitsFor(nbytes));
            && (SbrkArgument(nu) == nu * UNIT <==> nbytes <= UINT_MOD / 2 - 32)
            && (nbytes > UINT_MOD / 2 - 32 ==> nu == Arena.UnitsFor(nbytes) && SbrkArgument(nu) < (nu - 1) * UNIT)
  {
  }

  /** What malloc asked for is what it got, exactly for those requests; for the others the
      last unit is never there. */
  lemma Handover(granted: set<nat>, supplied: set<nat>, brk: nat, nbytes: nat)
    requires nbytes < UINT_MOD && granted <= supplied
    requires var nu := Arena.CoreFor(Arena.UnitsFor(nbytes)); supplied !! Units(brk, nu)
    ensures var nu := Arena.CoreFor(Arena.UnitsFor(nbytes));
            var got := AfterSbrk(granted, brk, SbrkArgument(nu));
            && (nbytes <= UINT_MOD / 2 - 32 ==> got == granted + Units(brk, nu))
            && (nbytes > UINT_MOD / 2 - 32 ==>
                  nu == Arena.UnitsFor(nbytes) && brk + nu - 1 in Units(brk, nu) && brk + nu - 1 !in got)
  {
    HonestIff(nbytes);
    hide SbrkArgument;
    var nu := Arena.CoreFor(Arena.UnitsFor(nbytes));
    assert InBlock(brk, nu, brk + nu - 1);
    if nbytes <= UINT_MOD / 2 - 32 {
      assert nu * UNIT / UNIT == nu;
    } else {
      assert SbrkArgument(nu) >= 0 ==> SbrkArgument(nu) / UNIT < nu;
    }
  }

  lemma BlockSupplied(mem: Memory, list: seq<nat>, used: map<nat, nat>, supplied: set<nat>, a: nat)
    requires Tiled(mem, list, used, supplied) && a in used
    ensures Units(a, used[a]) <= supplied
  {
    forall u | u in Units(a, used[a])
      ensures u in supplied
    {
      assert InBlock(a, used[a], u) && IsUsed(used, u);
    }
  }

  /** Whether a block at a is all the program's. */
  lemma Verdict(granted0: set<nat>, supplied0: set<nat>, granted: set<nat>, supplied: set<nat>,
                a: nat, nbytes: nat, brk: nat, grew: bool)
    requires nbytes < UINT_MOD && granted0 <= supplied0 && granted <= supplied
    requires !grew ==> granted == granted0 && supplied == supplied0
    requires var nu := Arena.CoreFor(Arena.UnitsFor(nbytes));
             grew ==> && supplied == supplied0 + Units(brk, nu)
                      && (nbytes <= UINT_MOD / 2 - 32 ==> granted == granted0 + Units(brk, nu))
                      && (nbytes > UINT_MOD / 2 - 32 ==>
                            && nu == Arena.UnitsFor(nbytes) && brk + nu - 1 in Units(brk, nu) && brk + nu - 1 !in granted
                            && InBlock(a, nu, brk + nu - 1))
    requires Units(a, Arena.UnitsFor(nbytes)) <= supplied
    ensures granted0 == supplied0 ==>
              && (granted == supplied <==> !grew || nbytes <= UINT_MOD / 2 - 32)
              && (Units(a, Arena.UnitsFor(nbytes)) <= granted <==> !grew || nbytes <= UINT_MOD / 2 - 32)
  {
    if grew && nbytes > UINT_MOD / 2 - 32 {
      var u := brk + Arena.UnitsFor(nbytes) - 1;
      assert u in Units(a, Arena.UnitsFor(nbytes)) && u in supplied && u !in granted;
    }
  }

  lemma FitsNow(mem: Memory, list: seq<nat>, brk: nat, nunits: nat)
    requires HasBlock(mem, list, brk, Arena.CoreFor(nunits))
    ensures exists k :: 0 <= k < |list| && list[k] in mem && mem[list[k]].size >= nunits
  {
    var k :| 0 <= k < |list| && list[k] in mem && list[k] <= brk
             && brk + Arena.CoreFor(nunits) <= list[k] + mem[list[k]].size;
  }

  /** A large first request: it kills the program, or returns a block that is not all the
      program's. */
  method LargeRequest(b: nat, nbytes: nat, brk: nat) returns (heap: Arena, r: nat, ok: bool)
    requires 0 < b < brk && UINT_MOD / 2 - 32 < nbytes < UINT_MOD
    ensures fresh(heap) && heap.Valid()
    ensures ok <==> !Arena.Killing(brk, nbytes)
    ensures ok ==> r != 0 && r - 1 in heap.used && !(Units(r - 1, heap.used[r - 1]) <= heap.granted)
  {
    heap := new Arena(b);
    r, ok := heap.Malloc(nbytes, brk);
  }
}
