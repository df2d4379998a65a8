/** Bytes moved between the kernel and a user address space. */
module UserCopy {
  import opened Common
  import opened PageTree
  import opened PageOwnership
  import opened VirtualMemory
  import opened UserMemory
  import opened AddressSpace

  ghost predicate AllAccessible(m: Mem, root: nat, va: nat, len: nat) {
    forall a: nat :: va <= a < va + len ==> Accessible(m, root, a)
  }

  /** Only contents differ. */
  predicate SameShape(m: Mem, m': Mem) {
    m' == m.(data := m'.data) && m'.data.Keys == m.data.Keys
  }

  ghost predicate OnlyFramesOf(m: Mem, m': Mem, root: nat)
    requires SameShape(m, m')
  {
    forall f: nat :: f in m.data && f in m.place && !(m.place[f].Mapped? && m.place[f].root == root) ==>
      m'.data[f] == m.data[f]
  }

  /** bytes are at va of root, and no other byte of any address space is different. */
  ghost predicate Wrote(m: Mem, m': Mem, root: nat, va: nat, bytes: seq<Byte>) {
    && SameShape(m, m') && OnlyFramesOf(m, m', root)
    && forall r: nat, a: nat :: IsRoot(m, r) && Accessible(m, r, a) ==>
         Accessible(m', r, a) && UserByte(m', r, a) ==
         if r == root && va <= a < va + |bytes| then bytes[a - va] else UserByte(m, r, a)
  }

  lemma WroteNothing(m: Mem, root: nat, va: nat)
    ensures Wrote(m, m, root, va, [])
  {
  }

  lemma WroteFacts(m: Mem, m': Mem, root: nat, va: nat, bytes: seq<Byte>, a: nat)
    requires Wrote(m, m', root, va, bytes) && IsRoot(m, root)
    ensures IsRoot(m', root) && (Accessible(m, root, a) <==> Accessible(m', root, a))
    ensures m'.ts == m.ts && m'.place == m.place
  {
  }

  /** Addresses a, ..., a + n - 1 of one page. */
  lemma WithinPage(a: nat, n: nat, x: nat)
    requires a % PGSIZE + n <= PGSIZE
    ensures a <= x < a + n <==> x / PGSIZE == a / PGSIZE && a % PGSIZE <= x % PGSIZE < a % PGSIZE + n
    ensures a <= x < a + n ==> x - a == x % PGSIZE - a % PGSIZE
  {
  }

  function Patched(f: Frame, off: nat, bytes: seq<Byte>): (g: Frame)
    requires off + |bytes| <= PGSIZE
  {
    f[..off] + bytes + f[off + |bytes|..]
  }

  /** memmove into the frame of one page. */
  lemma WroteChunk(m: Mem, m': Mem, all: set<nat>, root: nat, a: nat, bytes: seq<Byte>)
    requires Inv(m, all) && IsRoot(m, root) && Accessible(m, root, a) && a % PGSIZE + |bytes| <= PGSIZE
    requires var f := Lookup(m.ts, root, a / PGSIZE).ppn;
             m' == m.(data := m.data[f := Patched(m.data[f], a % PGSIZE, bytes)])
    ensures Wrote(m, m', root, a, bytes) && Inv(m', all)
  {
    var f := Lookup(m.ts, root, a / PGSIZE).ppn;
    Rewritten(m, all, f, Patched(m.data[f], a % PGSIZE, bytes));
    assert UserOwned(m, root, a / PGSIZE);
    forall r: nat, x: nat | IsRoot(m, r) && Accessible(m, r, x)
      ensures Accessible(m', r, x)
      ensures UserByte(m', r, x) == if r == root && a <= x < a + |bytes| then bytes[x - a] else UserByte(m, r, x)
    {
      assert UserOwned(m, r, x / PGSIZE);
      hide Lookup, Inv;
      WithinPage(a, |bytes|, x);
    }
  }

  lemma WroteMore(m: Mem, m1: Mem, m2: Mem, root: nat, va: nat, b1: seq<Byte>, b2: seq<Byte>)
    requires Wrote(m, m1, root, va, b1) && Wrote(m1, m2, root, va + |b1|, b2)
    ensures Wrote(m, m2, root, va, b1 + b2)
  {
    hide Lookup;
    forall r: nat, x: nat | IsRoot(m, r) && Accessible(m, r, x)
      ensures Accessible(m2, r, x)
      ensures UserByte(m2, r, x) ==
              if r == root && va <= x < va + |b1 + b2| then (b1 + b2)[x - va] else UserByte(m, r, x)
    {
      assert IsRoot(m1, r) && Accessible(m1, r, x);
    }
  }

  /** walkaddr: the frame of a user page. */
  method Walkaddr(vm: Vm, root: nat, va: nat) returns (pa: nat, ok: bool)
    requires vm.Valid() && IsRoot(vm.View(), root)
    modifies vm`free, vm`ts, vm`data, vm`pos, vm`place
    ensures vm.View() == old(vm.View()) && (ok <==> Accessible(vm.View(), root, va))
    ensures ok ==> pa == Lookup(vm.ts, root, va / PGSIZE).ppn && pa in vm.data
    ensures ok <==> va / PGSIZE < VPAGES && {V, U} <= Lookup(vm.ts, root, va / PGSIZE).flags
  {
    if va >= VPAGES * PGSIZE {
      return 0, false;
    }
    UserFrame(vm.View(), vm.all, root, va / PGSIZE);
    hide Inv, Extends;
    var t;
    t, ok := vm.Walk(root, va / PGSIZE, false);
    if !ok {
      return 0, false;
    }
    var pte := vm.ts[t][Index(0, va / PGSIZE)];
    if !pte.Valid() || U !in pte.flags {
      return 0, false;
    }
    return pte.ppn, true;
  }

  /** One page is all accessible or not at all. */
  lemma PageAccess(m: Mem, root: nat, a: nat, x: nat)
    requires a / PGSIZE == x / PGSIZE
    ensures Accessible(m, root, a) <==> Accessible(m, root, x)
  {
  }

  lemma NextPage(a: nat)
    ensures a / PGSIZE * PGSIZE + PGSIZE == a + (PGSIZE - a % PGSIZE)
    ensures a / PGSIZE * PGSIZE / PGSIZE == a / PGSIZE
  {
  }

  /** The pages up to a + k are accessible, and so is the one of a + k. */
  lemma AccessMore(m: Mem, root: nat, va: nat, k: nat, n: nat)
    requires AllAccessible(m, root, va, k) && Accessible(m, root, va + k) && (va + k) % PGSIZE + n <= PGSIZE
    ensures AllAccessible(m, root, va, k + n)
  {
    forall a: nat | va <= a < va + (k + n)
      ensures Accessible(m, root, a)
    {
      if a >= va + k {
        WithinPage(va + k, n, a);
        PageAccess(m, root, va + k, a);
      }
    }
  }

  /** copyout: writes all of src at dstva exactly when every byte there is accessible;
      otherwise it stops with a prefix written, at the first page that is not. */
  method Copyout(vm: Vm, root: nat, dstva: nat, src: seq<Byte>) returns (r: int, ghost k: nat)
    requires vm.Valid() && IsRoot(vm.View(), root)
    modifies vm`free, vm`ts, vm`data, vm`pos, vm`place
    ensures vm.Valid() && k <= |src| && Wrote(old(vm.View()), vm.View(), root, dstva, src[..k])
    ensures r == 0 ==> k == |src| && AllAccessible(old(vm.View()), root, dstva, |src|)
    ensures r != 0 ==> r == -1 && k < |src| && !Accessible(old(vm.View()), root, dstva + k)
  {
    hide Inv, Accessible, AllAccessible, Wrote, IsRoot;
    ghost var m0 := vm.View();
    WroteNothing(m0, root, dstva);
    NoneYet(m0, root, dstva);
    var va, i := dstva, 0;
    while i < |src|
      invariant i <= |src| && (i < |src| ==> va == dstva + i)
      invariant vm.Valid() && IsRoot(vm.View(), root)
      invariant Wrote(m0, vm.View(), root, dstva, src[..i]) && AllAccessible(m0, root, dstva, i)
    {
      ghost var m := vm.View();
      NextPage(va);
      PageAccess(m, root, va / PGSIZE * PGSIZE, va);
      WroteFacts(m0, m, root, dstva, src[..i], va);
      var pa, ok := Walkaddr(vm, root, va / PGSIZE * PGSIZE);
      if !ok {
        return -1, i;
      }
      var n := Min(PGSIZE - va % PGSIZE, |src| - i);
      ghost var b := src[i..i + n];
      vm.data := vm.data[pa := Patched(vm.data[pa], va % PGSIZE, src[i..i + n])];
      WroteChunk(m, vm.View(), vm.all, root, va, b);
      WroteMore(m0, m, vm.View(), root, dstva, src[..i], b);
      WroteFacts(m, vm.View(), root, va, b, va);
      AccessMore(m0, root, dstva, i, n);
      assert src[..i] + b == src[..i + n];
      i := i + n;
      va := va / PGSIZE * PGSIZE + PGSIZE;
    }
    return 0, i;
  }

  lemma NoneYet(m: Mem, root: nat, va: nat)
    ensures AllAccessible(m, root, va, 0)
  {
  }

  /** dst is what stands at va of root. */
  ghost predicate ReadFrom(m: Mem, root: nat, va: nat, dst: seq<Byte>) {
    forall a: nat {:trigger Accessible(m, root, a)} :: va <= a < va + |dst| ==>
      Accessible(m, root, a) && dst[a - va] == UserByte(m, root, a)
  }

  lemma ReadMore(m: Mem, root: nat, va: nat, dst: seq<Byte>, n: nat)
    requires ReadFrom(m, root, va, dst) && Accessible(m, root, va + |dst|)
    requires (va + |dst|) % PGSIZE + n <= PGSIZE
    ensures var f := m.data[Lookup(m.ts, root, (va + |dst|) / PGSIZE).ppn];
            var off := (va + |dst|) % PGSIZE;
            ReadFrom(m, root, va, dst + f[off..off + n])
  {
    var c := va + |dst|;
    var f, off := m.data[Lookup(m.ts, root, c / PGSIZE).ppn], c % PGSIZE;
    hide Lookup;
    forall a: nat | va <= a < va + (|dst| + n)
      ensures Accessible(m, root, a) && (dst + f[off..off + n])[a - va] == UserByte(m, root, a)
    {
      assert a < c ==> Accessible(m, root, a);
      WithinPage(c, n, a);
    }
  }

  /** copyin: the bytes at srcva, exactly when every one of them is accessible. */
  method Copyin(vm: Vm, root: nat, srcva: nat, len: nat) returns (r: int, dst: seq<Byte>)
    requires vm.Valid() && IsRoot(vm.View(), root)
    modifies vm`free, vm`ts, vm`data, vm`pos, vm`place
    ensures vm.View() == old(vm.View()) && |dst| <= len && ReadFrom(vm.View(), root, srcva, dst)
    ensures r == 0 ==> |dst| == len
    ensures r != 0 ==> r == -1 && |dst| < len && !Accessible(vm.View(), root, srcva + |dst|)
  {
    hide Inv, Accessible, ReadFrom;
    StartRead(vm.View(), root, srcva);
    dst := [];
    var va := srcva;
    while |dst| < len
      invariant vm.View() == old(vm.View()) && |dst| <= len && (|dst| < len ==> va == srcva + |dst|)
      invariant ReadFrom(vm.View(), root, srcva, dst)
      decreases len - |dst|
    {
      NextPage(va);
      PageAccess(vm.View(), root, va / PGSIZE * PGSIZE, va);
      var pa, ok := Walkaddr(vm, root, va / PGSIZE * PGSIZE);
      if !ok {
        return -1, dst;
      }
      var n := Min(PGSIZE - va % PGSIZE, len - |dst|);
      ReadMore(vm.View(), root, srcva, dst, n);
      dst := dst + vm.data[pa][va % PGSIZE..va % PGSIZE + n];
      va := va / PGSIZE * PGSIZE + PGSIZE;
    }
    r := 0;
  }

  lemma StartRead(m: Mem, root: nat, va: nat)
    ensures ReadFrom(m, root, va, [])
  {
  }

  /** copyinstr: the string at srcva with its NUL, when a NUL is met within max accessible
      bytes; dst never holds an earlier NUL. */
  method Copyinstr(vm: Vm, root: nat, srcva: nat, max: nat) returns (r: int, dst: seq<Byte>)
    requires vm.Valid() && IsRoot(vm.View(), root)
    modifies vm`free, vm`ts, vm`data, vm`pos, vm`place
    ensures vm.View() == old(vm.View()) && |dst| <= max && ReadFrom(vm.View(), root, srcva, dst)
    ensures forall i :: 0 <= i < |dst| - 1 ==> dst[i] != 0
    ensures r == 0 ==> dst != [] && dst[|dst| - 1] == 0
    ensures r != 0 ==> r == -1 && 0 !in dst
                       && (|dst| == max || !Accessible(vm.View(), root, srcva + |dst|))
  {
    hide Inv, Accessible, ReadFrom;
    StartRead(vm.View(), root, srcva);
    dst := [];
    var va, gotNull := srcva, false;
    while !gotNull && |dst| < max
      invariant vm.View() == old(vm.View()) && |dst| <= max && (!gotNull && |dst| < max ==> va == srcva + |dst|)
      invariant ReadFrom(vm.View(), root, srcva, dst)
      invariant forall i :: 0 <= i < |dst| - 1 ==> dst[i] != 0
      invariant if gotNull then dst != [] && dst[|dst| - 1] == 0 else 0 !in dst
      decreases !gotNull, max - |dst|
    {
      NextPage(va);
      PageAccess(vm.View(), root, va / PGSIZE * PGSIZE, va);
      var pa, ok := Walkaddr(vm, root, va / PGSIZE * PGSIZE);
      if !ok {
        return -1, dst;
      }
      var n := Min(PGSIZE - va % PGSIZE, max - |dst|);
      var chunk := ScanChunk(vm.data[pa], va % PGSIZE, n);
      ReadMore(vm.View(), root, srcva, dst, |chunk|);
      gotNull := chunk[|chunk| - 1] == 0;
      dst := dst + chunk;
      va := va / PGSIZE * PGSIZE + PGSIZE;
    }
    r := if gotNull then 0 else -1;
  }

  /** The inner loop of copyinstr: bytes up to and including the first NUL, at most n. */
  method ScanChunk(f: Frame, off: nat, n: nat) returns (chunk: seq<Byte>)
    requires 0 < n && off + n <= PGSIZE
    ensures 0 < |chunk| <= n && chunk == f[off..off + |chunk|]
    ensures forall i :: 0 <= i < |chunk| - 1 ==> chunk[i] != 0
    ensures chunk[|chunk| - 1] != 0 ==> |chunk| == n
  {
    chunk := [];
    while |chunk| < n
      invariant |chunk| <= n && chunk == f[off..off + |chunk|] && 0 !in chunk
      decreases n - |chunk|
    {
      var b := f[off + |chunk|];
      chunk := chunk + [b];
      if b == 0 {
        return;
      }
    }
  }

  // ----- isolation

  /** Nothing that root r does not reach has changed. */
  ghost predicate Confined(m: Mem, m': Mem, r: nat) {
    && SameShape(m, m')
    && forall q: nat, a: nat :: IsRoot(m, q) && q != r && Accessible(m, q, a) ==>
         Accessible(m', q, a) && UserByte(m', q, a) == UserByte(m, q, a)
  }

  lemma CopyoutConfined(m: Mem, m': Mem, r: nat, va: nat, bytes: seq<Byte>)
    requires Wrote(m, m', r, va, bytes)
    ensures Confined(m, m', r)
  {
    hide Lookup;
  }

  ghost predicate SomeCopyout(m: Mem, m': Mem, r: nat) {
    exists va: nat, bytes: seq<Byte> :: Wrote(m, m', r, va, bytes)
  }

  /** Any number of copyouts through r, whole or cut short. */
  ghost predicate CopyoutRun(ms: seq<Mem>, r: nat) {
    && ms != []
    && forall i, j {:trigger SomeCopyout(ms[i], ms[j], r)} :: 0 <= i < j < |ms| && j == i + 1 ==>
         SomeCopyout(ms[i], ms[j], r)
  }

  lemma {:induction false} RunConfined(ms: seq<Mem>, r: nat)
    requires CopyoutRun(ms, r)
    ensures Confined(ms[0], ms[|ms| - 1], r)
    decreases |ms|
  {
    hide Lookup, Wrote;
    if |ms| > 1 {
      var k := |ms| - 1;
      var init := ms[..k];
      forall i, j | 0 <= i < j < |init| && j == i + 1
        ensures SomeCopyout(init[i], init[j], r)
      {
        assert SomeCopyout(ms[i], ms[j], r);
      }
      RunConfined(init, r);
      assert SomeCopyout(ms[k - 1], ms[k], r);
      var va: nat, bytes :| Wrote(ms[k - 1], ms[k], r, va, bytes);
      CopyoutConfined(ms[k - 1], ms[k], r, va, bytes);
      ConfinedTwice(ms[0], ms[k - 1], ms[k], r);
    }
  }

  lemma ConfinedTwice(m: Mem, m1: Mem, m2: Mem, r: nat)
    requires Confined(m, m1, r) && Confined(m1, m2, r)
    ensures Confined(m, m2, r)
  {
    hide Lookup;
  }

  /** After a fork, however many bytes are written through one of the two tables, the other
      still reads, at every address below sz, what the parent held at the fork. */
  lemma ForkIsolates(m0: Mem, src: nat, dst: nat, sz: nat, ms: seq<Mem>, writer: nat, a: nat)
    requires CopyoutRun(ms, writer) && (writer == src || writer == dst)
    requires Forked(m0, ms[0], src, dst, sz) && a < sz && Accessible(m0, src, a)
    ensures var reader := if writer == src then dst else src;
            Accessible(ms[|ms| - 1], reader, a) && UserByte(ms[|ms| - 1], reader, a) == UserByte(m0, src, a)
  {
    RunConfined(ms, writer);
    hide Lookup;
    var reader := if writer == src then dst else src;
    assert IsRoot(ms[0], reader);
    assert SameByte(m0, src, ms[0], src, a) && SameByte(m0, src, ms[0], dst, a);
  }
}
