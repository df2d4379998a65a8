/** A file as a flat sequence of bytes, and how reading and writing it block by block
    comes to the same thing. */
module FileContent {
  import opened Common
  import opened FsImage
  import opened FsOwnership
  import opened FileSystem

  const MAXBYTES: nat := MAXFILE * BSIZE

  /** Every block below a file's size is allocated. */
  ghost predicate Solid(fs: Fs) {
    forall i: nat :: i < |fs.inodes| ==> SolidTo(fs, i, fs.inodes[i].size)
  }

  ghost predicate SolidTo(fs: Fs, inum: nat, n: nat)
    requires inum < |fs.inodes|
  {
    n <= MAXBYTES
    && forall bn: nat :: bn < MAXFILE && bn * BSIZE < n ==> Addr(fs, FileSlot(inum, bn)) != 0
  }

  ghost function Content(fs: Fs, inum: nat): (r: seq<Byte>)
    requires inum < |fs.inodes| && fs.inodes[inum].size <= MAXBYTES
    ensures |r| == fs.inodes[inum].size
  {
    seq(fs.inodes[inum].size, k requires 0 <= k < fs.inodes[inum].size => ByteAt(fs, inum, k))
  }

  /** src written over was at off, where off is at most |was|. */
  function Splice(was: seq<Byte>, off: nat, src: seq<Byte>): (r: seq<Byte>)
    requires off <= |was|
  {
    was[..off] + src + (if off + |src| <= |was| then was[off + |src|..] else [])
  }

  /** Bytes [off, off + |src|) of file inum are those of src; every other byte of every
      file is as in fs. */
  ghost predicate Wrote(fs: Fs, fs': Fs, inum: nat, off: nat, src: seq<Byte>) {
    && |fs'.inodes| == |fs.inodes|
    && forall i: nat, k: nat :: i < |fs.inodes| && k < MAXBYTES ==>
         ByteAt(fs', i, k) ==
         if i == inum && off <= k < off + |src| then src[k - off] else ByteAt(fs, i, k)
  }

  /** The blocks that [off, off + n) touches. */
  function Span(off: nat, n: nat): (c: nat)
    ensures n == 0 <==> c == 0
  {
    if n == 0 then 0 else (off + n - 1) / BSIZE - off / BSIZE + 1
  }

  /** Distinct blocks that writing n bytes at off may log: the data blocks, the bitmap
      block of each new one and of a new indirect block, the indirect block and the
      inode.  A first block that is only partly overwritten exists already. */
  function LogCost(off: nat, n: nat): int {
    2 * Span(off, n) - Count(off % BSIZE > 0) + 3
  }

  /** A chunk that filewrite gives to writei never needs more than MAXOPBLOCKS. */
  lemma ChunkFits(off: nat, n: nat)
    requires n <= 3 * BSIZE
    ensures LogCost(off, n) <= MAXOPBLOCKS
  {
  }

  // ----- the blocks a write has to allocate

  /** Blocks lo..hi-1 that file inum does not have. */
  ghost function Missing(fs: Fs, inum: nat, lo: nat, hi: nat): (n: nat)
    requires inum < |fs.inodes| && hi <= MAXFILE
    decreases hi - lo
  {
    if lo >= hi then 0 else Count(Addr(fs, FileSlot(inum, lo)) == 0) + Missing(fs, inum, lo + 1, hi)
  }

  /** One past the last block that [off, off + n) touches. */
  function EndBlock(off: nat, n: nat): (b: nat) {
    if n == 0 then off / BSIZE else (off + n - 1) / BSIZE + 1
  }

  lemma EndInFile(off: nat, n: nat)
    requires off + n <= MAXBYTES
    ensures off / BSIZE <= EndBlock(off, n) <= MAXFILE
  {
  }

  /** Blocks that writing n bytes at off allocates: those of the range that the file does
      not have, and its indirect block. */
  ghost function Need(fs: Fs, inum: nat, off: nat, n: nat): (r: nat)
    requires inum < |fs.inodes| && off + n <= MAXBYTES
  {
    EndInFile(off, n);
    if n == 0 then 0
    else Missing(fs, inum, off / BSIZE, EndBlock(off, n))
         + Count(EndBlock(off, n) > NDIRECT && TableOf(fs, inum) == {})
  }

  /** fs' differs from fs in the blocks lo..hi-1 of file inum, all of which it has now, and
      perhaps in its indirect block. */
  ghost predicate Grew(fs: Fs, fs': Fs, inum: nat, lo: nat, hi: nat) {
    && inum < |fs.inodes| == |fs'.inodes| && fs'.sb == fs.sb && hi <= MAXFILE
    && (forall i :: 0 <= i < |fs.inodes| && i != inum ==> fs'.inodes[i] == fs.inodes[i])
    && (forall i: nat, bn: nat :: i < |fs.inodes| && bn < MAXFILE && !(i == inum && lo <= bn < hi) ==>
          Addr(fs', FileSlot(i, bn)) == Addr(fs, FileSlot(i, bn)))
    && (forall bn: nat :: lo <= bn < hi ==> Addr(fs', FileSlot(inum, bn)) != 0)
    && (TableOf(fs, inum) != {} ==> TableOf(fs', inum) == TableOf(fs, inum))
    && (lo >= hi || hi <= NDIRECT ==> TableOf(fs', inum) == TableOf(fs, inum))
  }

  lemma GrewSelf(fs: Fs, inum: nat, lo: nat)
    requires inum < |fs.inodes| && lo <= MAXFILE
    ensures Grew(fs, fs, inum, lo, lo)
  {
  }

  lemma GrewTwice(fs: Fs, fs': Fs, fs'': Fs, inum: nat, lo: nat, mid: nat, lo': nat, hi: nat)
    requires Grew(fs, fs', inum, lo, mid) && Grew(fs', fs'', inum, lo', hi) && lo <= lo' <= mid <= hi
    ensures Grew(fs, fs'', inum, lo, hi)
  {
    hide Addr;
    forall bn: nat | lo <= bn < hi
      ensures Addr(fs'', FileSlot(inum, bn)) != 0
    {
      assert bn < lo' ==> Addr(fs'', FileSlot(inum, bn)) == Addr(fs', FileSlot(inum, bn));
    }
  }

  lemma {:induction false} MissingSplit(fs: Fs, inum: nat, lo: nat, mid: nat, hi: nat)
    requires inum < |fs.inodes| && lo <= mid <= hi <= MAXFILE
    ensures Missing(fs, inum, lo, hi) == Missing(fs, inum, lo, mid) + Missing(fs, inum, mid, hi)
    decreases mid - lo
  {
    hide Addr;
    if lo < mid { MissingSplit(fs, inum, lo + 1, mid, hi); }
  }

  lemma {:induction false} MissingSame(fs: Fs, fs': Fs, inum: nat, lo: nat, hi: nat)
    requires inum < |fs.inodes| && inum < |fs'.inodes| && hi <= MAXFILE
    requires forall bn: nat :: lo <= bn < hi ==> Addr(fs', FileSlot(inum, bn)) == Addr(fs, FileSlot(inum, bn))
    ensures Missing(fs', inum, lo, hi) == Missing(fs, inum, lo, hi)
    decreases hi - lo
  {
    hide Addr;
    if lo < hi { MissingSame(fs, fs', inum, lo + 1, hi); }
  }

  lemma {:induction false} MissingNone(fs: Fs, inum: nat, lo: nat, hi: nat)
    requires inum < |fs.inodes| && hi <= MAXFILE
    requires forall bn: nat :: lo <= bn < hi ==> Addr(fs, FileSlot(inum, bn)) != 0
    ensures Missing(fs, inum, lo, hi) == 0
    decreases hi - lo
  {
    hide Addr;
    if lo < hi { MissingNone(fs, inum, lo + 1, hi); }
  }

  lemma EndSplit(off: nat, a: nat, b: nat)
    requires a > 0
    ensures EndBlock(off, a) - 1 <= (off + a) / BSIZE <= EndBlock(off, a)
    ensures off / BSIZE < EndBlock(off, a) <= EndBlock(off, a + b)
    ensures b > 0 ==> EndBlock(off + a, b) == EndBlock(off, a + b)
  {
  }

  /** A write of a + b bytes needs what the first a of them need, and then what the rest
      need in the state that leaves. */
  lemma NeedSplit(fs: Fs, fs': Fs, inum: nat, off: nat, a: nat, b: nat)
    requires Grew(fs, fs', inum, off / BSIZE, EndBlock(off, a)) && off + a + b <= MAXBYTES
    ensures Need(fs, inum, off, a + b) == Need(fs, inum, off, a) + Need(fs', inum, off + a, b)
  {
    hide Addr, TableOf, EndBlock;
    if a == 0 {
      ZeroEnd(off);
      if b > 0 {
        EndInFile(off, b);
        MissingSame(fs, fs', inum, off / BSIZE, EndBlock(off, b));
      }
    } else if b > 0 {
      EndSplit(off, a, b);
      EndInFile(off, a + b);
      var lo, mid, hi, lo' := off / BSIZE, EndBlock(off, a), EndBlock(off, a + b), (off + a) / BSIZE;
      MissingSplit(fs, inum, lo, mid, hi);
      MissingSplit(fs', inum, lo', mid, hi);
      MissingNone(fs', inum, lo', mid);
      MissingSame(fs, fs', inum, mid, hi);
      NeedTable(fs, fs', inum, lo, mid);
    }
  }

  lemma ZeroEnd(off: nat)
    ensures EndBlock(off, 0) == off / BSIZE
  {
  }

  lemma NeedTable(fs: Fs, fs': Fs, inum: nat, lo: nat, mid: nat)
    requires Grew(fs, fs', inum, lo, mid) && lo < mid
    ensures if mid > NDIRECT then TableOf(fs', inum) != {} else TableOf(fs', inum) == TableOf(fs, inum)
  {
    if mid > NDIRECT {
      assert FileSlot(inum, mid - 1) == Entry(inum, mid - 1 - NDIRECT);
      assert Addr(fs', FileSlot(inum, mid - 1)) != 0;
      EntryHasTable(fs', inum, mid - 1 - NDIRECT);
    }
  }

  /** One turn of writei's loop allocates what bmap does. */
  lemma NeedOne(fs: Fs, inum: nat, off: nat, m: nat)
    requires inum < |fs.inodes| && 0 < m <= BSIZE - off % BSIZE && off + m <= MAXBYTES
    ensures EndBlock(off, m) == off / BSIZE + 1
    ensures Need(fs, inum, off, m) == BmapCost(fs, inum, off / BSIZE)
  {
    hide Addr, TableOf;
    OneBlock(off, m);
    EndInFile(off, m);
    assert Missing(fs, inum, off / BSIZE + 1, off / BSIZE + 1) == 0;
  }

  lemma OneBlock(off: nat, m: nat)
    requires 0 < m <= BSIZE - off % BSIZE
    ensures EndBlock(off, m) == off / BSIZE + 1
  {
  }

  lemma GrewByOne(fs: Fs, fs': Fs, inum: nat, bn: nat)
    requires inum < |fs.inodes| && bn < MAXFILE && OnlySlot(fs, fs', inum, bn)
    requires Addr(fs', FileSlot(inum, bn)) != 0
    requires TableOf(fs, inum) != {} ==> TableOf(fs', inum) == TableOf(fs, inum)
    ensures Grew(fs, fs', inum, bn, bn + 1)
  {
    hide Addr;
    forall i: nat, b: nat | i < |fs.inodes| && b < MAXFILE && !(i == inum && bn <= b < bn + 1)
      ensures Addr(fs', FileSlot(i, b)) == Addr(fs, FileSlot(i, b))
    {
      assert FileSlot(i, b).In(fs) && FileSlot(i, b) != FileSlot(inum, bn);
    }
  }

  // ----- what a write logs

  lemma SpanStep(off: nat, tot: nat, m: nat)
    requires 0 < m <= BSIZE - (off + tot) % BSIZE
    requires tot > 0 ==> (off + tot) % BSIZE == 0
    ensures Span(off, tot + m) == Span(off, tot) + 1
  {
  }

  lemma WroteStep(fs0: Fs, fs: Fs, fs': Fs, inum: nat, off: nat, src: seq<Byte>, more: seq<Byte>)
    requires Wrote(fs0, fs, inum, off, src) && Wrote(fs, fs', inum, off + |src|, more)
    ensures Wrote(fs0, fs', inum, off, src + more)
  {
    hide ByteAt;
  }

  /** Block contents `was` with `more` laid over it from byte `at`. */
  function Overlay(was: Block, at: nat, more: seq<Byte>): (r: Block)
    requires at + |more| <= BSIZE
    ensures forall k :: 0 <= k < BSIZE ==> r[k] == if at <= k < at + |more| then more[k - at] else was[k]
  {
    was[..at] + more + was[at + |more|..]
  }

  /** Overwriting part of one block of a file. */
  lemma BlockWrote(fs: Fs, owner: Owner, inum: nat, off: nat, a: nat, more: seq<Byte>)
    requires Owned(fs, owner, Whole) && inum < |fs.inodes| && off < MAXBYTES
    requires a in owner && owner[a] == FileSlot(inum, off / BSIZE) && off % BSIZE + |more| <= BSIZE
    ensures var fs' := fs.(blocks := fs.blocks[a := Overlay(fs.blocks[a], off % BSIZE, more)]);
            && Owned(fs', owner, Whole) && Wrote(fs, fs', inum, off, more) && KeepsSlots(fs, fs')
            && forall r: Slot :: r.In(fs) ==> Addr(fs', r) == Addr(fs, r)
  {
    var data := Overlay(fs.blocks[a], off % BSIZE, more);
    var fs' := fs.(blocks := fs.blocks[a := data]);
    WriteBlock(fs, owner, a, data);
    assert Live(fs, Whole, owner[a]) == a && Addr(fs, owner[a]) == a;
    hide Owned, Addr;
    forall i: nat, k: nat | i < |fs.inodes| && k < MAXBYTES
      ensures ByteAt(fs', i, k) ==
              if i == inum && off <= k < off + |more| then more[k - off] else ByteAt(fs, i, k)
    {
      SameBlock(i, k, inum, off);
      assert FileSlot(i, k / BSIZE) == owner[a] ==> ByteAt(fs, i, k) == fs.blocks[a][k % BSIZE];
    }
  }

  lemma SameBlock(i: nat, k: nat, inum: nat, off: nat)
    requires k < MAXBYTES && off < MAXBYTES
    ensures FileSlot(i, k / BSIZE) == FileSlot(inum, off / BSIZE) <==> i == inum && k / BSIZE == off / BSIZE
    ensures k / BSIZE == off / BSIZE ==> k - off == k % BSIZE - off % BSIZE
  {
  }

  lemma ThenWrote(fs0: Fs, fs: Fs, fs': Fs, inum: nat, off: nat, src: seq<Byte>)
    requires SameBytes(fs0, fs) && Wrote(fs, fs', inum, off, src)
    ensures Wrote(fs0, fs', inum, off, src)
  {
    hide ByteAt;
  }

  lemma ValidShape(st: InodeLayer)
    requires st.Valid()
    ensures st.View().Shape()
  {
  }

  /** One turn of writei's loop: as much of src as fits in the block at off. */
  method WriteOne(st: InodeLayer, inum: nat, off: nat, src: seq<Byte>)
    returns (m: nat, ok: bool, ghost addr: nat, ghost bm: set<nat>)
    requires st.Valid() && inum < |st.inodes| && off < MAXBYTES && src != []
    modifies st`blocks, st`inodes, st`owner, st`logged
    ensures m == if |src| < BSIZE - off % BSIZE then |src| else BSIZE - off % BSIZE
    ensures ok <==> BmapCost(old(st.View()), inum, off / BSIZE) <= |Free(old(st.View()))|
    ensures ok ==> st.Valid() && inum < |st.inodes| && OnlySlot(old(st.View()), st.View(), inum, off / BSIZE)
                   && |Free(st.View())| == |Free(old(st.View()))| - BmapCost(old(st.View()), inum, off / BSIZE)
    ensures ok ==> st.Valid() && Wrote(old(st.View()), st.View(), inum, off, src[..m])
                   && KeepsSlots(old(st.View()), st.View())
                   && Addr(st.View(), FileSlot(inum, off / BSIZE)) != 0
    ensures ok ==>
              var was, now := TableOf(old(st.View()), inum), TableOf(st.View(), inum);
              && st.logged <= old(st.logged) + bm + {addr} + now
              && |bm| <= Count(Addr(old(st.View()), FileSlot(inum, off / BSIZE)) == 0) + Count(now != was)
              && (was != {} ==> now == was)
  {
    hide ByteAt, Owned, SameBytes, Wrote, KeepsSlots, Addr, Free, OnlySlot, BmapCost;
    ValidShape(st);
    var a;
    ghost var v0 := st.View();
    a, ok, bm := st.Bmap(inum, off / BSIZE);
    addr := a;
    m := if |src| < BSIZE - off % BSIZE then |src| else BSIZE - off % BSIZE;
    if !ok { return; }
    ghost var v := st.View();
    PutBytes(st, inum, off, a, src[..m]);
    ThenWrote(v0, v, st.View(), inum, off, src[..m]);
    SlotsStep(v0, v, st.View());
    ThenPut(v0, v, st.View(), st.owner, inum, off / BSIZE);
  }

  lemma ThenPut(fs0: Fs, fs: Fs, fs': Fs, owner: Owner, inum: nat, bn: nat)
    requires inum < |fs0.inodes| && bn < MAXFILE && OnlySlot(fs0, fs, inum, bn)
    requires Owned(fs, owner, Whole) && Owned(fs', owner, Whole) && fs'.inodes == fs.inodes && fs'.sb == fs.sb
    requires forall r: Slot :: r.In(fs) ==> Addr(fs', r) == Addr(fs, r)
    ensures OnlySlot(fs0, fs', inum, bn) && Free(fs') == Free(fs)
  {
    forall x: nat
      ensures x in Free(fs') <==> x in Free(fs)
    {
      FreeIsUnowned(fs, owner, x);
      FreeIsUnowned(fs', owner, x);
    }
    hide Addr, Owned;
  }

  /** either_copyin into the buffer of block a, and log_write. */
  method PutBytes(st: InodeLayer, inum: nat, off: nat, a: nat, bytes: seq<Byte>)
    requires st.Valid() && inum < |st.inodes| && off < MAXBYTES && off % BSIZE + |bytes| <= BSIZE
    requires a in st.owner && st.owner[a] == FileSlot(inum, off / BSIZE)
    modifies st`blocks, st`logged
    ensures st.Valid() && Wrote(old(st.View()), st.View(), inum, off, bytes)
    ensures KeepsSlots(old(st.View()), st.View()) && st.logged == old(st.logged) + {a}
    ensures Addr(st.View(), FileSlot(inum, off / BSIZE)) == a != 0
    ensures st.inodes == old(st.inodes) && st.owner == old(st.owner)
    ensures forall r: Slot :: r.In(st.View()) ==> Addr(st.View(), r) == Addr(old(st.View()), r)
  {
    hide ByteAt, Owned, Wrote, KeepsSlots, Addr;
    OwnedAt(st.View(), st.owner, a);
    BlockWrote(st.View(), st.owner, inum, off, a, bytes);
    st.blocks := st.blocks[a := Overlay(st.blocks[a], off % BSIZE, bytes)];
    st.logged := st.logged + {a};
    OwnedAt(st.View(), st.owner, a);
  }

  /** The blocks logged since `before`: data blocks, bitmap blocks and the indirect block. */
  ghost predicate Ledger(before: set<nat>, logged: set<nat>, data: set<nat>, bm: set<nat>, table: set<nat>) {
    logged <= before + data + bm + table
  }

  lemma LedgerStep(before: set<nat>, l: set<nat>, data: set<nat>, bm: set<nat>, t: set<nat>,
                   l': set<nat>, a: nat, bm': set<nat>, t': set<nat>)
    requires Ledger(before, l, data, bm, t) && l' <= l + bm' + {a} + t' && t <= t'
    ensures Ledger(before, l', data + {a}, bm + bm', t')
    ensures |data + {a}| <= |data| + 1 && |bm + bm'| <= |bm| + |bm'|
  {
    assert data + {a} == if a in data then data else data + {a};
  }

  /** The state of writei's loop after tot bytes. */
  ghost predicate Writing(fs0: Fs, fs: Fs, inum: nat, off: nat, src: seq<Byte>, tot: nat) {
    && inum < |fs0.inodes| && tot <= |src|
    && KeepsSlots(fs0, fs)
    && Wrote(fs0, fs, inum, off, src[..tot])
    && (forall bn: nat :: bn < MAXFILE && off / BSIZE <= bn && bn * BSIZE < off + tot ==>
          Addr(fs, FileSlot(inum, bn)) != 0)
  }

  lemma WritingStep(fs0: Fs, fs: Fs, fs': Fs, inum: nat, off: nat, src: seq<Byte>, tot: nat, m: nat)
    requires Writing(fs0, fs, inum, off, src, tot) && inum < |fs'.inodes|
    requires off + tot < MAXBYTES && 0 < m <= BSIZE - (off + tot) % BSIZE && tot + m <= |src|
    requires Wrote(fs, fs', inum, off + tot, src[tot..][..m]) && KeepsSlots(fs, fs')
    requires Addr(fs', FileSlot(inum, (off + tot) / BSIZE)) != 0
    ensures Writing(fs0, fs', inum, off, src, tot + m)
  {
    hide ByteAt, Addr, Wrote;
    assert src[..tot] + src[tot..][..m] == src[..tot + m];
    WroteStep(fs0, fs, fs', inum, off, src[..tot], src[tot..][..m]);
    SlotsStep(fs0, fs, fs');
    forall bn: nat | bn < MAXFILE && off / BSIZE <= bn && bn * BSIZE < off + tot + m
      ensures Addr(fs', FileSlot(inum, bn)) != 0
    {
      if bn * BSIZE < off + tot {
        assert Addr(fs, FileSlot(inum, bn)) != 0;
      } else {
        assert bn == (off + tot) / BSIZE;
      }
    }
  }

  /** Bitmap blocks logged after tot bytes: none for a first block that existed. */
  function BitmapBudget(off: nat, tot: nat): int {
    Span(off, tot) - Count(tot > 0 && off % BSIZE > 0)
  }

  /** writei's loop. */
  method WriteLoop(st: InodeLayer, inum: nat, off: nat, src: seq<Byte>)
    returns (ok: bool, ghost data: set<nat>, ghost bm: set<nat>)
    requires st.Valid() && inum < |st.inodes| && off <= st.inodes[inum].size
    requires SolidTo(st.View(), inum, st.inodes[inum].size) && off + |src| <= MAXBYTES
    modifies st`blocks, st`inodes, st`owner, st`logged
    ensures ok <==> Need(old(st.View()), inum, off, |src|) <= |Free(old(st.View()))|
    ensures ok ==> st.Valid() && Writing(old(st.View()), st.View(), inum, off, src, |src|)
    ensures ok ==> Spent(old(st.View()), st.View(), inum, off, |src|, |src|)
    ensures ok ==> inum < |st.inodes| && Ledger(old(st.logged), st.logged, data, bm, TableOf(st.View(), inum))
                   && |data| <= Span(off, |src|) && |bm| <= BitmapBudget(off, |src|) + 1
    ensures src == [] ==> ok && st.View() == old(st.View()) && st.owner == old(st.owner) && st.logged == old(st.logged)
  {
    hide ByteAt, Owned, Wrote, KeepsSlots, Addr, Midway, SolidTo, TableOf, Span, BitmapBudget, Writing, Ledger,
         Need, Free, Spent, Grew, EndBlock;
    ValidShape(st);
    ghost var v0 := st.View();
    StartMidway(v0, st.logged, inum, off, src);
    ok, data, bm := true, {}, {};
    var tot := 0;
    while tot < |src|
      invariant tot <= |src| && st.Valid() && |st.inodes| == |v0.inodes|
      invariant Midway(v0, st.View(), old(st.logged), st.logged, data, bm, inum, off, src, tot)
      invariant src == [] ==> ok && st.View() == v0 && st.owner == old(st.owner) && st.logged == old(st.logged)
    {
      var m;
      m, ok, data, bm := WriteTurn(st, v0, old(st.logged), data, bm, inum, off, src, tot);
      if !ok { return; }
      tot := tot + m;
    }
    EndMidway(v0, st.View(), old(st.logged), st.logged, data, bm, inum, off, src);
    SpentAll(v0, st.View(), inum, off, |src|);
  }

  lemma SpentAll(fs0: Fs, fs: Fs, inum: nat, off: nat, n: nat)
    requires Spent(fs0, fs, inum, off, n, n)
    ensures Grew(fs0, fs, inum, off / BSIZE, EndBlock(off, n))
    ensures |Free(fs)| + Need(fs0, inum, off, n) == |Free(fs0)|
  {
    hide Grew, Free;
  }

  method WriteTurn(st: InodeLayer, ghost v0: Fs, ghost l0: set<nat>, ghost data: set<nat>, ghost bm: set<nat>,
                   inum: nat, off: nat, src: seq<Byte>, tot: nat)
    returns (m: nat, ok: bool, ghost data': set<nat>, ghost bm': set<nat>)
    requires st.Valid() && inum < |st.inodes| && tot < |src| && off + |src| <= MAXBYTES
    requires Midway(v0, st.View(), l0, st.logged, data, bm, inum, off, src, tot)
    modifies st`blocks, st`inodes, st`owner, st`logged
    ensures ok ==> st.Valid() && 0 < m && tot + m <= |src| && |st.inodes| == |old(st.inodes)|
    ensures !ok ==> Need(v0, inum, off, |src|) > |Free(v0)|
    ensures ok ==> Midway(v0, st.View(), l0, st.logged, data', bm', inum, off, src, tot + m)
  {
    hide ByteAt, Owned, Wrote, KeepsSlots, Addr, Midway, TableOf, Count, Free, Need, OnlySlot, BmapCost;
    MidwayFacts(v0, st.View(), l0, st.logged, data, bm, inum, off, src, tot);
    ghost var a, bm1;
    m, ok, a, bm1 := WriteOne(st, inum, off + tot, src[tot..]);
    data', bm' := data, bm;
    if ok {
      ValidShape(st);
      data', bm' := MidwayStep(v0, old(st.View()), st.View(), l0, old(st.logged), st.logged, data, bm, a, bm1,
                               inum, off, src, tot, m);
    }
  }

  /** The next turn cannot be short of blocks unless the whole write was. */
  lemma MidwayFacts(fs0: Fs, fs: Fs, l0: set<nat>, l: set<nat>, data: set<nat>, bm: set<nat>,
                    inum: nat, off: nat, src: seq<Byte>, tot: nat)
    requires Midway(fs0, fs, l0, l, data, bm, inum, off, src, tot) && tot < |src| && inum < |fs.inodes|
    ensures fs0.Shape() && fs.Shape() && inum < |fs0.inodes|
    ensures (off + tot) / BSIZE < MAXFILE && off + |src| <= MAXBYTES
    ensures BmapCost(fs, inum, (off + tot) / BSIZE) > |Free(fs)| ==> Need(fs0, inum, off, |src|) > |Free(fs0)|
  {
    hide Writing, Accounts, Addr, TableOf;
    EndInFile(off + tot, |src| - tot);
    EndSplit(off + tot, |src| - tot, 0);
    FirstNeed(fs, inum, off + tot, |src| - tot);
  }

  lemma FirstNeed(fs: Fs, inum: nat, off: nat, n: nat)
    requires inum < |fs.inodes| && off + n <= MAXBYTES && n > 0
    ensures off / BSIZE < MAXFILE && BmapCost(fs, inum, off / BSIZE) <= Need(fs, inum, off, n)
  {
    hide Addr, TableOf;
    EndInFile(off, n);
    EndSplit(off, n, 0);
  }

  /** writei's loop after tot bytes. */
  ghost predicate Midway(fs0: Fs, fs: Fs, l0: set<nat>, l: set<nat>, data: set<nat>, bm: set<nat>,
                         inum: nat, off: nat, src: seq<Byte>, tot: nat)
  {
    && tot <= |src| && off + |src| <= MAXBYTES
    && Writing(fs0, fs, inum, off, src, tot)
    && Accounts(fs0, fs, l0, l, data, bm, inum, off, tot)
    && Spent(fs0, fs, inum, off, |src|, tot)
    && (0 < tot < |src| ==> (off + tot) % BSIZE == 0)
    && (tot == 0 && off % BSIZE > 0 ==> Addr(fs, FileSlot(inum, off / BSIZE)) != 0)
  }

  /** The blocks allocated for the first tot of n bytes: those free before and not now are
      those needed before and not now. */
  ghost predicate Spent(fs0: Fs, fs: Fs, inum: nat, off: nat, n: nat, tot: nat) {
    && tot <= n && off + n <= MAXBYTES && fs0.Shape() && fs.Shape()
    && Grew(fs0, fs, inum, off / BSIZE, EndBlock(off, tot))
    && |Free(fs)| + Need(fs0, inum, off, n) == |Free(fs0)| + Need(fs, inum, off + tot, n - tot)
  }

  lemma SpentStart(fs: Fs, inum: nat, off: nat, n: nat)
    requires fs.Shape() && inum < |fs.inodes| && off + n <= MAXBYTES
    ensures Spent(fs, fs, inum, off, n, 0)
  {
    hide Need;
    ZeroEnd(off);
    EndInFile(off, 0);
    GrewSelf(fs, inum, off / BSIZE);
  }

  lemma SpentStep(fs0: Fs, fs: Fs, fs': Fs, inum: nat, off: nat, n: nat, tot: nat, m: nat)
    requires Spent(fs0, fs, inum, off, n, tot) && 0 < m && tot + m <= n && fs'.Shape()
    requires Grew(fs, fs', inum, (off + tot) / BSIZE, EndBlock(off + tot, m))
    requires |Free(fs')| + Need(fs, inum, off + tot, m) == |Free(fs)|
    ensures Spent(fs0, fs', inum, off, n, tot + m)
  {
    hide Free, Need, Grew, EndBlock;
    NeedSplit(fs, fs', inum, off + tot, m, n - tot - m);
    var lo, mid, lo', hi := off / BSIZE, EndBlock(off, tot), (off + tot) / BSIZE, EndBlock(off, tot + m);
    EndChain(off, tot, m);
    GrewTwice(fs0, fs, fs', inum, lo, mid, lo', EndBlock(off + tot, m));
  }

  lemma EndChain(off: nat, tot: nat, m: nat)
    ensures var lo', mid, hi := (off + tot) / BSIZE, EndBlock(off, tot), EndBlock(off + tot, m);
            off / BSIZE <= lo' <= mid && (m > 0 ==> mid <= hi == EndBlock(off, tot + m))
  {
  }

  lemma StartMidway(fs: Fs, l: set<nat>, inum: nat, off: nat, src: seq<Byte>)
    requires fs.Shape() && inum < |fs.inodes| && off <= fs.inodes[inum].size && off + |src| <= MAXBYTES
    requires SolidTo(fs, inum, fs.inodes[inum].size)
    ensures Midway(fs, fs, l, l, {}, {}, inum, off, src, 0)
  {
    SpentStart(fs, inum, off, |src|);
    hide Spent;
    assert off % BSIZE > 0 ==> off / BSIZE < MAXFILE && off / BSIZE * BSIZE < off;
    StartWriting(fs, inum, off, src);
    StartAccounts(fs, l, inum, off);
  }

  lemma MidwayStep(fs0: Fs, fs: Fs, fs': Fs, l0: set<nat>, l: set<nat>, l': set<nat>,
                   data: set<nat>, bm: set<nat>, a: nat, bm': set<nat>,
                   inum: nat, off: nat, src: seq<Byte>, tot: nat, m: nat)
    returns (data': set<nat>, bm'': set<nat>)
    requires Midway(fs0, fs, l0, l, data, bm, inum, off, src, tot) && tot < |src|
    requires inum < |fs.inodes| && inum < |fs'.inodes|
    requires var rest := BSIZE - (off + tot) % BSIZE; m == if |src[tot..]| < rest then |src[tot..]| else rest
    requires Wrote(fs, fs', inum, off + tot, src[tot..][..m]) && KeepsSlots(fs, fs')
    requires Addr(fs', FileSlot(inum, (off + tot) / BSIZE)) != 0
    requires l' <= l + bm' + {a} + TableOf(fs', inum)
    requires |bm'| <= Count(Addr(fs, FileSlot(inum, (off + tot) / BSIZE)) == 0)
                      + Count(TableOf(fs', inum) != TableOf(fs, inum))
    requires TableOf(fs, inum) != {} ==> TableOf(fs', inum) == TableOf(fs, inum)
    requires (off + tot) / BSIZE < MAXFILE && OnlySlot(fs, fs', inum, (off + tot) / BSIZE) && fs'.Shape() && fs.Shape()
    requires |Free(fs')| == |Free(fs)| - BmapCost(fs, inum, (off + tot) / BSIZE)
    ensures 0 < m && tot + m <= |src| && |fs'.inodes| == |fs.inodes|
    ensures Midway(fs0, fs', l0, l', data', bm'', inum, off, src, tot + m)
  {
    hide Wrote, Addr, Writing, Accounts, OnlySlot, Spent, Free, BmapCost, TableOf, Need, Grew, EndBlock, KeepsSlots;
    Advance(off, tot, |src|, m);
    GrewByOne(fs, fs', inum, (off + tot) / BSIZE);
    NeedOne(fs, inum, off + tot, m);
    SpentStep(fs0, fs, fs', inum, off, |src|, tot, m);
    WritingStep(fs0, fs, fs', inum, off, src, tot, m);
    SlotsInode(fs, fs', inum);
    AccountStep(fs0, fs, fs', l0, l, l', data, bm, a, bm', inum, off, tot, |src|, m);
    data', bm'' := data + {a}, bm + bm';
  }

  lemma EndMidway(fs0: Fs, fs: Fs, l0: set<nat>, l: set<nat>, data: set<nat>, bm: set<nat>,
                  inum: nat, off: nat, src: seq<Byte>)
    requires Midway(fs0, fs, l0, l, data, bm, inum, off, src, |src|)
    ensures Writing(fs0, fs, inum, off, src, |src|)
    ensures inum < |fs.inodes| && Ledger(l0, l, data, bm, TableOf(fs, inum))
    ensures |data| <= Span(off, |src|) && |bm| <= BitmapBudget(off, |src|) + 1
    ensures Spent(fs0, fs, inum, off, |src|, |src|)
  {
    hide Wrote, Addr, Spent;
    CloseAccounts(fs0, fs, l0, l, data, bm, inum, off, |src|);
  }

  /** What has been logged after tot bytes, and how much of it. */
  ghost predicate Accounts(fs0: Fs, fs: Fs, l0: set<nat>, l: set<nat>, data: set<nat>, bm: set<nat>,
                           inum: nat, off: nat, tot: nat)
  {
    && inum < |fs0.inodes| && inum < |fs.inodes|
    && (TableOf(fs0, inum) != {} ==> TableOf(fs, inum) == TableOf(fs0, inum))
    && Ledger(l0, l, data, bm, TableOf(fs, inum))
    && |data| <= Span(off, tot)
    && |bm| <= BitmapBudget(off, tot) + Count(TableOf(fs, inum) != TableOf(fs0, inum))
  }

  lemma StartAccounts(fs: Fs, l: set<nat>, inum: nat, off: nat)
    requires inum < |fs.inodes|
    ensures Accounts(fs, fs, l, l, {}, {}, inum, off, 0)
  {
  }

  lemma AccountStep(fs0: Fs, fs: Fs, fs': Fs, l0: set<nat>, l: set<nat>, l': set<nat>,
                    data: set<nat>, bm: set<nat>, a: nat, bm': set<nat>,
                    inum: nat, off: nat, tot: nat, n: nat, m: nat)
    requires Accounts(fs0, fs, l0, l, data, bm, inum, off, tot) && inum < |fs'.inodes|
    requires tot < n && (tot > 0 ==> (off + tot) % BSIZE == 0) && off + tot < MAXBYTES
    requires m == if n - tot < BSIZE - (off + tot) % BSIZE then n - tot else BSIZE - (off + tot) % BSIZE
    requires l' <= l + bm' + {a} + TableOf(fs', inum)
    requires |bm'| <= Count(Addr(fs, FileSlot(inum, (off + tot) / BSIZE)) == 0)
                      + Count(TableOf(fs', inum) != TableOf(fs, inum))
    requires TableOf(fs, inum) != {} ==> TableOf(fs', inum) == TableOf(fs, inum)
    requires tot == 0 && off % BSIZE > 0 ==> Addr(fs, FileSlot(inum, off / BSIZE)) != 0
    ensures Accounts(fs0, fs', l0, l', data + {a}, bm + bm', inum, off, tot + m)
  {
    hide Addr, Span, BitmapBudget;
    Advance(off, tot, n, m);
    LedgerStep(l0, l, data, bm, TableOf(fs, inum), l', a, bm', TableOf(fs', inum));
  }

  lemma CloseAccounts(fs0: Fs, fs: Fs, l0: set<nat>, l: set<nat>, data: set<nat>, bm: set<nat>,
                      inum: nat, off: nat, n: nat)
    requires Accounts(fs0, fs, l0, l, data, bm, inum, off, n)
    ensures Ledger(l0, l, data, bm, TableOf(fs, inum))
    ensures |data| <= Span(off, n) && |bm| <= BitmapBudget(off, n) + 1
  {
  }

  lemma StartWriting(fs: Fs, inum: nat, off: nat, src: seq<Byte>)
    requires inum < |fs.inodes| && off <= MAXBYTES
    requires off % BSIZE > 0 ==> Addr(fs, FileSlot(inum, off / BSIZE)) != 0
    ensures Writing(fs, fs, inum, off, src, 0)
  {
    assert forall bn: nat :: off / BSIZE <= bn && bn * BSIZE < off ==> bn == off / BSIZE;
  }

  /** One turn uses up one block of the span, and budget for one bitmap block unless it
      is a first block that existed. */
  lemma Advance(off: nat, tot: nat, n: nat, m: nat)
    requires tot < n && (tot > 0 ==> (off + tot) % BSIZE == 0)
    requires m == if n - tot < BSIZE - (off + tot) % BSIZE then n - tot else BSIZE - (off + tot) % BSIZE
    ensures 0 < m && tot + m <= n
    ensures tot + m < n ==> (off + tot + m) % BSIZE == 0
    ensures Span(off, tot + m) == Span(off, tot) + 1
    ensures BitmapBudget(off, tot + m) == BitmapBudget(off, tot) + 1 - Count(tot == 0 && off % BSIZE > 0)
  {
    SpanStep(off, tot, m);
  }

  // ----- writei

  /** writei's bounds checks, on 32-bit unsigned numbers. */
  predicate OutOfBounds(size: nat, off: nat, n: nat) {
    off > size || (off + n) % UINT_MOD < off || off + n > MAXBYTES
  }

  function Resized(fs: Fs, inum: nat, n: nat): (r: Fs)
    requires inum < |fs.inodes|
  {
    fs.(inodes := fs.inodes[inum := fs.inodes[inum].(size := n)])
  }

  /** Files other than inum are as they were. */
  ghost predicate OthersKept(fs: Fs, fs': Fs, inum: nat)
    requires Solid(fs) && Solid(fs')
  {
    && |fs'.inodes| == |fs.inodes|
    && forall i: nat :: i < |fs.inodes| && i != inum ==>
         fs'.inodes[i] == fs.inodes[i] && Content(fs', i) == Content(fs, i)
  }

  lemma WriteDone(fs0: Fs, fs: Fs, inum: nat, off: nat, src: seq<Byte>)
    requires Solid(fs0) && Writing(fs0, fs, inum, off, src, |src|) && inum < |fs.inodes|
    requires off <= fs0.inodes[inum].size && off + |src| <= MAXBYTES
    requires Grew(fs0, fs, inum, off / BSIZE, EndBlock(off, |src|))
    ensures fs.inodes[inum] == fs0.inodes[inum].(addrs := fs.inodes[inum].addrs)
    ensures var n := if off + |src| > fs0.inodes[inum].size then off + |src| else fs0.inodes[inum].size;
            var fs' := Resized(fs, inum, n);
            && Solid(fs') && OthersKept(fs0, fs', inum)
            && Content(fs', inum) == Splice(Content(fs0, inum), off, src)
  {
    hide Addr, ByteAt, Wrote, KeepsSlots;
    var n := if off + |src| > fs0.inodes[inum].size then off + |src| else fs0.inodes[inum].size;
    var fs' := Resized(fs, inum, n);
    WriteSolid(fs0, fs, inum, off, src, n);
    SlotsInode(fs0, fs, inum);
    SolidAt(fs0, inum);
    assert src[..|src|] == src;
    forall i: nat | i < |fs0.inodes| && i != inum
      ensures fs'.inodes[i] == fs0.inodes[i] && Content(fs', i) == Content(fs0, i)
    {
      SolidAt(fs0, i);
      WrittenBytes(fs0, fs, inum, off, src, n, i);
    }
    WrittenBytes(fs0, fs, inum, off, src, n, inum);
  }

  lemma SlotsInode(fs: Fs, fs': Fs, inum: nat)
    requires KeepsSlots(fs, fs') && inum < |fs.inodes|
    ensures |fs'.inodes| == |fs.inodes| && fs'.inodes[inum] == fs.inodes[inum].(addrs := fs'.inodes[inum].addrs)
  {
  }

  lemma WrittenBytes(fs0: Fs, fs: Fs, inum: nat, off: nat, src: seq<Byte>, n: nat, i: nat)
    requires Wrote(fs0, fs, inum, off, src) && inum < |fs.inodes| && i < |fs0.inodes|
    ensures i < |fs.inodes|
    ensures forall k: nat :: k < MAXBYTES ==>
              ByteAt(Resized(fs, inum, n), i, k)
              == if i == inum && off <= k < off + |src| then src[k - off] else ByteAt(fs0, i, k)
  {
    ResizedBytes(fs, inum, n, i);
    hide ByteAt;
  }

  lemma ResizedBytes(fs: Fs, inum: nat, n: nat, i: nat)
    requires inum < |fs.inodes| && i < |fs.inodes|
    ensures forall k: nat :: k < MAXBYTES ==> ByteAt(Resized(fs, inum, n), i, k) == ByteAt(fs, i, k)
    ensures forall bn: nat :: bn < MAXFILE ==>
              Addr(Resized(fs, inum, n), FileSlot(i, bn)) == Addr(fs, FileSlot(i, bn))
  {
  }

  lemma WriteSolid(fs0: Fs, fs: Fs, inum: nat, off: nat, src: seq<Byte>, n: nat)
    requires Solid(fs0) && Writing(fs0, fs, inum, off, src, |src|) && inum < |fs.inodes|
    requires off <= fs0.inodes[inum].size && off + |src| <= MAXBYTES
    requires n == if off + |src| > fs0.inodes[inum].size then off + |src| else fs0.inodes[inum].size
    ensures Solid(Resized(fs, inum, n))
  {
    hide Addr, Wrote;
    var fs' := Resized(fs, inum, n);
    forall i: nat | i < |fs'.inodes|
      ensures SolidTo(fs', i, fs'.inodes[i].size)
    {
      ResizedBytes(fs, inum, n, i);
      assert SolidTo(fs0, i, fs0.inodes[i].size);
      forall bn: nat | bn < MAXFILE && bn * BSIZE < fs'.inodes[i].size
        ensures Addr(fs', FileSlot(i, bn)) != 0
      {
        if bn * BSIZE < fs0.inodes[i].size {
          assert FileSlot(i, bn).In(fs0);
        } else {
          assert off / BSIZE <= bn;
        }
      }
    }
  }

  // ----- files without spare blocks

  /** File inum has exactly the blocks its size calls for. */
  ghost predicate TightFile(fs: Fs, inum: nat)
    requires inum < |fs.inodes|
  {
    var size := fs.inodes[inum].size;
    && size <= MAXBYTES
    && (forall bn: nat :: bn < MAXFILE ==> (Addr(fs, FileSlot(inum, bn)) != 0 <==> bn * BSIZE < size))
    && (TableOf(fs, inum) != {} <==> size > NDIRECT * BSIZE)
  }

  ghost predicate Tight(fs: Fs) {
    forall i: nat :: i < |fs.inodes| ==> TightFile(fs, i)
  }

  function Max(a: nat, b: nat): nat { if a > b then a else b }

  /** What writei makes of the state, seen from outside. */
  ghost predicate Extended(fs: Fs, fs': Fs, inum: nat, off: nat, n: nat) {
    && fs.Shape() && fs'.Shape() && off + n <= MAXBYTES
    && Grew(fs, fs', inum, off / BSIZE, EndBlock(off, n))
    && fs'.inodes[inum] == fs.inodes[inum].(size := Max(fs.inodes[inum].size, off + n), addrs := fs'.inodes[inum].addrs)
    && |Free(fs')| + Need(fs, inum, off, n) == |Free(fs)|
  }

  lemma ResizedExtends(fs0: Fs, fs: Fs, inum: nat, off: nat, n: nat, size: nat)
    requires Spent(fs0, fs, inum, off, n, n) && off <= fs0.inodes[inum].size
    requires fs.inodes[inum] == fs0.inodes[inum].(addrs := fs.inodes[inum].addrs)
    requires size == Max(fs0.inodes[inum].size, off + n)
    ensures Extended(fs0, Resized(fs, inum, size), inum, off, n)
  {
    var fs' := Resized(fs, inum, size);
    SpentAll(fs0, fs, inum, off, n);
    forall i: nat, bn: nat | i < |fs.inodes| && bn < MAXFILE
      ensures Addr(fs', FileSlot(i, bn)) == Addr(fs, FileSlot(i, bn))
    {
      ResizedBytes(fs, inum, size, i);
    }
    assert Free(fs') == Free(fs) by {
      assert forall x: nat :: x < fs.sb.size ==> fs'.Bit(x) == fs.Bit(x);
    }
    hide Addr, Free, Need;
  }

  lemma TightAfterWrite(fs: Fs, fs': Fs, inum: nat, off: nat, n: nat)
    requires Tight(fs) && Extended(fs, fs', inum, off, n) && n > 0 && off <= fs.inodes[inum].size
    ensures Tight(fs')
  {
    hide Free, Need, Addr;
    forall i: nat | i < |fs'.inodes|
      ensures TightFile(fs', i)
    {
      assert TightFile(fs, i);
      if i == inum {
        TightGrown(fs, fs', inum, off, n);
      } else {
        assert TableOf(fs', i) == TableOf(fs, i);
        assert forall bn: nat :: bn < MAXFILE ==> Addr(fs', FileSlot(i, bn)) == Addr(fs, FileSlot(i, bn));
      }
    }
  }

  lemma TightGrown(fs: Fs, fs': Fs, inum: nat, off: nat, n: nat)
    requires Extended(fs, fs', inum, off, n) && TightFile(fs, inum) && n > 0 && off <= fs.inodes[inum].size
    ensures TightFile(fs', inum)
  {
    hide Free, Need, Addr, TableOf, EndBlock;
    var lo, hi, size, size' := off / BSIZE, EndBlock(off, n), fs.inodes[inum].size, fs'.inodes[inum].size;
    forall bn: nat | bn < MAXFILE
      ensures Addr(fs', FileSlot(inum, bn)) != 0 <==> bn * BSIZE < size'
    {
      WithinWrite(off, n, bn, size);
    }
    EndSplit(off, n, 0);
    NeedTable(fs, fs', inum, lo, hi);
    WithinWrite(off, n, NDIRECT, size);
  }

  /** Where block bn lies relative to a write of [off, off + n) in a file of the given size. */
  lemma WithinWrite(off: nat, n: nat, bn: nat, size: nat)
    requires n > 0 && off <= size
    ensures bn < off / BSIZE ==> bn * BSIZE < size
    ensures bn < EndBlock(off, n) <==> bn * BSIZE < off + n
  {
  }

  /** Blocks that a file of the given size has, its indirect block included. */
  function BlocksOf(size: nat): (n: nat) {
    (size + BSIZE - 1) / BSIZE + Count(size > NDIRECT * BSIZE)
  }

  lemma {:induction false} MissingTight(fs: Fs, inum: nat, lo: nat, hi: nat)
    requires inum < |fs.inodes| && TightFile(fs, inum) && lo <= hi <= MAXFILE
    ensures var have := (fs.inodes[inum].size + BSIZE - 1) / BSIZE;
            lo <= have ==> Missing(fs, inum, lo, hi) == if hi > have then hi - have else 0
    ensures var have := (fs.inodes[inum].size + BSIZE - 1) / BSIZE;
            lo >= have ==> Missing(fs, inum, lo, hi) == hi - lo
    decreases hi - lo
  {
    hide Addr, TableOf;
    if lo < hi {
      MissingTight(fs, inum, lo + 1, hi);
      Ceiling(fs.inodes[inum].size, lo);
    }
  }

  lemma Ceiling(size: nat, bn: nat)
    ensures bn * BSIZE < size <==> bn < (size + BSIZE - 1) / BSIZE
  {
  }

  /** What a write needs is the blocks its growth calls for. */
  lemma NeedIsGrowth(fs: Fs, inum: nat, off: nat, n: nat)
    requires inum < |fs.inodes| && TightFile(fs, inum) && off <= fs.inodes[inum].size && off + n <= MAXBYTES
    ensures Need(fs, inum, off, n)
            == BlocksOf(Max(fs.inodes[inum].size, off + n)) - BlocksOf(fs.inodes[inum].size)
  {
    hide Addr, TableOf;
    if n > 0 {
      EndInFile(off, n);
      MissingTight(fs, inum, off / BSIZE, EndBlock(off, n));
    }
  }

  lemma TightIsSolid(fs: Fs)
    requires Tight(fs)
    ensures Solid(fs)
  {
    forall i: nat | i < |fs.inodes|
      ensures SolidTo(fs, i, fs.inodes[i].size)
    {
      assert TightFile(fs, i);
    }
  }

  // ----- the call

  /** Everything the inode layer keeps between calls: ownership is exact, files have the
      blocks their sizes call for, free inodes have none, and the inode cache is clean. */
  ghost predicate Sound(st: InodeLayer)
    reads st
  {
    st.Valid() && Tight(st.View()) && st.FreeInodesEmpty() && st.dinodes == st.inodes
  }

  /** What one writei call logged: its distinct blocks are within LogCost. */
  lemma CostBound(before: set<nat>, logged: set<nat>, data: set<nat>, bm: set<nat>, table: set<nat>,
                  ib: nat, off: nat, n: nat)
    requires Ledger(before, logged, data, bm, table) && n > 0
    requires |data| <= Span(off, n) && |bm| <= BitmapBudget(off, n) + 1 && |table| <= 1
    ensures |logged + {ib} - before| <= LogCost(off, n)
  {
    hide Span;
    var extra := data + bm + table + {ib};
    assert |data + bm| <= |data| + |bm|;
    assert |data + bm + table| <= |data + bm| + |table|;
    assert |extra| <= |data + bm + table| + 1;
    Within(logged + {ib} - before, extra);
  }

  lemma Within(a: set<nat>, b: set<nat>)
    requires a <= b
    ensures |a| <= |b|
  {
    assert b == a + (b - a);
  }

  /** writei with a source that can be read.  Out of bounds it changes nothing and
      returns -1.  In bounds it panics exactly when the write needs more blocks than are
      free; otherwise the file becomes the splice, every other file stays as it was, the
      inode cache stays clean, files without spare blocks stay so, and the blocks logged
      are within LogCost. */
  method Writei(st: InodeLayer, inum: nat, off: nat, src: seq<Byte>) returns (r: int, ok: bool)
    requires st.Valid() && Solid(st.View()) && inum < |st.inodes| && off < UINT_MOD && |src| < UINT_MOD
    modifies st`blocks, st`inodes, st`dinodes, st`owner, st`logged
    ensures ok <==> OutOfBounds(old(st.inodes)[inum].size, off, |src|)
                    || Need(old(st.View()), inum, off, |src|) <= |Free(old(st.View()))|
    ensures ok ==> r == if OutOfBounds(old(st.inodes)[inum].size, off, |src|) then -1 else |src|
    ensures ok ==> (r == -1 <==> off > old(st.inodes)[inum].size || off + |src| > 268 * 1024)
    ensures ok ==> st.Valid() && Solid(st.View()) && |st.inodes| == |old(st.inodes)|
    ensures ok && (r == -1 || src == []) ==> st.View() == old(st.View()) && st.owner == old(st.owner)
                                             && st.dinodes == old(st.dinodes) && st.logged == old(st.logged)
    ensures ok && r != -1 ==>
              && off <= old(st.inodes)[inum].size <= MAXBYTES
              && Content(st.View(), inum) == Splice(Content(old(st.View()), inum), off, src)
              && OthersKept(old(st.View()), st.View(), inum)
              && Extended(old(st.View()), st.View(), inum, off, |src|)
    ensures ok && r != -1 && src != [] ==> |st.logged - old(st.logged)| <= LogCost(off, |src|)
    ensures ok && old(Sound(st)) && old(st.inodes)[inum].typ != 0 ==> Sound(st)
  {
    hide Owned, Solid, Content, OthersKept, LogCost, Need, Free, Extended, Tight, EndBlock;
    ValidShape(st);
    SolidAt(st.View(), inum);
    if off > st.inodes[inum].size || (off + |src|) % UINT_MOD < off {
      return -1, true;
    }
    if off + |src| > MAXBYTES {
      return -1, true;
    }
    ok := WriteInBounds(st, inum, off, src);
    r := |src|;
    if ok {
      ExtendedInodes(old(st.View()), st.View(), inum, off, |src|);
      if src != [] && Tight(old(st.View())) {
        TightAfterWrite(old(st.View()), st.View(), inum, off, |src|);
      }
    }
  }

  lemma ExtendedInodes(fs: Fs, fs': Fs, inum: nat, off: nat, n: nat)
    requires Extended(fs, fs', inum, off, n)
    ensures inum < |fs.inodes| == |fs'.inodes| && fs'.inodes[inum].typ == fs.inodes[inum].typ
    ensures forall i :: 0 <= i < |fs.inodes| && i != inum ==> fs'.inodes[i] == fs.inodes[i]
  {
    hide Addr, Free, Need;
  }

  lemma SolidAt(fs: Fs, inum: nat)
    requires Solid(fs) && inum < |fs.inodes|
    ensures SolidTo(fs, inum, fs.inodes[inum].size) && fs.inodes[inum].size <= MAXBYTES
  {
  }

  method WriteInBounds(st: InodeLayer, inum: nat, off: nat, src: seq<Byte>) returns (ok: bool)
    requires st.Valid() && Solid(st.View()) && inum < |st.inodes|
    requires off <= st.inodes[inum].size <= MAXBYTES && off + |src| <= MAXBYTES
    modifies st`blocks, st`inodes, st`dinodes, st`owner, st`logged
    ensures ok <==> Need(old(st.View()), inum, off, |src|) <= |Free(old(st.View()))|
    ensures ok ==> st.Valid() && Solid(st.View()) && |st.inodes| == |old(st.inodes)|
    ensures ok ==> SolidTo(st.View(), inum, st.inodes[inum].size)
                   && Content(st.View(), inum) == Splice(Content(old(st.View()), inum), off, src)
                   && OthersKept(old(st.View()), st.View(), inum)
                   && Extended(old(st.View()), st.View(), inum, off, |src|)
    ensures ok && src != [] ==> st.dinodes == old(st.dinodes)[inum := st.inodes[inum]]
                                && |st.logged - old(st.logged)| <= LogCost(off, |src|)
    ensures ok && src == [] ==> st.View() == old(st.View()) && st.owner == old(st.owner)
                                && st.logged == old(st.logged) && st.dinodes == old(st.dinodes)
  {
    hide Owned, Solid, SolidTo, Writing, Content, OthersKept, Ledger, Span, LogCost, BitmapBudget,
         Need, Free, Spent, Grew, Extended, EndBlock, TableOf;
    ValidShape(st);
    ghost var v0 := st.View();
    SolidAt(v0, inum);
    ghost var data, bm;
    ok, data, bm := WriteLoop(st, inum, off, src);
    if !ok { return; }
    ghost var v, l := st.View(), st.logged;
    SpentAll(v0, v, inum, off, |src|);
    WriteDone(v0, v, inum, off, src);
    KeptLength(v0, v, inum, off, src);
    ResizedExtends(v0, v, inum, off, |src|, Max(v0.inodes[inum].size, off + |src|));
    if |src| > 0 {
      OneTable(v, inum);
      CostBound(old(st.logged), l, data, bm, TableOf(v, inum), st.sb.IBlock(inum), off, |src|);
      FinishWrite(st, inum, off, |src|);
    } else {
      assert Resized(v, inum, v.inodes[inum].size) == v;
    }
    SolidAt(st.View(), inum);
  }

  lemma OneTable(fs: Fs, inum: nat)
    requires inum < |fs.inodes|
    ensures |TableOf(fs, inum)| <= 1
  {
  }

  lemma KeptLength(fs0: Fs, fs: Fs, inum: nat, off: nat, src: seq<Byte>)
    requires Writing(fs0, fs, inum, off, src, |src|)
    ensures |fs.inodes| == |fs0.inodes|
  {
  }

  /** The end of writei: the size and iupdate. */
  method FinishWrite(st: InodeLayer, inum: nat, off: nat, n: nat)
    requires st.Valid() && inum < |st.inodes|
    modifies st`inodes, st`dinodes, st`logged
    ensures st.Valid()
    ensures var size := old(st.inodes)[inum].size;
            st.View() == Resized(old(st.View()), inum, if off + n > size then off + n else size)
    ensures st.dinodes == old(st.dinodes)[inum := st.inodes[inum]]
    ensures st.logged == old(st.logged) + {st.sb.IBlock(inum)}
  {
    if off + n > st.inodes[inum].size {
      st.inodes := st.inodes[inum := st.inodes[inum].(size := off + n)];
    }
    SizeIsFree(old(st.View()), st.View(), st.owner);
    st.Iupdate(inum);
  }

  // ----- readi

  lemma BlockSlice(fs: Fs, owner: Owner, inum: nat, off: nat, m: nat, a: nat)
    requires Owned(fs, owner, Whole) && inum < |fs.inodes| && fs.inodes[inum].size <= MAXBYTES
    requires off + m <= fs.inodes[inum].size && off % BSIZE + m <= BSIZE && 0 < m
    requires a == Addr(fs, FileSlot(inum, off / BSIZE)) && a in owner
    ensures a < |fs.blocks| && fs.blocks[a][off % BSIZE..off % BSIZE + m] == Content(fs, inum)[off..off + m]
  {
    OwnedAt(fs, owner, a);
    hide Addr, Owned;
    var at := off % BSIZE;
    var left, right := fs.blocks[a][at..at + m], Content(fs, inum)[off..off + m];
    forall i | 0 <= i < m
      ensures left[i] == right[i]
    {
      InBlock(off, i);
      assert right[i] == ByteAt(fs, inum, off + i);
    }
  }

  lemma InBlock(off: nat, i: nat)
    requires off % BSIZE + i < BSIZE
    ensures (off + i) / BSIZE == off / BSIZE && (off + i) % BSIZE == off % BSIZE + i
  {
  }

  lemma SolidBlock(fs: Fs, inum: nat, off: nat)
    requires inum < |fs.inodes| && SolidTo(fs, inum, fs.inodes[inum].size) && off < fs.inodes[inum].size
    ensures off < MAXBYTES && Addr(fs, FileSlot(inum, off / BSIZE)) != 0 && fs.inodes[inum].size <= MAXBYTES
  {
  }

  lemma NothingToMap(fs: Fs, inum: nat, bn: nat)
    requires inum < |fs.inodes| && bn < MAXFILE && Addr(fs, FileSlot(inum, bn)) != 0
    ensures BmapCost(fs, inum, bn) == 0
  {
    if bn >= NDIRECT {
      EntryHasTable(fs, inum, bn - NDIRECT);
    }
  }

  /** One turn of readi's loop. */
  method ReadOne(st: InodeLayer, inum: nat, off: nat, n: nat) returns (bytes: seq<Byte>)
    requires st.Valid() && inum < |st.inodes| && SolidTo(st.View(), inum, st.inodes[inum].size)
    requires 0 < n && off + n <= st.inodes[inum].size
    modifies st`blocks, st`inodes, st`owner, st`logged
    ensures st.View() == old(st.View()) && st.owner == old(st.owner) && st.logged == old(st.logged) && st.Valid()
    ensures var m := if n < BSIZE - off % BSIZE then n else BSIZE - off % BSIZE;
            |bytes| == m && bytes == Content(st.View(), inum)[off..off + m]
  {
    hide Owned, Addr, ByteAt, SameBytes, KeepsSlots, Content, SolidTo, Free, OnlySlot;
    ValidShape(st);
    SolidBlock(st.View(), inum, off);
    NothingToMap(st.View(), inum, off / BSIZE);
    var a, ok;
    ghost var bm;
    a, ok, bm := st.Bmap(inum, off / BSIZE);
    var m := if n < BSIZE - off % BSIZE then n else BSIZE - off % BSIZE;
    BlockSlice(st.View(), st.owner, inum, off, m, a);
    bytes := st.blocks[a][off % BSIZE..off % BSIZE + m];
  }

  /** readi with a destination that can be written: exactly the bytes of the file in the
      range, clamped to its size.  It calls bmap, but every block below the size exists,
      so it allocates nothing, logs nothing and cannot panic: it needs no transaction. */
  method Readi(st: InodeLayer, inum: nat, off: nat, n: nat) returns (r: seq<Byte>)
    requires st.Valid() && Solid(st.View()) && inum < |st.inodes| && off < UINT_MOD && n < UINT_MOD
    modifies st`blocks, st`inodes, st`owner, st`logged
    ensures st.View() == old(st.View()) && st.owner == old(st.owner) && st.logged == old(st.logged)
    ensures old(st.inodes)[inum].size <= MAXBYTES
    ensures var c := Content(old(st.View()), inum);
            r == if off > |c| || off + n >= UINT_MOD then []
                 else c[off..if off + n > |c| then |c| else off + n]
  {
    hide Owned, Solid, SolidTo, Content;
    SolidAt(st.View(), inum);
    r := [];
    if off > st.inodes[inum].size || (off + n) % UINT_MOD < off {
      return;
    }
    var n' := if off + n > st.inodes[inum].size then st.inodes[inum].size - off else n;
    var tot := 0;
    while tot < n'
      invariant st.View() == old(st.View()) && st.owner == old(st.owner) && st.logged == old(st.logged)
      invariant st.Valid() && tot <= n'
      invariant r == Content(old(st.View()), inum)[off..off + tot]
    {
      var bytes := ReadOne(st, inum, off + tot, n' - tot);
      ghost var c, m := Content(st.View(), inum), |bytes|;
      assert c[off..off + tot] + c[off + tot..off + tot + m] == c[off..off + tot + m];
      r := r + bytes;
      tot := tot + |bytes|;
    }
  }

  /** A read after a write sees the write: writei then readi of the same range. */
  lemma ReadBack(was: seq<Byte>, off: nat, src: seq<Byte>)
    requires off <= |was|
    ensures var c := Splice(was, off, src);
            off + |src| <= |c| && c[off..off + |src|] == src
            && c[..off] == was[..off]
            && c[off + |src|..] == if off + |src| <= |was| then was[off + |src|..] else []
  {
  }

  // ----- filewrite

  const CHUNK: nat := (MAXOPBLOCKS - 1 - 1 - 2) / 2 * BSIZE

  /** struct file, for an inode. */
  class OpenFile {
    const inum: nat
    const writable: bool
    var off: nat

    constructor (i: nat, w: bool, at: nat)
      ensures inum == i && writable == w && off == at
    {
      inum, writable, off := i, w, at;
    }
  }

  lemma SpliceTwice(c: seq<Byte>, off: nat, a: seq<Byte>, b: seq<Byte>)
    requires off <= |c|
    ensures off + |a| <= |Splice(c, off, a)|
    ensures Splice(Splice(c, off, a), off + |a|, b) == Splice(c, off, a + b)
  {
  }

  lemma KeptTwice(fs0: Fs, fs: Fs, fs': Fs, inum: nat)
    requires Solid(fs0) && Solid(fs) && Solid(fs')
    requires OthersKept(fs0, fs, inum) && OthersKept(fs, fs', inum)
    ensures OthersKept(fs0, fs', inum)
  {
    hide Content;
  }

  /** i bytes of src have reached file inum at off. */
  ghost predicate Reached(fs0: Fs, fs: Fs, inum: nat, off: nat, src: seq<Byte>, i: nat)
    requires Solid(fs0) && Solid(fs)
  {
    && inum < |fs0.inodes| && |fs.inodes| == |fs0.inodes| && i <= |src|
    && fs0.inodes[inum].size <= MAXBYTES && fs.inodes[inum].size <= MAXBYTES
    && fs.inodes[inum].typ == fs0.inodes[inum].typ && fs.inodes[inum].nlink == fs0.inodes[inum].nlink
    && OthersKept(fs0, fs, inum)
    && (if off <= fs0.inodes[inum].size then Content(fs, inum) == Splice(Content(fs0, inum), off, src[..i])
        else i == 0 && Content(fs, inum) == Content(fs0, inum))
  }

  lemma ReachedNext(fs0: Fs, fs: Fs, fs': Fs, inum: nat, off: nat, src: seq<Byte>, i: nat, m: nat)
    requires Solid(fs0) && Solid(fs) && Solid(fs') && Reached(fs0, fs, inum, off, src, i) && i + m <= |src|
    requires inum < |fs'.inodes| && fs'.inodes[inum].size <= MAXBYTES && off + i <= fs.inodes[inum].size
    requires off <= fs0.inodes[inum].size && OthersKept(fs, fs', inum)
    requires fs'.inodes[inum].typ == fs.inodes[inum].typ && fs'.inodes[inum].nlink == fs.inodes[inum].nlink
    requires Content(fs', inum) == Splice(Content(fs, inum), off + i, src[i..][..m])
    ensures Reached(fs0, fs', inum, off, src, i + m)
  {
    hide Solid, Content;
    assert src[..i] + src[i..][..m] == src[..i + m];
    SpliceTwice(Content(fs0, inum), off, src[..i], src[i..][..m]);
    KeptTwice(fs0, fs, fs', inum);
  }

  /** One transaction of filewrite: begin_op, writei of a chunk, end_op. */
  method WriteChunk(st: InodeLayer, f: OpenFile, chunk: seq<Byte>) returns (r: int, ok: bool)
    requires st.Valid() && Solid(st.View()) && f.inum < |st.inodes| && f.off < UINT_MOD && 0 < |chunk| <= CHUNK
    modifies st`blocks, st`inodes, st`dinodes, st`owner, st`logged, f`off
    ensures ok <==> OutOfBounds(old(st.inodes)[f.inum].size, old(f.off), |chunk|)
                    || Need(old(st.View()), f.inum, old(f.off), |chunk|) <= |Free(old(st.View()))|
    ensures ok ==> st.Valid() && Solid(st.View()) && |st.inodes| == |old(st.inodes)|
    ensures ok ==> |st.logged| <= MAXOPBLOCKS
    ensures ok ==> (r == -1 || r == |chunk|)
    ensures ok ==> (r == -1 <==> OutOfBounds(old(st.inodes)[f.inum].size, old(f.off), |chunk|))
    ensures ok && r == -1 ==> st.View() == old(st.View()) && f.off == old(f.off)
    ensures ok && r != -1 ==>
              && f.off == old(f.off) + |chunk| <= MAXBYTES
              && old(f.off) <= old(st.inodes)[f.inum].size <= MAXBYTES
              && Content(st.View(), f.inum) == Splice(Content(old(st.View()), f.inum), old(f.off), chunk)
              && OthersKept(old(st.View()), st.View(), f.inum)
              && Extended(old(st.View()), st.View(), f.inum, old(f.off), |chunk|)
    ensures ok && old(Sound(st)) && old(st.inodes)[f.inum].typ != 0 ==> Sound(st) && st.inodes[f.inum].typ != 0
  {
    hide Owned, Solid, Content, OthersKept, LogCost, Need, Free, Extended, Tight, EndBlock;
    st.logged := {};
    r, ok := Writei(st, f.inum, f.off, chunk);
    if ok && r > 0 {
      ExtendedInodes(old(st.View()), st.View(), f.inum, f.off, |chunk|);
      ChunkFits(f.off, |chunk|);
      assert st.logged - {} == st.logged;
      f.off := f.off + r;
    }
  }

  /** The bytes of n that filewrite gets into a file of the given size from offset off, on
      a disk with room for them: whole chunks, up to the largest file. */
  function Sendable(size: nat, off: nat, n: nat): (sent: nat)
    requires size <= MAXBYTES
    ensures sent <= n && (off <= size ==> off + sent <= MAXBYTES)
    ensures sent == n <==> n == 0 || (off <= size && off + n <= MAXBYTES)
  {
    if off > size then 0
    else if off + n <= MAXBYTES then n
    else (MAXBYTES - off) / CHUNK * CHUNK
  }

  /** Where the loop stands when i bytes are sent and the next chunk has n1. */
  lemma NextChunk(size: nat, off: nat, n: nat, i: nat, n1: nat)
    requires size <= MAXBYTES && off <= size && i < n && i % CHUNK == 0 && off + i <= MAXBYTES
    requires n1 == if n - i > CHUNK then CHUNK else n - i
    ensures off + i + n1 <= MAXBYTES ==> i + n1 <= Sendable(size, off, n)
    ensures off + i + n1 > MAXBYTES ==> i == Sendable(size, off, n)
    ensures i + n1 < n ==> (i + n1) % CHUNK == 0
    ensures (i + n1 + CHUNK - 1) / CHUNK == i / CHUNK + 1 && (i + CHUNK - 1) / CHUNK == i / CHUNK
  {
    Chunks(i, n1);
    if off + n > MAXBYTES {
      if off + i + n1 <= MAXBYTES {
        WholeChunks(MAXBYTES - off, i + n1);
      } else {
        WholeChunks(MAXBYTES - off, i);
      }
    }
  }

  /** The largest multiple of CHUNK up to x. */
  lemma WholeChunks(x: nat, i: nat)
    requires i % CHUNK == 0 && i <= x
    ensures i <= x / CHUNK * CHUNK
    ensures x < i + CHUNK ==> x / CHUNK * CHUNK == i
  {
    assert CHUNK == 3072;
  }

  lemma Chunks(i: nat, n1: nat)
    requires i % CHUNK == 0 && 0 < n1 <= CHUNK
    ensures (i + CHUNK) % CHUNK == 0
    ensures (i + n1 + CHUNK - 1) / CHUNK == i / CHUNK + 1 && (i + CHUNK - 1) / CHUNK == i / CHUNK
  {
    assert CHUNK == 3072;
  }

  lemma NeedGrows(fs: Fs, inum: nat, off: nat, a: nat, b: nat)
    requires inum < |fs.inodes| && off + a + b <= MAXBYTES
    ensures Need(fs, inum, off, a) <= Need(fs, inum, off, a + b)
  {
    hide Addr, TableOf, EndBlock;
    if a > 0 {
      EndInFile(off, a + b);
      EndSplit(off, a, b);
      MissingSplit(fs, inum, off / BSIZE, EndBlock(off, a), EndBlock(off, a + b));
    }
  }

  /** filewrite's loop after i bytes, in c transactions. */
  ghost predicate Sending(fs0: Fs, fs: Fs, inum: nat, off: nat, src: seq<Byte>, i: nat, c: nat)
    requires Solid(fs0) && Solid(fs)
  {
    && Reached(fs0, fs, inum, off, src, i)
    && (i % CHUNK == 0 || i == |src|) && c == (i + CHUNK - 1) / CHUNK
    && i <= Sendable(fs0.inodes[inum].size, off, |src|)
    && (off <= fs0.inodes[inum].size ==>
          Spent(fs0, fs, inum, off, Sendable(fs0.inodes[inum].size, off, |src|), i))
  }

  lemma SendingStart(fs: Fs, inum: nat, off: nat, src: seq<Byte>)
    requires Solid(fs) && fs.Shape() && inum < |fs.inodes|
    ensures Sending(fs, fs, inum, off, src, 0, 0)
  {
    hide Spent;
    ReachedStart(fs, inum, off, src);
    if off <= fs.inodes[inum].size {
      SpentStart(fs, inum, off, Sendable(fs.inodes[inum].size, off, |src|));
    }
  }

  /** What a chunk at this point of the loop meets. */
  lemma SendingFacts(fs0: Fs, fs: Fs, inum: nat, off: nat, src: seq<Byte>, i: nat, c: nat, n1: nat)
    requires Solid(fs0) && Solid(fs) && Sending(fs0, fs, inum, off, src, i, c) && i < |src| && off < UINT_MOD
    requires n1 == if |src| - i > CHUNK then CHUNK else |src| - i
    ensures inum < |fs0.inodes| && inum < |fs.inodes| && fs0.inodes[inum].size <= MAXBYTES
    ensures off + i < UINT_MOD && (i > 0 ==> off <= fs0.inodes[inum].size)
    ensures var size := fs0.inodes[inum].size; var s := Sendable(size, off, |src|);
            if OutOfBounds(fs.inodes[inum].size, off + i, n1) then i == s
            else && off <= size && off + i <= fs.inodes[inum].size && i + n1 <= s
                 && fs0.Shape() && fs.Shape()
                 && (Need(fs, inum, off + i, n1) > |Free(fs)| ==> Need(fs0, inum, off, s) > |Free(fs0)|)
  {
    hide Solid, Need, Free, Grew, EndBlock, Reached, Sendable;
    ReachedFacts(fs0, fs, inum, off, src, i);
    var size := fs0.inodes[inum].size;
    var s := Sendable(size, off, |src|);
    if off <= size {
      NextChunk(size, off, |src|, i, n1);
      if i + n1 <= s {
        NeedGrows(fs, inum, off + i, n1, s - i - n1);
      }
    }
    SendableNone(size, off, |src|);
    ChunkBounds(size, fs.inodes[inum].size, off, i, n1);
  }

  lemma SendableNone(size: nat, off: nat, n: nat)
    requires size <= MAXBYTES
    ensures off > size ==> Sendable(size, off, n) == 0
  {
  }

  /** When a chunk is refused: the offset is past the end of the file, or the file would
      become too large. */
  lemma ChunkBounds(size0: nat, size: nat, off: nat, i: nat, n1: nat)
    requires size <= MAXBYTES && off < UINT_MOD && 0 < n1 <= CHUNK
    requires if off <= size0 then off + i <= size else i == 0 && size == size0
    ensures off + i < UINT_MOD
    ensures OutOfBounds(size, off + i, n1) <==> off > size0 || off + i + n1 > MAXBYTES
  {
    assert CHUNK == 3072;
  }

  lemma SendingStep(fs0: Fs, fs: Fs, fs': Fs, inum: nat, off: nat, src: seq<Byte>, i: nat, c: nat, n1: nat)
    requires Solid(fs0) && Solid(fs) && Solid(fs') && Sending(fs0, fs, inum, off, src, i, c) && i < |src|
    requires n1 == if |src| - i > CHUNK then CHUNK else |src| - i
    requires inum < |fs0.inodes| && inum < |fs.inodes| && fs0.inodes[inum].size <= MAXBYTES
    requires off <= fs0.inodes[inum].size && off + i <= fs.inodes[inum].size && off + i + n1 <= MAXBYTES
    requires i + n1 <= Sendable(fs0.inodes[inum].size, off, |src|)
    requires inum < |fs'.inodes| && fs'.inodes[inum].size <= MAXBYTES && OthersKept(fs, fs', inum)
    requires fs.inodes[inum].size <= MAXBYTES
    requires Content(fs', inum) == Splice(Content(fs, inum), off + i, src[i..][..n1])
    requires Extended(fs, fs', inum, off + i, n1)
    ensures Sending(fs0, fs', inum, off, src, i + n1, c + 1)
  {
    hide Solid, Content, OthersKept, Need, Free, Grew, EndBlock, Reached;
    var s := Sendable(fs0.inodes[inum].size, off, |src|);
    ReachedNext(fs0, fs, fs', inum, off, src, i, n1);
    NextChunk(fs0.inodes[inum].size, off, |src|, i, n1);
    SpentStep(fs0, fs, fs', inum, off, s, i, n1);
  }

  /** The loop is over: every chunk is in, or the next one does not fit the file. */
  lemma SendingDone(fs0: Fs, fs: Fs, inum: nat, off: nat, src: seq<Byte>, i: nat, c: nat)
    requires Solid(fs0) && Solid(fs) && Sending(fs0, fs, inum, off, src, i, c) && fs0.Shape()
    requires inum < |fs0.inodes| && fs0.inodes[inum].size <= MAXBYTES
    requires i == |src| || i == Sendable(fs0.inodes[inum].size, off, |src|)
    ensures i == Sendable(fs0.inodes[inum].size, off, |src|) && Reached(fs0, fs, inum, off, src, i)
    ensures off <= fs0.inodes[inum].size ==> Need(fs0, inum, off, i) <= |Free(fs0)|
    ensures c == (i + CHUNK - 1) / CHUNK
  {
    hide Solid, Reached, Free, Grew, EndBlock;
    if off <= fs0.inodes[inum].size {
      SpentAll(fs0, fs, inum, off, i);
    }
  }

  /** filewrite on an inode.  It panics exactly when the bytes that fit the file need more
      blocks than are free.  Otherwise those bytes arrive, spliced in at the file offset,
      and n is returned exactly when they are all.  `logs` holds the blocks logged by each
      chunk's transaction, the one that was refused included: never more than
      MAXOPBLOCKS. */
  method FileWrite(st: InodeLayer, f: OpenFile, src: seq<Byte>)
    returns (ret: int, ok: bool, ghost sent: nat, ghost logs: seq<set<nat>>)
    requires st.Valid() && Solid(st.View()) && f.inum < |st.inodes| && f.off < UINT_MOD && |src| < UINT_MOD
    modifies st`blocks, st`inodes, st`dinodes, st`owner, st`logged, f`off
    ensures old(st.inodes)[f.inum].size <= MAXBYTES
    ensures !f.writable ==> ok && ret == -1 && st.View() == old(st.View()) && f.off == old(f.off) && logs == []
    ensures ok ==> st.Valid() && Solid(st.View()) && |st.inodes| == |old(st.inodes)|
    ensures f.writable ==>
              var size, off := old(st.inodes)[f.inum].size, old(f.off);
              && sent == Sendable(size, off, |src|)
              && (ok <==> off > size || Need(old(st.View()), f.inum, off, sent) <= |Free(old(st.View()))|)
              && (ok ==> && Reached(old(st.View()), st.View(), f.inum, off, src, sent)
                         && f.off == off + sent && ret == (if sent == |src| then |src| else -1))
    ensures ok && f.writable ==> |logs| == (sent + CHUNK - 1) / CHUNK + Count(sent < |src|)
    ensures forall k :: 0 <= k < |logs| ==> |logs[k]| <= MAXOPBLOCKS
    ensures ok && old(Sound(st)) && old(st.inodes)[f.inum].typ != 0 ==> Sound(st)
  {
    hide Owned, Solid, Content, Reached, OthersKept, Sending, Need, Free, Extended, Tight, EndBlock, Sendable;
    ValidShape(st);
    SolidAt(st.View(), f.inum);
    ok, logs := true, [];
    if !f.writable {
      return -1, true, 0, [];
    }
    ghost var v0, off0 := st.View(), f.off;
    sent := Sendable(v0.inodes[f.inum].size, off0, |src|);
    SendingStart(v0, f.inum, off0, src);
    var i := 0;
    while i < |src|
      invariant i <= |src| && st.Valid() && Solid(st.View()) && |st.inodes| == |v0.inodes|
      invariant Sending(v0, st.View(), f.inum, off0, src, i, |logs|) && f.off == off0 + i
      invariant forall k :: 0 <= k < |logs| ==> |logs[k]| <= MAXOPBLOCKS
      invariant old(Sound(st)) && v0.inodes[f.inum].typ != 0 ==> Sound(st) && st.inodes[f.inum].typ != 0
    {
      var n1 := if |src| - i > CHUNK then CHUNK else |src| - i;
      ghost var v := st.View();
      SendingFacts(v0, v, f.inum, off0, src, i, |logs|, n1);
      var r;
      r, ok := WriteChunk(st, f, src[i..][..n1]);
      if !ok { return 0, false, sent, logs; }
      logs := logs + [st.logged];
      if r < 0 {
        SendingDone(v0, v, f.inum, off0, src, i, |logs| - 1);
        SendableAll(v0.inodes[f.inum].size, off0, |src|);
        return -1, true, sent, logs;
      }
      SolidAt(st.View(), f.inum);
      SendingStep(v0, v, st.View(), f.inum, off0, src, i, |logs| - 1, n1);
      i := i + r;
    }
    SendingDone(v0, st.View(), f.inum, off0, src, i, |logs|);
    ret := |src|;
  }

  lemma SendableAll(size: nat, off: nat, n: nat)
    requires size <= MAXBYTES
    ensures Sendable(size, off, n) <= n
  {
  }

  lemma ReachedStart(fs: Fs, inum: nat, off: nat, src: seq<Byte>)
    requires Solid(fs) && inum < |fs.inodes|
    ensures Reached(fs, fs, inum, off, src, 0)
  {
    SolidAt(fs, inum);
  }

  /** The file has grown as far as the bytes that reached it. */
  lemma ReachedFacts(fs0: Fs, fs: Fs, inum: nat, off: nat, src: seq<Byte>, i: nat)
    requires Solid(fs0) && Solid(fs) && Reached(fs0, fs, inum, off, src, i)
    ensures inum < |fs0.inodes| && inum < |fs.inodes| && fs0.inodes[inum].size <= MAXBYTES
    ensures if off <= fs0.inodes[inum].size then off + i <= fs.inodes[inum].size <= MAXBYTES
            else fs.inodes[inum].size == fs0.inodes[inum].size
  {
    hide Solid;
  }

  /** Truncating one file leaves every other file its contents, and no holes. */
  lemma TruncKeepsFiles(fs: Fs, owner: Owner, fs': Fs, inum: nat)
    requires Owned(fs, owner, Whole) && Solid(fs) && OnlyMeta(fs, fs', inum) && inum < |fs.inodes|
    requires fs'.inodes[inum].size == 0
    ensures Solid(fs') && OthersKept(fs, fs', inum)
  {
    forall i: nat | i < |fs.inodes| && i != inum
      ensures forall bn: nat :: bn < MAXFILE ==> Addr(fs', FileSlot(i, bn)) == Addr(fs, FileSlot(i, bn))
      ensures forall k: nat :: k < MAXBYTES ==> ByteAt(fs', i, k) == ByteAt(fs, i, k)
      ensures SolidTo(fs', i, fs'.inodes[i].size)
    {
      UntouchedFile(fs, owner, fs', inum, i);
      SolidAt(fs, i);
    }
    hide Owned, Addr, ByteAt;
    forall i: nat | i < |fs.inodes| && i != inum
      ensures SolidTo(fs', i, fs'.inodes[i].size) && Content(fs', i) == Content(fs, i)
    {
      SolidAt(fs, i);
    }
  }

  lemma UntouchedFile(fs: Fs, owner: Owner, fs': Fs, inum: nat, i: nat)
    requires Owned(fs, owner, Whole) && OnlyMeta(fs, fs', inum) && i < |fs.inodes| && i != inum
    ensures forall bn: nat :: bn < MAXFILE ==> Addr(fs', FileSlot(i, bn)) == Addr(fs, FileSlot(i, bn))
    ensures forall k: nat :: k < MAXBYTES ==> ByteAt(fs', i, k) == ByteAt(fs, i, k)
  {
    assert Table(i).In(fs) && Live(fs, Whole, Table(i)) == fs.inodes[i].addrs[NDIRECT];
    forall bn: nat | bn < MAXFILE
      ensures Addr(fs', FileSlot(i, bn)) == Addr(fs, FileSlot(i, bn))
      ensures Addr(fs, FileSlot(i, bn)) != 0 ==> fs.sb.datastart <= Addr(fs, FileSlot(i, bn)) < |fs.blocks|
    {
      assert FileSlot(i, bn).In(fs) && Live(fs, Whole, FileSlot(i, bn)) == Addr(fs, FileSlot(i, bn));
    }
    hide Owned, Addr;
  }
}
