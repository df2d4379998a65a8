/** Who owns which disk block.  `owner` maps every allocated data block to the one slot
    that holds its number; the bitmap marks exactly those blocks and the metadata. */
module FsOwnership {
  import opened Common
  import opened FsImage

  type Owner = map<nat, Slot>

  /** itrunc frees the blocks listed in an indirect block without erasing the list:
      entries of inode inum below k no longer count. */
  datatype Cut = Whole | Freed(inum: nat, k: nat) {
    predicate Drops(s: Slot) {
      Freed? && s.Entry? && s.inum == inum && s.j < k
    }
  }

  /** The block number in a slot that counts. */
  function Live(fs: Fs, cut: Cut, s: Slot): (a: nat)
    requires s.In(fs)
  {
    if cut.Drops(s) then 0 else Addr(fs, s)
  }

  ghost predicate Owned(fs: Fs, owner: Owner, cut: Cut) {
    && fs.Shape()
    && (forall s: Slot :: s.In(fs) && Live(fs, cut, s) != 0 ==>
          Live(fs, cut, s) in owner && owner[Live(fs, cut, s)] == s)
    && (forall a: nat :: a in owner ==>
          && fs.sb.datastart <= a < fs.sb.size
          && owner[a].In(fs) && Live(fs, cut, owner[a]) == a)
    && (forall a: nat :: a < fs.sb.size ==> (fs.Bit(a) <==> a < fs.sb.datastart || a in owner))
  }

  /** The blocks whose bit is clear. */
  ghost function Free(fs: Fs): (r: set<nat>)
    requires fs.Shape()
  {
    set x: nat | x < fs.sb.size && !fs.Bit(x)
  }

  /** Exactly the data blocks that nobody owns are free. */
  lemma FreeIsUnowned(fs: Fs, owner: Owner, a: nat)
    requires Owned(fs, owner, Whole)
    ensures a in Free(fs) <==> fs.sb.datastart <= a < fs.sb.size && a !in owner
  {
  }

  /** When block a has gained an owner, it is the one free block that is gone. */
  lemma FreeAfterGrow(fs: Fs, owner: Owner, s: Slot, a: nat, fs': Fs)
    requires Owned(fs, owner, Whole) && Owned(fs', owner[a := s], Whole) && fs'.sb == fs.sb
    requires a < fs.sb.size && !fs.Bit(a)
    ensures a in Free(fs) && Free(fs') == Free(fs) - {a} && |Free(fs')| == |Free(fs)| - 1
  {
    forall x: nat
      ensures x in Free(fs') <==> x in Free(fs) - {a}
    {
      FreeIsUnowned(fs, owner, x);
      FreeIsUnowned(fs', owner[a := s], x);
    }
  }

  /** The blocks of file inum, indirect block included. */
  ghost function OwnedBy(owner: Owner, inum: nat): (r: set<nat>) {
    set a | a in owner && owner[a].inum == inum
  }

  /** The bitmap blocks with the bits of the blocks ds. */
  ghost function Maps(sb: Super, ds: set<nat>): (r: set<nat>) {
    set a | a in ds :: sb.BBlock(a)
  }

  /** Some blocks of file inum are nobody's any more, and their bitmap blocks are logged. */
  ghost predicate GaveBack(sb: Super, inum: nat, o: Owner, l: set<nat>, o': Owner, l': set<nat>) {
    && o'.Keys <= o.Keys && (forall a :: a in o' ==> o'[a] == o[a])
    && (forall a :: a in o && a !in o' ==> o[a].inum == inum)
    && l' == l + Maps(sb, o.Keys - o'.Keys)
  }

  lemma GaveNone(sb: Super, inum: nat, o: Owner, l: set<nat>)
    ensures GaveBack(sb, inum, o, l, o, l)
  {
    assert o.Keys - o.Keys == {};
  }

  lemma GaveMore(sb: Super, inum: nat, o: Owner, l: set<nat>, m: Owner, k: set<nat>, o': Owner, l': set<nat>)
    requires GaveBack(sb, inum, o, l, m, k) && GaveBack(sb, inum, m, k, o', l')
    ensures GaveBack(sb, inum, o, l, o', l')
  {
    assert o.Keys - o'.Keys == (o.Keys - m.Keys) + (m.Keys - o'.Keys);
    assert Maps(sb, o.Keys - o'.Keys) == Maps(sb, o.Keys - m.Keys) + Maps(sb, m.Keys - o'.Keys);
  }

  lemma GaveOne(sb: Super, inum: nat, o: Owner, l: set<nat>, a: nat)
    requires a in o && o[a].inum == inum
    ensures GaveBack(sb, inum, o, l, o - {a}, l + {sb.BBlock(a)})
  {
    assert o.Keys - (o - {a}).Keys == {a};
    assert Maps(sb, {a}) == {sb.BBlock(a)};
  }

  /** Once the inode lists no block, all its blocks have been given back. */
  lemma GaveAll(fs: Fs, inum: nat, o: Owner, l: set<nat>, o': Owner, l': set<nat>)
    requires Owned(fs, o', Whole) && inum < |fs.inodes| && fs.inodes[inum].addrs == seq(NDIRECT + 1, _ => 0)
    requires GaveBack(fs.sb, inum, o, l, o', l')
    ensures o' == o - OwnedBy(o, inum) && l' == l + Maps(fs.sb, OwnedBy(o, inum))
  {
    forall a | a in o'
      ensures o'[a].inum != inum
    {
      assert o'[a].In(fs) && Live(fs, Whole, o'[a]) == a;
    }
    assert o.Keys - o'.Keys == OwnedBy(o, inum);
  }

  // ----- the effects of balloc and bfree on the image

  /** Block a marked in use and zeroed. */
  function Taken(fs: Fs, a: nat): (r: Fs)
    requires fs.Shape() && a < fs.sb.size
  {
    var bb := fs.sb.BBlock(a);
    fs.(blocks := fs.blocks[bb := SetBit(fs.blocks[bb], a % BPB)][a := ZeroBlock()])
  }

  /** Block a marked free. */
  function Released(fs: Fs, a: nat): (r: Fs)
    requires fs.Shape() && a < fs.sb.size
  {
    var bb := fs.sb.BBlock(a);
    fs.(blocks := fs.blocks[bb := ClearBit(fs.blocks[bb], a % BPB)])
  }

  lemma BBlockIsMeta(sb: Super, a: nat)
    requires sb.Valid() && a < sb.size
    ensures sb.BBlock(a) < sb.datastart
  {
    assert a / BPB <= (sb.size - 1) / BPB;
  }

  lemma TakenBits(fs: Fs, a: nat, x: nat)
    requires fs.Shape() && fs.sb.datastart <= a < fs.sb.size && x < fs.sb.size
    ensures Taken(fs, a).Shape() && (Taken(fs, a).Bit(x) <==> x == a || fs.Bit(x))
  {
    BBlockIsMeta(fs.sb, a);
    BBlockIsMeta(fs.sb, x);
    BitLaws(fs.blocks[fs.sb.BBlock(a)], a % BPB, x % BPB);
    assert a / BPB == x / BPB && a % BPB == x % BPB ==> a == x;
  }

  lemma ReleasedBits(fs: Fs, a: nat, x: nat)
    requires fs.Shape() && a < fs.sb.size && x < fs.sb.size
    ensures Released(fs, a).Shape() && (Released(fs, a).Bit(x) <==> x != a && fs.Bit(x))
  {
    BitLaws(fs.blocks[fs.sb.BBlock(a)], a % BPB, x % BPB);
    assert a / BPB == x / BPB && a % BPB == x % BPB ==> a == x;
  }

  /** Tables are data blocks, so changing a free block or a bitmap block moves no slot. */
  lemma TableStays(fs: Fs, fs': Fs, owner: Owner, cut: Cut, s: Slot, a: nat)
    requires Owned(fs, owner, cut) && s.In(fs)
    requires |fs'.blocks| == |fs.blocks| && fs'.inodes == fs.inodes && fs'.sb == fs.sb
    requires a !in owner
    requires forall b :: fs.sb.datastart <= b < |fs.blocks| && b != a ==> fs'.blocks[b] == fs.blocks[b]
    ensures Addr(fs', s) == Addr(fs, s)
  {
    assert Table(s.inum).In(fs);
    var t := Live(fs, cut, Table(s.inum));
    assert t != 0 ==> t in owner && owner[t] == Table(s.inum);
  }

  lemma TakenStays(fs: Fs, owner: Owner, cut: Cut, a: nat, s: Slot)
    requires Owned(fs, owner, cut) && a < fs.sb.size && !fs.Bit(a) && s.In(fs)
    ensures Addr(Taken(fs, a), s) == Addr(fs, s)
  {
    BBlockIsMeta(fs.sb, a);
    TableStays(fs, Taken(fs, a), owner, cut, s, a);
  }

  lemma ReleasedStays(fs: Fs, owner: Owner, cut: Cut, a: nat, s: Slot)
    requires Owned(fs, owner, cut) && a < fs.sb.size && s.In(fs)
    ensures Addr(Released(fs, a), s) == Addr(fs, s)
  {
    BBlockIsMeta(fs.sb, a);
    TableStays(fs, Released(fs, a), owner, cut, s, 0);
  }

  // ----- the bytes of a file

  /** Byte k of file inum; bytes of a block the file does not have read as 0. */
  function ByteAt(fs: Fs, inum: nat, k: nat): (b: Byte)
    requires inum < |fs.inodes| && k < MAXFILE * BSIZE
  {
    var a := Addr(fs, FileSlot(inum, k / BSIZE));
    if 0 < a < |fs.blocks| then fs.blocks[a][k % BSIZE] else 0
  }

  ghost predicate SameBytes(fs: Fs, fs': Fs) {
    && |fs'.inodes| == |fs.inodes|
    && forall i: nat, k: nat :: i < |fs.inodes| && k < MAXFILE * BSIZE ==> ByteAt(fs', i, k) == ByteAt(fs, i, k)
  }

  /** A state in which slot s has gained the zeroed block a, and nothing else that
      belongs to a file has moved. */
  lemma GrowKeepsBytes(fs: Fs, owner: Owner, s: Slot, a: nat, fs': Fs)
    requires Owned(fs, owner, Whole) && s.In(fs) && 0 < a < fs.sb.size && !fs.Bit(a) && Addr(fs, s) == 0
    requires fs'.Shape() && fs'.sb == fs.sb
    requires forall r: Slot :: r.In(fs) ==> Addr(fs', r) == if r == s then a else Addr(fs, r)
    requires fs'.blocks[a] == ZeroBlock()
    requires forall b :: b in owner && !owner[b].Table? ==> fs'.blocks[b] == fs.blocks[b]
    ensures SameBytes(fs, fs')
  {
    forall i: nat, k: nat | i < |fs.inodes| && k < MAXFILE * BSIZE
      ensures ByteAt(fs', i, k) == ByteAt(fs, i, k)
    {
      hide Addr;
      var r := FileSlot(i, k / BSIZE);
      assert r.In(fs) && Live(fs, Whole, r) == Addr(fs, r);
    }
  }

  // ----- a block gains or loses its slot

  lemma SlotFilled(fs: Fs, owner: Owner, s: Slot, a: nat, fs': Fs)
    requires Owned(fs, owner, Whole) && s.In(fs) && a < fs.sb.size && !fs.Bit(a) && Addr(fs, s) == 0
    requires fs'.Shape() && fs'.sb == fs.sb
    requires forall x: nat :: x < fs.sb.size ==> (fs'.Bit(x) <==> x == a || fs.Bit(x))
    requires forall r: Slot :: r.In(fs) ==> Addr(fs', r) == if r == s then a else Addr(fs, r)
    ensures Owned(fs', owner[a := s], Whole)
  {
    hide Addr, BitOf;
    forall r: Slot | r.In(fs') && Live(fs', Whole, r) != 0
      ensures Live(fs', Whole, r) in owner[a := s] && owner[a := s][Live(fs', Whole, r)] == r
    {
      assert r.In(fs) && Live(fs, Whole, r) == Addr(fs, r);
    }
  }

  lemma SlotEmptied(fs: Fs, owner: Owner, cut: Cut, a: nat, fs': Fs, cut': Cut)
    requires Owned(fs, owner, cut) && a in owner
    requires fs'.Shape() && fs'.sb == fs.sb
    requires forall x: nat :: x < fs.sb.size ==> (fs'.Bit(x) <==> x != a && fs.Bit(x))
    requires forall r: Slot :: r.In(fs) ==>
               Live(fs', cut', r) == if r == owner[a] then 0 else Live(fs, cut, r)
    ensures Owned(fs', owner - {a}, cut')
  {
    hide Addr, BitOf;
    forall r: Slot | r.In(fs') && Live(fs', cut', r) != 0
      ensures Live(fs', cut', r) in owner - {a} && (owner - {a})[Live(fs', cut', r)] == r
    {
      assert r.In(fs);
    }
  }

  function WithAddr(fs: Fs, inum: nat, i: nat, a: nat): (r: Fs)
    requires inum < |fs.inodes| && i <= NDIRECT
  {
    var ip := fs.inodes[inum];
    fs.(inodes := fs.inodes[inum := ip.(addrs := ip.addrs[i := a])])
  }

  function WithEntry(fs: Fs, t: nat, j: nat, a: nat): (r: Fs)
    requires t < |fs.blocks| && j < NINDIRECT && a < UINT_MOD
  {
    fs.(blocks := fs.blocks[t := PutWord(fs.blocks[t], j, a)])
  }

  /** bmap gives a file a new direct block. */
  lemma GrowDirect(fs: Fs, owner: Owner, inum: nat, i: nat, a: nat)
    requires Owned(fs, owner, Whole) && inum < |fs.inodes| && i < NDIRECT
    requires fs.inodes[inum].addrs[i] == 0 && a < fs.sb.size && !fs.Bit(a)
    ensures Owned(WithAddr(Taken(fs, a), inum, i, a), owner[a := Direct(inum, i)], Whole)
    ensures SameBytes(fs, WithAddr(Taken(fs, a), inum, i, a))
  {
    hide BitOf, Word;
    var fs' := WithAddr(Taken(fs, a), inum, i, a);
    forall x: nat | x < fs.sb.size
      ensures fs'.Shape() && (fs'.Bit(x) <==> x == a || fs.Bit(x))
    {
      TakenBits(fs, a, x);
    }
    forall r: Slot | r.In(fs)
      ensures Addr(fs', r) == if r == Direct(inum, i) then a else Addr(fs, r)
    {
      TakenStays(fs, owner, Whole, a, r);
    }
    BBlockIsMeta(fs.sb, a);
    GrowKeepsBytes(fs, owner, Direct(inum, i), a, fs');
    SlotFilled(fs, owner, Direct(inum, i), a, fs');
  }

  /** bmap gives a file its indirect block: every entry of it is 0. */
  lemma GrowTable(fs: Fs, owner: Owner, inum: nat, a: nat)
    requires Owned(fs, owner, Whole) && inum < |fs.inodes|
    requires fs.inodes[inum].addrs[NDIRECT] == 0 && a < fs.sb.size && !fs.Bit(a)
    ensures Owned(WithAddr(Taken(fs, a), inum, NDIRECT, a), owner[a := Table(inum)], Whole)
    ensures SameBytes(fs, WithAddr(Taken(fs, a), inum, NDIRECT, a))
  {
    hide BitOf, Word;
    var fs' := WithAddr(Taken(fs, a), inum, NDIRECT, a);
    forall x: nat | x < fs.sb.size
      ensures fs'.Shape() && (fs'.Bit(x) <==> x == a || fs.Bit(x))
    {
      TakenBits(fs, a, x);
    }
    forall r: Slot | r.In(fs)
      ensures Addr(fs', r) == if r == Table(inum) then a else Addr(fs, r)
    {
      TableWrite(fs, owner, inum, a, r);
    }
    BBlockIsMeta(fs.sb, a);
    GrowKeepsBytes(fs, owner, Table(inum), a, fs');
    SlotFilled(fs, owner, Table(inum), a, fs');
  }

  lemma TableWrite(fs: Fs, owner: Owner, inum: nat, a: nat, r: Slot)
    requires Owned(fs, owner, Whole) && inum < |fs.inodes| && r.In(fs)
    requires fs.inodes[inum].addrs[NDIRECT] == 0 && a < fs.sb.size && !fs.Bit(a)
    ensures Addr(WithAddr(Taken(fs, a), inum, NDIRECT, a), r) == if r == Table(inum) then a else Addr(fs, r)
  {
    hide Word, BitOf;
    TakenStays(fs, owner, Whole, a, r);
    if r.Entry? { ZeroWord(r.j); }
  }

  /** bmap gives a file a new block listed in its indirect block. */
  lemma GrowEntry(fs: Fs, owner: Owner, inum: nat, j: nat, a: nat)
    requires Owned(fs, owner, Whole) && inum < |fs.inodes| && j < NINDIRECT
    requires var t := fs.inodes[inum].addrs[NDIRECT]; t != 0 && t < fs.sb.size && Word(fs.blocks[t], j) == 0
    requires a < fs.sb.size && !fs.Bit(a)
    ensures Owned(WithEntry(Taken(fs, a), fs.inodes[inum].addrs[NDIRECT], j, a), owner[a := Entry(inum, j)], Whole)
    ensures SameBytes(fs, WithEntry(Taken(fs, a), fs.inodes[inum].addrs[NDIRECT], j, a))
  {
    hide Word, PutWord, BitOf, Addr, Owned, SameBytes;
    NewEntry(fs, owner, inum, j, a);
    var t := fs.inodes[inum].addrs[NDIRECT];
    var fs' := WithEntry(Taken(fs, a), t, j, a);
    forall x: nat | x < fs.sb.size
      ensures fs'.Shape() && (fs'.Bit(x) <==> x == a || fs.Bit(x))
    {
      EntryBits(fs, inum, j, a, x);
    }
    forall r: Slot | r.In(fs)
      ensures Addr(fs', r) == if r == Entry(inum, j) then a else Addr(fs, r)
    {
      EntryWrite(fs, owner, inum, j, a, r);
    }
    GrowKeepsBytes(fs, owner, Entry(inum, j), a, fs');
    SlotFilled(fs, owner, Entry(inum, j), a, fs');
  }

  /** What is written for a new entry: bitmap, new block and table. */
  lemma NewEntry(fs: Fs, owner: Owner, inum: nat, j: nat, a: nat)
    requires Owned(fs, owner, Whole) && inum < |fs.inodes| && j < NINDIRECT && a < fs.sb.size && !fs.Bit(a)
    requires var t := fs.inodes[inum].addrs[NDIRECT]; t != 0 && t < fs.sb.size && Word(fs.blocks[t], j) == 0
    ensures var t := fs.inodes[inum].addrs[NDIRECT];
            var fs' := WithEntry(Taken(fs, a), t, j, a);
            && fs.Shape() && Addr(fs, Entry(inum, j)) == 0 && fs.sb.datastart <= t && fs.sb.datastart <= a && a !in owner
            && fs'.blocks[a] == ZeroBlock() && forall b :: b in owner && !owner[b].Table? ==> fs'.blocks[b] == fs.blocks[b]
  {
    hide PutWord, BitOf;
    var t := fs.inodes[inum].addrs[NDIRECT];
    assert Table(inum).In(fs) && Live(fs, Whole, Table(inum)) == t;
    BBlockIsMeta(fs.sb, a);
  }

  lemma EntryBits(fs: Fs, inum: nat, j: nat, a: nat, x: nat)
    requires fs.Shape() && inum < |fs.inodes| && j < NINDIRECT && x < fs.sb.size && fs.sb.datastart <= a < fs.sb.size
    requires var t := fs.inodes[inum].addrs[NDIRECT]; fs.sb.datastart <= t < fs.sb.size
    ensures var fs' := WithEntry(Taken(fs, a), fs.inodes[inum].addrs[NDIRECT], j, a);
            fs'.Shape() && (fs'.Bit(x) <==> x == a || fs.Bit(x))
  {
    TakenBits(fs, a, x);
    BBlockIsMeta(fs.sb, x);
    hide PutWord, Word, BitOf, Taken;
  }

  lemma EntryWrite(fs: Fs, owner: Owner, inum: nat, j: nat, a: nat, r: Slot)
    requires Owned(fs, owner, Whole) && inum < |fs.inodes| && j < NINDIRECT && r.In(fs)
    requires var t := fs.inodes[inum].addrs[NDIRECT]; t != 0 && t < fs.sb.size
    requires a < fs.sb.size && !fs.Bit(a)
    ensures Addr(WithEntry(Taken(fs, a), fs.inodes[inum].addrs[NDIRECT], j, a), r)
            == if r == Entry(inum, j) then a else Addr(fs, r)
  {
    var t := fs.inodes[inum].addrs[NDIRECT];
    TakenStays(fs, owner, Whole, a, r);
    assert Live(fs, Whole, Table(inum)) == t && Table(inum).In(fs);
    if r.Entry? {
      var u := fs.inodes[r.inum].addrs[NDIRECT];
      assert Live(fs, Whole, Table(r.inum)) == u && Table(r.inum).In(fs);
      if u == t {
        assert r.inum == inum;
        WordLaws(Taken(fs, a).blocks[t], j, a, r.j);
      }
    }
  }

  // ----- itrunc

  lemma StartCut(fs: Fs, owner: Owner, inum: nat)
    requires Owned(fs, owner, Whole)
    ensures Owned(fs, owner, Freed(inum, 0))
  {
    hide Addr, BitOf;
    assert forall s: Slot :: s.In(fs) ==> Live(fs, Freed(inum, 0), s) == Live(fs, Whole, s);
  }

  lemma ShrinkDirect(fs: Fs, owner: Owner, inum: nat, i: nat)
    requires Owned(fs, owner, Whole) && inum < |fs.inodes| && i < NDIRECT
    requires fs.inodes[inum].addrs[i] != 0
    ensures var a := fs.inodes[inum].addrs[i];
            && a in owner && owner[a].inum == inum && fs.sb.datastart <= a < fs.sb.size && fs.Bit(a)
            && Owned(WithAddr(Released(fs, a), inum, i, 0), owner - {a}, Whole)
  {
    var a := fs.inodes[inum].addrs[i];
    assert Direct(inum, i).In(fs) && Live(fs, Whole, Direct(inum, i)) == a;
    var fs' := WithAddr(Released(fs, a), inum, i, 0);
    forall x: nat | x < fs.sb.size
      ensures fs'.Shape() && (fs'.Bit(x) <==> x != a && fs.Bit(x))
    {
      ReleasedBits(fs, a, x);
    }
    forall r: Slot | r.In(fs)
      ensures Live(fs', Whole, r) == if r == owner[a] then 0 else Live(fs, Whole, r)
    {
      ReleasedStays(fs, owner, Whole, a, r);
    }
    SlotEmptied(fs, owner, Whole, a, fs', Whole);
  }

  lemma ShrinkEntry(fs: Fs, owner: Owner, inum: nat, j: nat)
    requires Owned(fs, owner, Freed(inum, j)) && inum < |fs.inodes| && j < NINDIRECT
    requires var a := Addr(fs, Entry(inum, j)); a != 0
    ensures var a := Addr(fs, Entry(inum, j));
            && a in owner && owner[a].inum == inum && fs.sb.datastart <= a < fs.sb.size && fs.Bit(a)
            && Owned(Released(fs, a), owner - {a}, Freed(inum, j + 1))
  {
    var a := Addr(fs, Entry(inum, j));
    var cut, cut' := Freed(inum, j), Freed(inum, j + 1);
    assert Entry(inum, j).In(fs) && Live(fs, cut, Entry(inum, j)) == a;
    var fs' := Released(fs, a);
    forall x: nat | x < fs.sb.size
      ensures fs'.Shape() && (fs'.Bit(x) <==> x != a && fs.Bit(x))
    {
      ReleasedBits(fs, a, x);
    }
    forall r: Slot | r.In(fs)
      ensures Live(fs', cut', r) == if r == owner[a] then 0 else Live(fs, cut, r)
    {
      ReleasedStays(fs, owner, cut, a, r);
    }
    SlotEmptied(fs, owner, cut, a, fs', cut');
  }

  lemma SkipEntry(fs: Fs, owner: Owner, inum: nat, j: nat)
    requires Owned(fs, owner, Freed(inum, j)) && inum < |fs.inodes| && j < NINDIRECT
    requires Addr(fs, Entry(inum, j)) == 0
    ensures Owned(fs, owner, Freed(inum, j + 1))
  {
    assert forall s: Slot :: s.In(fs) ==> Live(fs, Freed(inum, j + 1), s) == Live(fs, Freed(inum, j), s);
  }

  lemma ShrinkTable(fs: Fs, owner: Owner, inum: nat)
    requires Owned(fs, owner, Freed(inum, NINDIRECT)) && inum < |fs.inodes|
    requires fs.inodes[inum].addrs[NDIRECT] != 0
    ensures var t := fs.inodes[inum].addrs[NDIRECT];
            && t in owner && owner[t].inum == inum && fs.sb.datastart <= t < fs.sb.size && fs.Bit(t)
            && Owned(WithAddr(Released(fs, t), inum, NDIRECT, 0), owner - {t}, Whole)
  {
    var t := fs.inodes[inum].addrs[NDIRECT];
    var cut := Freed(inum, NINDIRECT);
    assert Table(inum).In(fs) && Live(fs, cut, Table(inum)) == t;
    var fs' := WithAddr(Released(fs, t), inum, NDIRECT, 0);
    forall x: nat | x < fs.sb.size
      ensures fs'.Shape() && (fs'.Bit(x) <==> x != t && fs.Bit(x))
    {
      ReleasedBits(fs, t, x);
    }
    forall r: Slot | r.In(fs)
      ensures Live(fs', Whole, r) == if r == owner[t] then 0 else Live(fs, cut, r)
    {
      ReleasedStays(fs, owner, cut, t, r);
    }
    SlotEmptied(fs, owner, cut, t, fs', Whole);
  }

  /** Data in a file's block moves no slot. */
  lemma WriteSlot(fs: Fs, owner: Owner, a: nat, data: Block, s: Slot)
    requires Owned(fs, owner, Whole) && a in owner && !owner[a].Table? && s.In(fs)
    ensures Addr(fs.(blocks := fs.blocks[a := data]), s) == Addr(fs, s)
  {
    assert Table(s.inum).In(fs) && Live(fs, Whole, Table(s.inum)) == Addr(fs, Table(s.inum));
  }

  lemma WriteOwned(fs: Fs, owner: Owner, a: nat, data: Block)
    requires Owned(fs, owner, Whole) && a in owner && !owner[a].Table?
    ensures Owned(fs.(blocks := fs.blocks[a := data]), owner, Whole)
  {
    var fs' := fs.(blocks := fs.blocks[a := data]);
    forall x: nat | x < fs.sb.size
      ensures fs'.Shape() && (fs'.Bit(x) <==> fs.Bit(x))
    {
      BBlockIsMeta(fs.sb, x);
    }
    hide Addr, BitOf;
    forall s: Slot | s.In(fs)
      ensures Live(fs', Whole, s) == Live(fs, Whole, s)
    {
      WriteSlot(fs, owner, a, data, s);
    }
  }

  lemma WriteByte(fs: Fs, owner: Owner, a: nat, data: Block, i: nat, k: nat)
    requires Owned(fs, owner, Whole) && a in owner && !owner[a].Table? && i < |fs.inodes| && k < MAXFILE * BSIZE
    ensures ByteAt(fs.(blocks := fs.blocks[a := data]), i, k) ==
            if FileSlot(i, k / BSIZE) == owner[a] then data[k % BSIZE] else ByteAt(fs, i, k)
  {
    var r := FileSlot(i, k / BSIZE);
    WriteSlot(fs, owner, a, data, r);
    hide Addr, BitOf;
    assert r.In(fs) && Live(fs, Whole, r) == Addr(fs, r);
  }

  /** writei puts new contents in a block of a file. */
  lemma WriteBlock(fs: Fs, owner: Owner, a: nat, data: Block)
    requires Owned(fs, owner, Whole) && a in owner && !owner[a].Table?
    ensures var fs' := fs.(blocks := fs.blocks[a := data]);
            && Owned(fs', owner, Whole)
            && (forall s: Slot :: s.In(fs) ==> Addr(fs', s) == Addr(fs, s))
            && forall i: nat, k: nat :: i < |fs.inodes| && k < MAXFILE * BSIZE ==>
                 ByteAt(fs', i, k) ==
                 if FileSlot(i, k / BSIZE) == owner[a] then data[k % BSIZE] else ByteAt(fs, i, k)
  {
    assert a < |fs.blocks|;
    hide Owned, Addr, ByteAt;
    WriteOwned(fs, owner, a, data);
    forall s: Slot | s.In(fs)
      ensures Addr(fs.(blocks := fs.blocks[a := data]), s) == Addr(fs, s)
    {
      WriteSlot(fs, owner, a, data, s);
    }
    forall i: nat, k: nat | i < |fs.inodes| && k < MAXFILE * BSIZE
      ensures ByteAt(fs.(blocks := fs.blocks[a := data]), i, k) ==
              if FileSlot(i, k / BSIZE) == owner[a] then data[k % BSIZE] else ByteAt(fs, i, k)
    {
      WriteByte(fs, owner, a, data, i, k);
    }
  }
}
