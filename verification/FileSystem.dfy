/** fs.c over the block contents that the log layer presents, with the set of blocks
    passed to log_write since the operation began. */
module FileSystem {
  import opened FsImage
  import opened FsOwnership

  /** The indirect block of a file, if it has one. */
  function TableOf(fs: Fs, inum: nat): (s: set<nat>)
    requires inum < |fs.inodes|
  {
    var t := fs.inodes[inum].addrs[NDIRECT];
    if t == 0 then {} else {t}
  }

  function Count(b: bool): nat { if b then 1 else 0 }

  /** The blocks bmap has to allocate for block bn of a file. */
  function BmapCost(fs: Fs, inum: nat, bn: nat): (n: nat)
    requires inum < |fs.inodes| && bn < MAXFILE
  {
    Count(Addr(fs, FileSlot(inum, bn)) == 0) + Count(bn >= NDIRECT && TableOf(fs, inum) == {})
  }

  /** Only slots of file inum for block bn have changed. */
  ghost predicate OnlySlot(fs: Fs, fs': Fs, inum: nat, bn: nat)
    requires bn < MAXFILE && inum < |fs.inodes|
  {
    && |fs'.inodes| == |fs.inodes| && fs'.sb == fs.sb
    && (forall i :: 0 <= i < |fs.inodes| && i != inum ==> fs'.inodes[i] == fs.inodes[i])
    && (forall r: Slot :: r.In(fs) && r != FileSlot(inum, bn) && r != Table(inum) ==> Addr(fs', r) == Addr(fs, r))
    && (bn < NDIRECT ==> TableOf(fs', inum) == TableOf(fs, inum))
  }

  /** What a bmap call that reached the end of its path promises: the state goes from fs
      to fs' and the logged blocks from l to l'. */
  ghost predicate BlockMapped(fs: Fs, fs': Fs, l: set<nat>, l': set<nat>, inum: nat, bn: nat, addr: nat, bm: set<nat>)
    requires inum < |fs.inodes| && bn < MAXFILE
  {
    && inum < |fs'.inodes| && fs.Shape() && fs'.Shape()
    && addr == Addr(fs', FileSlot(inum, bn))
    && SameBytes(fs, fs')
    && (Addr(fs, FileSlot(inum, bn)) != 0 ==> fs' == fs && l' == l && bm == {})
    && l' <= l + bm + {addr} + TableOf(fs', inum)
    && |bm| <= Count(Addr(fs, FileSlot(inum, bn)) == 0) + Count(TableOf(fs', inum) != TableOf(fs, inum))
    && (TableOf(fs, inum) != {} ==> TableOf(fs', inum) == TableOf(fs, inum))
    && KeepsSlots(fs, fs') && OnlySlot(fs, fs', inum, bn)
    && |Free(fs')| == |Free(fs)| - BmapCost(fs, inum, bn)
  }

  /** The file has gained an indirect block t, unless it had one. */
  ghost predicate TableMade(fs: Fs, fs': Fs, l: set<nat>, l': set<nat>, inum: nat, t: nat, bm: set<nat>)
    requires inum < |fs.inodes|
  {
    && |fs'.inodes| == |fs.inodes| && fs.Shape() && fs'.Shape() && fs'.sb == fs.sb && TableOf(fs', inum) == {t}
    && SameBytes(fs, fs') && KeepsSlots(fs, fs')
    && l' <= l + bm + {t}
    && |bm| <= Count(TableOf(fs', inum) != TableOf(fs, inum))
    && (forall r: Slot :: r.In(fs) && r != Table(inum) ==> Addr(fs', r) == Addr(fs, r))
    && (forall i :: 0 <= i < |fs.inodes| && i != inum ==> fs'.inodes[i] == fs.inodes[i])
    && |Free(fs')| == |Free(fs)| - Count(TableOf(fs, inum) == {})
    && (TableOf(fs, inum) != {} ==> fs' == fs && l' == l && bm == {})
  }

  /** An entry in use is in a table. */
  lemma EntryNeedsTable(fs: Fs, inum: nat, j: nat)
    requires inum < |fs.inodes| && j < NINDIRECT && TableOf(fs, inum) == {}
    ensures Addr(fs, Entry(inum, j)) == 0
  {
  }

  lemma EntryHasTable(fs: Fs, inum: nat, j: nat)
    requires inum < |fs.inodes| && j < NINDIRECT && Addr(fs, Entry(inum, j)) != 0
    ensures TableOf(fs, inum) != {}
  {
  }

  /** What is left to allocate once there is an indirect block. */
  lemma IndirectCost(fs0: Fs, fs: Fs, inum: nat, j: nat)
    requires inum < |fs0.inodes| && j < NINDIRECT && |fs.inodes| == |fs0.inodes| && TableOf(fs, inum) != {}
    requires Addr(fs, Entry(inum, j)) == Addr(fs0, Entry(inum, j))
    ensures BmapCost(fs0, inum, NDIRECT + j) == BmapCost(fs, inum, NDIRECT + j) + Count(TableOf(fs0, inum) == {})
    ensures TableOf(fs0, inum) == {} ==> BmapCost(fs0, inum, NDIRECT + j) == 2
    ensures Addr(fs0, Entry(inum, j)) != 0 ==> TableOf(fs0, inum) != {}
  {
    if TableOf(fs0, inum) == {} {
      EntryNeedsTable(fs0, inum, j);
    }
  }

  lemma MappedIndirect(fs0: Fs, fs: Fs, fs': Fs, l0: set<nat>, l: set<nat>, l': set<nat>,
                       inum: nat, j: nat, t: nat, addr: nat, bm: set<nat>, bm': set<nat>)
    requires inum < |fs0.inodes| && j < NINDIRECT && TableMade(fs0, fs, l0, l, inum, t, bm)
    requires BlockMapped(fs, fs', l, l', inum, NDIRECT + j, addr, bm')
    ensures BlockMapped(fs0, fs', l0, l', inum, NDIRECT + j, addr, bm + bm')
  {
    hide SameBytes, KeepsSlots, Addr, Free, TableOf;
    assert FileSlot(inum, NDIRECT + j) == Entry(inum, j) && Entry(inum, j).In(fs0);
    if TableOf(fs0, inum) == {} {
      EntryNeedsTable(fs0, inum, j);
    }
    SameTwice(fs0, fs, fs');
    SlotsStep(fs0, fs, fs');
    assert |bm + bm'| <= |bm| + |bm'|;
  }

  /** bmap's last step for a new entry. */
  lemma EntryMapped(fs: Fs, owner: Owner, fs': Fs, l: set<nat>, l': set<nat>, inum: nat, j: nat, t: nat, a: nat)
    requires Owned(fs, owner, Whole) && Owned(fs', owner[a := Entry(inum, j)], Whole) && SameBytes(fs, fs')
    requires fs'.inodes == fs.inodes && fs'.sb == fs.sb && a < fs.sb.size && !fs.Bit(a)
    requires inum < |fs.inodes| && j < NINDIRECT && Addr(fs, Entry(inum, j)) == 0
    requires t == fs.inodes[inum].addrs[NDIRECT] != 0
    requires l' == l + {fs.sb.BBlock(a), a} + {t}
    ensures BlockMapped(fs, fs', l, l', inum, NDIRECT + j, a, {fs.sb.BBlock(a)})
  {
    hide BitOf, Word, SameBytes, KeepsSlots, Owned, Addr, Free;
    TableFacts(fs, owner, inum);
    ClearIsUnowned(fs, owner, a);
    assert FileSlot(inum, NDIRECT + j) == Entry(inum, j) && Entry(inum, j).In(fs);
    GrownSlots(fs, owner, Entry(inum, j), a, fs');
    FreeAfterGrow(fs, owner, Entry(inum, j), a, fs');
    OwnedAt(fs', owner[a := Entry(inum, j)], a);
  }

  lemma NoBit(k: nat)
    requires k < BPB
    ensures !BitOf(ZeroBlock(), k)
  {
    NoBitInZero(k % 8);
  }

  lemma {:induction false} NoBitInZero(k: nat)
    ensures !Has(0, k)
  {
    if k > 0 { NoBitInZero(k - 1); }
  }

  lemma MarkedBit(fs: Fs, b: nat, y: nat)
    requires fs.Shape() && b < fs.sb.size && y < fs.sb.size
    ensures var bb := fs.sb.BBlock(b);
            var fs' := fs.(blocks := fs.blocks[bb := SetBit(fs.blocks[bb], b % BPB)]);
            fs'.Shape() && (fs'.Bit(y) <==> y == b || fs.Bit(y))
  {
    BBlockIsMeta(fs.sb, b);
    BBlockIsMeta(fs.sb, y);
    BitLaws(fs.blocks[fs.sb.BBlock(b)], b % BPB, y % BPB);
    assert b / BPB == y / BPB && b % BPB == y % BPB ==> b == y;
  }

  lemma NothingOwned(fs: Fs)
    requires fs.Shape() && forall y: nat :: y < fs.sb.size ==> (fs.Bit(y) <==> y < fs.sb.datastart)
    requires forall i :: 0 <= i < |fs.inodes| ==> fs.inodes[i].addrs == seq(NDIRECT + 1, _ => 0)
    ensures Owned(fs, map[], Whole)
  {
    hide BitOf;
    assert forall s: Slot :: s.In(fs) ==> Live(fs, Whole, s) == 0;
  }

  class InodeLayer {
    const sb: Super
    var blocks: seq<Block>
    var inodes: seq<Inode>      // in-memory copies, by inode number
    var dinodes: seq<Inode>     // the same on disk, written by iupdate
    ghost var owner: Owner
    ghost var logged: set<nat>

    ghost function View(): Fs
      reads this`blocks, this`inodes
    {
      Fs(sb, blocks, inodes)
    }

    ghost predicate Valid()
      reads this
    {
      Owned(View(), owner, Whole) && |dinodes| == |inodes|
    }

    /** An empty file system: no file has a block, and the bitmap marks the metadata, bit by
        bit as the image builder does. */
    constructor Format(super: Super)
      requires super.Valid()
      ensures sb == super && Valid() && dinodes == inodes && owner == map[]
      ensures forall i :: 0 <= i < |inodes| ==> inodes[i] == Inode(0, 0, 0, seq(NDIRECT + 1, _ => 0))
    {
      sb := super;
      blocks := seq(super.size, _ => ZeroBlock());
      inodes := seq(super.ninodes, _ => Inode(0, 0, 0, seq(NDIRECT + 1, _ => 0)));
      dinodes := seq(super.ninodes, _ => Inode(0, 0, 0, seq(NDIRECT + 1, _ => 0)));
      owner, logged := map[], {};
      new;
      ghost var none := inodes;
      forall y: nat | y < sb.size
        ensures !View().Bit(y)
      {
        NoBit(y % BPB);
      }
      var b := 0;
      while b < sb.datastart
        invariant b <= sb.datastart && View().Shape() && inodes == none && dinodes == none && owner == map[]
        invariant forall y: nat :: y < sb.size ==> (View().Bit(y) <==> y < b)
        modifies this`blocks
      {
        ghost var v := View();
        BBlockIsMeta(sb, b);
        var bb := sb.BBlock(b);
        blocks := blocks[bb := SetBit(blocks[bb], b % BPB)];
        forall y: nat | y < sb.size
          ensures View().Shape() && (View().Bit(y) <==> y < b + 1)
        {
          MarkedBit(v, b, y);
        }
        b := b + 1;
      }
      NothingOwned(View());
    }

    /** balloc: takes the lowest free block, marks it and zeroes it; panics exactly when
        there is none. */
    method Balloc() returns (a: nat, ok: bool)
      requires View().Shape()
      modifies this`blocks, this`logged
      ensures ok <==> Free(old(View())) != {}
      ensures !ok ==> View() == old(View()) && logged == old(logged)
      ensures ok ==> a < sb.size && !old(View()).Bit(a) && View() == Taken(old(View()), a)
                     && logged == old(logged) + {sb.BBlock(a), a}
                     && forall x: nat :: x < a ==> old(View()).Bit(x)
    {
      a := 0;
      var b := 0;
      while b < sb.size
        invariant b % BPB == 0 && View() == old(View()) && logged == old(logged)
        invariant forall x: nat :: x < b && x < sb.size ==> View().Bit(x)
        decreases sb.size - b
      {
        a, ok := Scan(b);
        if ok {
          var bb := sb.BBlock(a);
          blocks := blocks[bb := SetBit(blocks[bb], a % BPB)];
          logged := logged + {bb};
          blocks := blocks[a := ZeroBlock()];
          logged := logged + {a};
          assert a in Free(old(View()));
          return;
        }
        b := b + BPB;
      }
      ok := false;
    }

    /** balloc's inner loop over one bitmap block. */
    method Scan(b: nat) returns (a: nat, ok: bool)
      requires View().Shape() && b < sb.size && b % BPB == 0
      ensures ok ==> b <= a < sb.size && a < b + BPB && !View().Bit(a)
                     && forall x: nat :: b <= x < a ==> View().Bit(x)
      ensures !ok ==> forall x: nat :: b <= x < b + BPB && x < sb.size ==> View().Bit(x)
    {
      hide BitOf;
      var bp := blocks[sb.BBlock(b)];
      var bi := 0;
      while bi < BPB && b + bi < sb.size
        invariant bi <= BPB && b + bi <= sb.size
        invariant forall x: nat :: b <= x < b + bi ==> View().Bit(x)
      {
        assert (b + bi) / BPB == b / BPB && (b + bi) % BPB == bi;
        if !BitOf(bp, bi) {
          return b + bi, true;
        }
        bi := bi + 1;
      }
      a, ok := 0, false;
    }

    /** bfree: panics exactly when the block is already free. */
    method Bfree(a: nat) returns (ok: bool)
      requires View().Shape() && a < sb.size
      modifies this`blocks, this`logged
      ensures ok <==> old(View()).Bit(a)
      ensures !ok ==> View() == old(View()) && logged == old(logged)
      ensures ok ==> View() == Released(old(View()), a) && logged == old(logged) + {sb.BBlock(a)}
    {
      var bb := sb.BBlock(a);
      ok := BitOf(blocks[bb], a % BPB);
      if ok {
        blocks := blocks[bb := ClearBit(blocks[bb], a % BPB)];
        logged := logged + {bb};
      }
    }

    twostate predicate Mapped(inum: nat, bn: nat, addr: nat, bm: set<nat>)
      requires inum < |inodes| && bn < MAXFILE && inum < |old(inodes)|
      reads this
    {
      && addr in owner && owner[addr] == FileSlot(inum, bn)
      && (Addr(old(View()), FileSlot(inum, bn)) != 0 ==> owner == old(owner))
      && BlockMapped(old(View()), View(), old(logged), logged, inum, bn, addr, bm)
    }

    /** bmap for one of the first NDIRECT blocks. */
    method BmapDirect(inum: nat, bn: nat) returns (addr: nat, ok: bool, ghost bm: set<nat>)
      requires Valid() && inum < |inodes| && bn < NDIRECT
      modifies this`blocks, this`inodes, this`owner, this`logged
      ensures ok ==> Valid() && inum < |inodes| && Mapped(inum, bn, addr, bm)
      ensures ok <==> BmapCost(old(View()), inum, bn) <= |Free(old(View()))|
    {
      hide BitOf, SameBytes, KeepsSlots, Owned, Addr, Free;
      Unmoved(View(), inum, bn);
      DirectFacts(View(), owner, inum, bn);
      bm := {};
      ok := true;
      addr := inodes[inum].addrs[bn];
      if addr == 0 {
        addr, ok := Balloc();
        if !ok { return; }
        ClearIsUnowned(old(View()), owner, addr);
        GrowDirect(old(View()), owner, inum, bn, addr);
        var ip := inodes[inum];
        inodes := inodes[inum := ip.(addrs := ip.addrs[bn := addr])];
        owner := owner[addr := Direct(inum, bn)];
        bm := {sb.BBlock(addr)};
        GrownSlots(old(View()), old(owner), Direct(inum, bn), addr, View());
        FreeAfterGrow(old(View()), old(owner), Direct(inum, bn), addr, View());
        DirectFacts(View(), owner, inum, bn);
      }
    }

    /** bmap makes sure that the file has an indirect block. */
    method EnsureTable(inum: nat) returns (t: nat, ok: bool, ghost bm: set<nat>)
      requires Valid() && inum < |inodes|
      modifies this`blocks, this`inodes, this`owner, this`logged
      ensures ok ==> Valid() && inum < |inodes| && inodes[inum].addrs[NDIRECT] == t != 0 && t < sb.size
      ensures ok ==> TableMade(old(View()), View(), old(logged), logged, inum, t, bm)
      ensures ok && TableOf(old(View()), inum) != {} ==> owner == old(owner)
      ensures ok <==> Count(TableOf(old(View()), inum) == {}) <= |Free(old(View()))|
    {
      hide BitOf, SameBytes, KeepsSlots, Owned, Addr, Free;
      Unmoved(View(), inum, 0);
      TableFacts(View(), owner, inum);
      bm := {};
      ok := true;
      t := inodes[inum].addrs[NDIRECT];
      if t == 0 {
        t, ok := Balloc();
        if !ok { return; }
        ClearIsUnowned(old(View()), owner, t);
        GrowTable(old(View()), owner, inum, t);
        var ip := inodes[inum];
        inodes := inodes[inum := ip.(addrs := ip.addrs[NDIRECT := t])];
        owner := owner[t := Table(inum)];
        bm := {sb.BBlock(t)};
        GrownSlots(old(View()), old(owner), Table(inum), t, View());
        FreeAfterGrow(old(View()), old(owner), Table(inum), t, View());
        TableFacts(View(), owner, inum);
      }
    }

    /** bmap for a block listed in the indirect block t. */
    method BmapEntry(inum: nat, j: nat, t: nat) returns (addr: nat, ok: bool, ghost bm: set<nat>)
      requires Valid() && inum < |inodes| && j < NINDIRECT
      requires inodes[inum].addrs[NDIRECT] == t != 0 && t < sb.size
      modifies this`blocks, this`owner, this`logged
      ensures ok ==> Valid() && Mapped(inum, NDIRECT + j, addr, bm)
      ensures ok <==> BmapCost(old(View()), inum, NDIRECT + j) <= |Free(old(View()))|
    {
      hide BitOf, Word, PutWord, SameBytes, KeepsSlots, Owned, Addr, Free;
      Unmoved(View(), inum, NDIRECT + j);
      EntryFacts(View(), owner, inum, j, t);
      bm := {};
      ok := true;
      var bp := blocks[t];
      addr := Word(bp, j);
      if addr == 0 {
        addr, ok := Balloc();
        if !ok { return; }
        ClearIsUnowned(old(View()), owner, addr);
        BBlockIsMeta(sb, addr);
        assert blocks[t] == bp;
        GrowEntry(old(View()), owner, inum, j, addr);
        blocks := blocks[t := PutWord(bp, j, addr)];
        logged := logged + {t};
        owner := owner[addr := Entry(inum, j)];
        bm := {sb.BBlock(addr)};
        EntryMapped(old(View()), old(owner), View(), old(logged), logged, inum, j, t, addr);
      }
    }

    /** bmap: the disk block that holds block bn of the file, allocating it and the
        indirect block if need be.  Panics exactly when bn is out of range or fewer blocks
        are free than it has to allocate. */
    method Bmap(inum: nat, bn: nat) returns (addr: nat, ok: bool, ghost bm: set<nat>)
      requires Valid() && inum < |inodes|
      modifies this`blocks, this`inodes, this`owner, this`logged
      ensures ok ==> bn < MAXFILE && Valid() && inum < |inodes| && Mapped(inum, bn, addr, bm)
      ensures ok <==> bn < MAXFILE && BmapCost(old(View()), inum, bn) <= |Free(old(View()))|
      ensures ok && bn < 12 ==> addr == inodes[inum].addrs[bn]
      ensures ok && bn >= 12 ==>
                var t := inodes[inum].addrs[12]; 0 < t < |blocks| && bn - 12 < 256 && addr == Word(blocks[t], bn - 12)
    {
      assert View().Shape();
      hide Word, Owned;
      if bn < NDIRECT {
        addr, ok, bm := BmapDirect(inum, bn);
        return;
      }
      if bn - NDIRECT < NINDIRECT {
        addr, ok, bm := BmapIndirect(inum, bn - NDIRECT);
        return;
      }
      addr, ok, bm := 0, false, {};
    }

    method BmapIndirect(inum: nat, j: nat) returns (addr: nat, ok: bool, ghost bm: set<nat>)
      requires Valid() && inum < |inodes| && j < NINDIRECT
      modifies this`blocks, this`inodes, this`owner, this`logged
      ensures ok ==> Valid() && inum < |inodes| && Mapped(inum, NDIRECT + j, addr, bm)
      ensures ok <==> BmapCost(old(View()), inum, NDIRECT + j) <= |Free(old(View()))|
    {
      hide Owned, SameBytes, Free, KeepsSlots, OnlySlot, Addr;
      assert FileSlot(inum, NDIRECT + j) == Entry(inum, j);
      var t;
      ghost var bm0;
      t, ok, bm0 := EnsureTable(inum);
      bm := bm0;
      addr := 0;
      if !ok { return; }
      ghost var bm1;
      ghost var v, l := View(), logged;
      IndirectCost(old(View()), v, inum, j);
      addr, ok, bm1 := BmapEntry(inum, j, t);
      bm := bm0 + bm1;
      if ok {
        MappedIndirect(old(View()), v, View(), old(logged), l, logged, inum, j, t, addr, bm0, bm1);
      }
    }

    /** The inode cache agrees with the disk but for inode inum. */
    ghost predicate CleanBut(inum: nat)
      reads this`inodes, this`dinodes
    {
      |dinodes| == |inodes| && forall i :: 0 <= i < |inodes| && i != inum ==> dinodes[i] == inodes[i]
    }

    /** iupdate makes the inode cache write-through: called after a change to one inode, it
        leaves cache and disk in agreement, at the price of one logged block. */
    method Iupdate(inum: nat)
      requires inum < |inodes| == |dinodes|
      modifies this`dinodes, this`logged
      ensures old(CleanBut(inum)) ==> dinodes == inodes
      ensures dinodes == old(dinodes)[inum := inodes[inum]]
      ensures logged == old(logged) + {sb.IBlock(inum)}
    {
      dinodes := dinodes[inum := inodes[inum]];
      logged := logged + {sb.IBlock(inum)};
    }

    /** itrunc: gives back every block of the file and leaves it empty.  No block it frees
        is already free, and afterwards the bitmap again marks exactly the owned blocks.  It
        logs the bitmap blocks of the blocks it frees and the inode's block. */
    method Itrunc(inum: nat)
      requires Valid() && inum < |inodes|
      modifies this`blocks, this`inodes, this`dinodes, this`owner, this`logged
      ensures Valid() && OnlyMeta(old(View()), View(), inum)
      ensures inodes[inum] == old(inodes)[inum].(size := 0, addrs := seq(NDIRECT + 1, _ => 0))
      ensures dinodes == old(dinodes)[inum := inodes[inum]]
      ensures owner == old(owner) - OwnedBy(old(owner), inum)
      ensures logged == old(logged) + Maps(sb, OwnedBy(old(owner), inum)) + {sb.IBlock(inum)}
    {
      assert View().Shape();
      hide Owned, OnlyMeta, GaveBack, OwnedBy, Maps;
      FreeDirect(inum);
      ghost var v, o, l := View(), owner, logged;
      MetaSelf(v, inum, inodes[inum]);
      GaveNone(sb, inum, owner, logged);
      if inodes[inum].addrs[NDIRECT] != 0 {
        FreeIndirect(inum);
      }
      MetaStep(old(View()), v, View(), inum);
      GaveMore(sb, inum, old(owner), old(logged), o, l, owner, logged);
      ClearSize(inum);
      GaveAll(View(), inum, old(owner), old(logged), owner, logged);
      Iupdate(inum);
    }

    /** ip->size = 0 */
    method ClearSize(inum: nat)
      requires Valid() && inum < |inodes|
      modifies this`inodes
      ensures Valid() && inodes == old(inodes)[inum := old(inodes)[inum].(size := 0)]
      ensures forall fs :: OnlyMeta(fs, old(View()), inum) ==> OnlyMeta(fs, View(), inum)
    {
      inodes := inodes[inum := inodes[inum].(size := 0)];
      SizeIsFree(old(View()), View(), owner);
    }

    method FreeDirect(inum: nat)
      requires Valid() && inum < |inodes|
      modifies this`blocks, this`inodes, this`owner, this`logged
      ensures Valid() && OnlyMeta(old(View()), View(), inum)
      ensures inodes[inum] == old(inodes)[inum].(addrs := inodes[inum].addrs)
      ensures forall k :: 0 <= k < NDIRECT ==> inodes[inum].addrs[k] == 0
      ensures inodes[inum].addrs[NDIRECT] == old(inodes)[inum].addrs[NDIRECT]
      ensures GaveBack(sb, inum, old(owner), old(logged), owner, logged)
    {
      assert View().Shape();
      hide Owned, OnlyMeta, GaveBack;
      MetaSelf(View(), inum, inodes[inum]);
      GaveNone(sb, inum, owner, logged);
      var i := 0;
      while i < NDIRECT
        invariant i <= NDIRECT && Valid() && OnlyMeta(old(View()), View(), inum)
        invariant inodes[inum] == old(inodes)[inum].(addrs := inodes[inum].addrs)
        invariant forall k :: 0 <= k < i ==> inodes[inum].addrs[k] == 0
        invariant inodes[inum].addrs[NDIRECT] == old(inodes)[inum].addrs[NDIRECT]
        invariant GaveBack(sb, inum, old(owner), old(logged), owner, logged)
      {
        var a := inodes[inum].addrs[i];
        if a != 0 {
          ghost var v, o, l := View(), owner, logged;
          FreeDirectOne(inum, i, a);
          MetaStep(old(View()), v, View(), inum);
          GaveMore(sb, inum, old(owner), old(logged), o, l, owner, logged);
        }
        i := i + 1;
      }
    }

    method FreeDirectOne(inum: nat, i: nat, a: nat)
      requires Valid() && inum < |inodes| && i < NDIRECT && a == inodes[inum].addrs[i] != 0
      modifies this`blocks, this`inodes, this`owner, this`logged
      ensures Valid() && OnlyMeta(old(View()), View(), inum)
      ensures inodes == old(inodes)[inum := old(inodes)[inum].(addrs := old(inodes)[inum].addrs[i := 0])]
      ensures GaveBack(sb, inum, old(owner), old(logged), owner, logged)
    {
      assert View().Shape();
      hide BitOf, Word, Owned, Addr, OnlyMeta, GaveBack;
      ShrinkDirect(View(), owner, inum, i);
      var ip := inodes[inum];
      MetaFree(View(), a, inum, ip.(addrs := ip.addrs[i := 0]));
      var ok := Bfree(a);
      assert ok;
      inodes := inodes[inum := ip.(addrs := ip.addrs[i := 0])];
      GaveOne(sb, inum, owner, old(logged), a);
      owner := owner - {a};
    }

    method FreeIndirect(inum: nat)
      requires Valid() && inum < |inodes| && inodes[inum].addrs[NDIRECT] != 0
      modifies this`blocks, this`inodes, this`owner, this`logged
      ensures Valid() && OnlyMeta(old(View()), View(), inum)
      ensures inodes == old(inodes)[inum := old(inodes)[inum].(addrs := old(inodes)[inum].addrs[NDIRECT := 0])]
      ensures GaveBack(sb, inum, old(owner), old(logged), owner, logged)
    {
      var t := inodes[inum].addrs[NDIRECT];
      assert Table(inum).In(View()) && Live(View(), Whole, Table(inum)) == t;
      assert t in owner && View().Shape() && sb.datastart <= t < sb.size;
      hide GaveBack;
      FreeEntries(inum, t);
      ghost var o, l := owner, logged;
      FreeTable(inum, t);
      GaveMore(sb, inum, old(owner), old(logged), o, l, owner, logged);
    }

    method FreeTable(inum: nat, t: nat)
      requires View().Shape() && Owned(View(), owner, Freed(inum, NINDIRECT)) && inum < |inodes| == |dinodes|
      requires t == inodes[inum].addrs[NDIRECT] != 0
      modifies this`blocks, this`inodes, this`owner, this`logged
      ensures Valid() && OnlyMeta(old(View()), View(), inum)
      ensures inodes == old(inodes)[inum := old(inodes)[inum].(addrs := old(inodes)[inum].addrs[NDIRECT := 0])]
      ensures GaveBack(sb, inum, old(owner), old(logged), owner, logged)
    {
      hide BitOf, Word, Owned, Addr, OnlyMeta, GaveBack;
      ShrinkTable(View(), owner, inum);
      GaveOne(sb, inum, owner, logged, t);
      var ip := inodes[inum];
      MetaFree(View(), t, inum, ip.(addrs := ip.addrs[NDIRECT := 0]));
      var ok := Bfree(t);
      assert ok;
      inodes := inodes[inum := ip.(addrs := ip.addrs[NDIRECT := 0])];
      owner := owner - {t};
    }

    /** itrunc's loop over the indirect block. */
    method FreeEntries(inum: nat, t: nat)
      requires Valid() && inum < |inodes| && t == inodes[inum].addrs[NDIRECT]
      requires sb.datastart <= t < sb.size && 0 < t
      modifies this`blocks, this`owner, this`logged
      ensures View().Shape() && Owned(View(), owner, Freed(inum, NINDIRECT))
      ensures OnlyMeta(old(View()), View(), inum) && GaveBack(sb, inum, old(owner), old(logged), owner, logged)
    {
      assert View().Shape();
      hide Owned, GaveBack;
      GaveNone(sb, inum, owner, logged);
      StartCut(View(), owner, inum);
      var bp := blocks[t];
      var j := 0;
      while j < NINDIRECT
        invariant j <= NINDIRECT && View().Shape() && Owned(View(), owner, Freed(inum, j))
        invariant OnlyMeta(old(View()), View(), inum) && GaveBack(sb, inum, old(owner), old(logged), owner, logged)
      {
        ghost var v, o, l := View(), owner, logged;
        FreeEntryOne(inum, j, t, Word(bp, j));
        MetaStep(old(View()), v, View(), inum);
        GaveMore(sb, inum, old(owner), old(logged), o, l, owner, logged);
        j := j + 1;
      }
    }

    /** One turn of itrunc's loop over the indirect block. */
    method FreeEntryOne(inum: nat, j: nat, t: nat, a: nat)
      requires View().Shape() && Owned(View(), owner, Freed(inum, j)) && inum < |inodes| && j < NINDIRECT
      requires t == inodes[inum].addrs[NDIRECT] && 0 < t < sb.size && sb.datastart <= t && a == Word(blocks[t], j)
      modifies this`blocks, this`owner, this`logged
      ensures View().Shape() && Owned(View(), owner, Freed(inum, j + 1))
      ensures OnlyMeta(old(View()), View(), inum) && GaveBack(sb, inum, old(owner), old(logged), owner, logged)
    {
      hide BitOf, Word, Owned, OnlyMeta, GaveBack;
      GaveNone(sb, inum, owner, logged);
      assert Addr(View(), Entry(inum, j)) == a;
      MetaSelf(View(), inum, inodes[inum]);
      if a != 0 {
        ShrinkEntry(View(), owner, inum, j);
        GaveOne(sb, inum, owner, logged, a);
        MetaFree(View(), a, inum, inodes[inum]);
        var ok := Bfree(a);
        assert ok;
        owner := owner - {a};
      } else {
        SkipEntry(View(), owner, inum, j);
      }
    }

    /** Inodes of type 0 have no blocks. */
    ghost predicate FreeInodesEmpty()
      reads this
    {
      forall i :: 0 <= i < |inodes| && inodes[i].typ == 0 ==>
        inodes[i].size == 0 && inodes[i].addrs == seq(NDIRECT + 1, _ => 0)
    }

    /** iput of an inode with `ref` references, whose fields are read in iff `valid`.  The
        last reference to an inode without links gives its blocks back before it frees
        the inode, so a free inode never owns a block; any other call only drops its
        reference. */
    method Iput(inum: nat, ref: nat, valid: bool) returns (ref': nat)
      requires Valid() && inum < |inodes| && FreeInodesEmpty() && ref > 0
      modifies this`blocks, this`inodes, this`dinodes, this`owner, this`logged
      ensures Valid() && FreeInodesEmpty() && ref' == ref - 1
      ensures OnlyMeta(old(View()), View(), inum) && (old(dinodes == inodes) ==> dinodes == inodes)
      ensures inodes[inum] == if ref == 1 && valid && old(inodes)[inum].nlink == 0
                              then Inode(0, 0, 0, seq(NDIRECT + 1, _ => 0)) else old(inodes)[inum]
      ensures if ref == 1 && valid && old(inodes)[inum].nlink == 0
              then logged == old(logged) + Maps(sb, OwnedBy(old(owner), inum)) + {sb.IBlock(inum)}
              else View() == old(View()) && logged == old(logged)
    {
      hide Owned, OnlyMeta, OwnedBy, Maps;
      MetaSelf(View(), inum, inodes[inum]);
      if ref == 1 && valid && inodes[inum].nlink == 0 {
        Itrunc(inum);
        ghost var v := View();
        inodes := inodes[inum := inodes[inum].(typ := 0)];
        SizeIsFree(v, View(), owner);
        MetaSelf(v, inum, inodes[inum]);
        MetaStep(old(View()), v, View(), inum);
        MetaInodes(old(View()), v, inum);
        Iupdate(inum);
      }
      ref' := ref - 1;
    }

    /** ialloc: the lowest free inode, cleared.  It owned nothing, so no block is lost. */
    method Ialloc(typ: int) returns (inum: nat, ok: bool)
      requires Valid() && FreeInodesEmpty() && dinodes == inodes
      modifies this`inodes, this`dinodes, this`logged
      ensures Valid() && FreeInodesEmpty() && dinodes == inodes
      ensures |inodes| == |old(inodes)| && (!ok ==> inodes == old(inodes))
      ensures ok <==> exists i :: 1 <= i < |inodes| && old(inodes)[i].typ == 0
      ensures ok ==> 1 <= inum < |inodes| && old(inodes)[inum].typ == 0
                     && inodes == old(inodes)[inum := Inode(typ, 0, 0, seq(NDIRECT + 1, _ => 0))]
                     && forall i :: 1 <= i < inum ==> old(inodes)[i].typ != 0
    {
      hide Owned;
      inum := 1;
      while inum < |dinodes|
        invariant forall i :: 1 <= i < inum && i < |dinodes| ==> dinodes[i].typ != 0
        invariant inodes == old(inodes) && dinodes == inodes && Valid()
      {
        if dinodes[inum].typ == 0 {
          ghost var v := View();
          dinodes := dinodes[inum := Inode(typ, 0, 0, seq(NDIRECT + 1, _ => 0))];
          inodes := dinodes;
          logged := logged + {sb.IBlock(inum)};
          SizeIsFree(v, View(), owner);
          return inum, true;
        }
        inum := inum + 1;
      }
      ok := false;
    }
  }

  /** Data blocks and other inodes stand still. */
  ghost predicate OnlyMeta(fs: Fs, fs': Fs, inum: nat) {
    && |fs'.blocks| == |fs.blocks| && |fs'.inodes| == |fs.inodes| && fs'.sb == fs.sb
    && (forall b :: fs.sb.datastart <= b < |fs.blocks| ==> fs'.blocks[b] == fs.blocks[b])
    && forall i :: 0 <= i < |fs.inodes| && i != inum ==> fs'.inodes[i] == fs.inodes[i]
  }

  lemma MetaStep(fs0: Fs, fs: Fs, fs': Fs, inum: nat)
    requires OnlyMeta(fs0, fs, inum) && OnlyMeta(fs, fs', inum)
    ensures OnlyMeta(fs0, fs', inum)
  {
  }

  lemma MetaInodes(fs: Fs, fs': Fs, inum: nat)
    requires OnlyMeta(fs, fs', inum)
    ensures |fs'.inodes| == |fs.inodes|
    ensures forall i :: 0 <= i < |fs.inodes| && i != inum ==> fs'.inodes[i] == fs.inodes[i]
  {
  }

  lemma MetaSelf(fs: Fs, inum: nat, ip: Inode)
    requires inum < |fs.inodes|
    ensures OnlyMeta(fs, fs, inum) && OnlyMeta(fs, fs.(inodes := fs.inodes[inum := ip]), inum)
  {
  }

  lemma MetaFree(fs: Fs, a: nat, inum: nat, ip: Inode)
    requires fs.Shape() && a < fs.sb.size && inum < |fs.inodes|
    ensures OnlyMeta(fs, Released(fs, a), inum)
    ensures OnlyMeta(fs, Released(fs, a).(inodes := fs.inodes[inum := ip]), inum)
  {
    BBlockIsMeta(fs.sb, a);
  }

  /** Ownership does not depend on sizes. */
  lemma SizeIsFree(fs: Fs, fs': Fs, owner: Owner)
    requires Owned(fs, owner, Whole) && fs'.sb == fs.sb && fs'.blocks == fs.blocks && |fs'.inodes| == |fs.inodes|
    requires forall i :: 0 <= i < |fs.inodes| ==> fs'.inodes[i].addrs == fs.inodes[i].addrs
    ensures Owned(fs', owner, Whole)
    ensures forall r: Slot :: r.In(fs) ==> Addr(fs', r) == Addr(fs, r)
  {
    forall r: Slot | r.In(fs)
      ensures Live(fs', Whole, r) == Live(fs, Whole, r)
    {
    }
    assert forall a: nat :: a < fs.sb.size ==> fs'.Bit(a) == fs.Bit(a);
  }

  /** Slots in use keep their block, and files keep their size. */
  ghost predicate KeepsSlots(fs: Fs, fs': Fs) {
    && |fs'.inodes| == |fs.inodes|
    && (forall r: Slot :: r.In(fs) && Addr(fs, r) != 0 ==> Addr(fs', r) == Addr(fs, r))
    && forall i :: 0 <= i < |fs.inodes| ==> fs'.inodes[i] == fs.inodes[i].(addrs := fs'.inodes[i].addrs)
  }

  lemma SlotsStep(fs0: Fs, fs: Fs, fs': Fs)
    requires KeepsSlots(fs0, fs) && KeepsSlots(fs, fs')
    ensures KeepsSlots(fs0, fs')
  {
    hide Addr;
  }

  lemma SameTwice(fs0: Fs, fs: Fs, fs': Fs)
    requires SameBytes(fs0, fs) && SameBytes(fs, fs')
    ensures SameBytes(fs0, fs')
  {
    hide ByteAt;
  }

  lemma OwnedAt(fs: Fs, owner: Owner, a: nat)
    requires Owned(fs, owner, Whole) && a in owner
    ensures owner[a].In(fs) && Addr(fs, owner[a]) == a && fs.sb.datastart <= a < fs.sb.size
    ensures fs.Shape() && a > 0
  {
    assert Live(fs, Whole, owner[a]) == a;
  }

  lemma DirectFacts(fs: Fs, owner: Owner, inum: nat, bn: nat)
    requires Owned(fs, owner, Whole) && inum < |fs.inodes| && bn < NDIRECT
    ensures fs.Shape() && Direct(inum, bn).In(fs) && Addr(fs, Direct(inum, bn)) == fs.inodes[inum].addrs[bn]
    ensures var a := fs.inodes[inum].addrs[bn]; a != 0 ==> a in owner && owner[a] == Direct(inum, bn)
  {
    assert Direct(inum, bn).In(fs) && Live(fs, Whole, Direct(inum, bn)) == fs.inodes[inum].addrs[bn];
  }

  lemma TableFacts(fs: Fs, owner: Owner, inum: nat)
    requires Owned(fs, owner, Whole) && inum < |fs.inodes|
    ensures fs.Shape() && Table(inum).In(fs) && Addr(fs, Table(inum)) == fs.inodes[inum].addrs[NDIRECT] < fs.sb.size
    ensures var t := fs.inodes[inum].addrs[NDIRECT]; t != 0 ==> t in owner && owner[t] == Table(inum)
  {
    assert Table(inum).In(fs) && Live(fs, Whole, Table(inum)) == fs.inodes[inum].addrs[NDIRECT];
  }

  /** The indirect block of a file, and entry j in it. */
  lemma EntryFacts(fs: Fs, owner: Owner, inum: nat, j: nat, t: nat)
    requires Owned(fs, owner, Whole) && inum < |fs.inodes| && j < NINDIRECT
    requires t == fs.inodes[inum].addrs[NDIRECT] != 0 && t < fs.sb.size
    ensures fs.Shape() && t in owner && fs.Bit(t) && fs.sb.datastart <= t && Entry(inum, j).In(fs)
    ensures Addr(fs, Entry(inum, j)) == Word(fs.blocks[t], j) && Addr(fs, Table(inum)) == t
    ensures var a := Word(fs.blocks[t], j); a != 0 ==> a in owner && owner[a] == Entry(inum, j)
  {
    assert Entry(inum, j).In(fs) && Live(fs, Whole, Entry(inum, j)) == Word(fs.blocks[t], j);
    assert Table(inum).In(fs) && Live(fs, Whole, Table(inum)) == t;
  }

  lemma ClearIsUnowned(fs: Fs, owner: Owner, a: nat)
    requires Owned(fs, owner, Whole) && a < fs.sb.size && !fs.Bit(a)
    ensures a !in owner && fs.sb.datastart <= a
  {
  }

  lemma Unmoved(fs: Fs, inum: nat, bn: nat)
    requires inum < |fs.inodes| && bn < MAXFILE
    ensures SameBytes(fs, fs) && KeepsSlots(fs, fs) && OnlySlot(fs, fs, inum, bn)
  {
  }

  lemma GrownSlots(fs: Fs, owner: Owner, s: Slot, a: nat, fs': Fs)
    requires Owned(fs, owner, Whole) && s.In(fs) && Addr(fs, s) == 0
    requires Owned(fs', owner[a := s], Whole) && a !in owner && |fs'.inodes| == |fs.inodes|
    requires forall i :: 0 <= i < |fs.inodes| ==> fs'.inodes[i] == fs.inodes[i].(addrs := fs'.inodes[i].addrs)
    ensures KeepsSlots(fs, fs')
    ensures forall r: Slot :: r.In(fs) && r != s ==> Addr(fs', r) == Addr(fs, r)
  {
    hide Addr;
    forall r: Slot | r.In(fs) && r != s
      ensures Addr(fs', r) == Addr(fs, r)
    {
      assert r.In(fs');
      assert Live(fs, Whole, r) == Addr(fs, r) && Live(fs', Whole, r) == Addr(fs', r);
      var b, b' := Addr(fs, r), Addr(fs', r);
      assert b != 0 ==> b in owner && owner[a := s][b] == r;
      assert b' != 0 ==> b' in owner[a := s] && owner[a := s][b'] == r;
    }
  }
}
