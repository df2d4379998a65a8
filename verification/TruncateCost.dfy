/** How many blocks a truncation logs: those of the bitmap that have bits of the file's
    blocks, and the inode's.  Which disks are small enough for that to fit an operation's
    share of the log, whatever the file. */
module TruncateCost {
  import opened Common
  import opened FsImage
  import opened FsOwnership
  import opened FileSystem

  /** The number of bitmap blocks with bits of data blocks. */
  function DataMaps(sb: Super): (n: nat)
    requires sb.Valid()
  {
    if sb.datastart < sb.size then (sb.size - 1) / BPB - sb.datastart / BPB + 1 else 0
  }

  /** What itrunc logs for file inum. */
  ghost function TruncateLogs(sb: Super, owner: Owner, inum: nat): (r: set<nat>) {
    Maps(sb, OwnedBy(owner, inum)) + {sb.IBlock(inum)}
  }

  /** The n numbers from lo on. */
  ghost function Range(lo: nat, n: nat): (r: set<nat>)
    ensures |r| == n && forall x :: x in r <==> lo <= x < lo + n
  {
    if n == 0 then {} else Range(lo, n - 1) + {lo + n - 1}
  }

  lemma {:induction false} Smaller(a: set<nat>, b: set<nat>)
    requires a <= b
    ensures |a| <= |b|
    decreases a
  {
    if a != {} {
      var x :| x in a;
      Smaller(a - {x}, b - {x});
    }
  }

  /** At most one block per bitmap block that covers data, and the inode's block. */
  lemma TruncateBound(fs: Fs, owner: Owner, inum: nat)
    requires Owned(fs, owner, Whole)
    ensures |TruncateLogs(fs.sb, owner, inum)| <= DataMaps(fs.sb) + 1
  {
    var sb := fs.sb;
    var lo, n := sb.bmapstart + sb.datastart / BPB, DataMaps(sb);
    var maps := Maps(sb, OwnedBy(owner, inum));
    forall x | x in maps
      ensures x in Range(lo, n)
    {
      var a :| a in OwnedBy(owner, inum) && x == sb.BBlock(a);
      InData(fs, owner, a);
      assert sb.datastart / BPB <= a / BPB <= (sb.size - 1) / BPB;
    }
    Smaller(maps, Range(lo, n));
  }

  lemma InData(fs: Fs, owner: Owner, a: nat)
    requires Owned(fs, owner, Whole) && a in owner
    ensures fs.sb.datastart <= a < fs.sb.size
  {
  }

  // ----- a file spread over the disk

  /** An empty file system whose first b bits are marked. */
  lemma {:induction false} Marked(sb: Super, b: nat) returns (fs: Fs)
    requires sb.Valid() && b <= sb.datastart
    ensures fs.sb == sb && fs.Shape() && forall y: nat :: y < sb.size ==> (fs.Bit(y) <==> y < b)
    ensures fs.inodes == seq(sb.ninodes, _ => Inode(0, 0, 0, seq(NDIRECT + 1, _ => 0)))
  {
    hide BitOf;
    if b == 0 {
      fs := Fs(sb, seq(sb.size, _ => ZeroBlock()), seq(sb.ninodes, _ => Inode(0, 0, 0, seq(NDIRECT + 1, _ => 0))));
      forall y: nat | y < sb.size
        ensures !fs.Bit(y)
      {
        BBlockIsMeta(sb, y);
        NoBit(y % BPB);
      }
    } else {
      var m := Marked(sb, b - 1);
      BBlockIsMeta(sb, b - 1);
      var bb := sb.BBlock(b - 1);
      fs := m.(blocks := m.blocks[bb := SetBit(m.blocks[bb], (b - 1) % BPB)]);
      forall y: nat | y < sb.size
        ensures fs.Shape() && (fs.Bit(y) <==> y < b)
      {
        MarkedBit(m, b - 1, y);
      }
    }
  }

  /** The first data block with its bit in the k-th of those bitmap blocks. */
  function Spot(sb: Super, k: nat): (a: nat) {
    if k == 0 then sb.datastart else (sb.datastart / BPB + k) * BPB
  }

  lemma SpotIn(sb: Super, k: nat)
    requires sb.Valid() && k < DataMaps(sb)
    ensures sb.datastart <= Spot(sb, k) < sb.size && Spot(sb, k) / BPB == sb.datastart / BPB + k
  {
  }

  /** A file whose first k blocks are in as many different parts of the disk. */
  ghost predicate Spread(fs: Fs, owner: Owner, k: nat) {
    && Owned(fs, owner, Whole) && k <= NDIRECT && |fs.inodes| > 0
    && (forall a :: a in owner ==> exists i: nat :: i < k && a == Spot(fs.sb, i) && owner[a] == Direct(0, i))
    && (forall i: nat :: i < k ==> Spot(fs.sb, i) in owner)
    && forall i :: k <= i < NDIRECT ==> fs.inodes[0].addrs[i] == 0
  }

  lemma {:induction false} SpreadOut(sb: Super, k: nat) returns (fs: Fs, owner: Owner)
    requires sb.Valid() && k <= NDIRECT && k <= DataMaps(sb)
    ensures fs.sb == sb && Spread(fs, owner, k)
  {
    if k == 0 {
      fs := Marked(sb, sb.datastart);
      owner := map[];
      NothingOwned(fs);
    } else {
      var m, o := SpreadOut(sb, k - 1);
      fs, owner := SpreadMore(m, o, k - 1);
    }
  }

  lemma SpreadMore(fs: Fs, owner: Owner, k: nat) returns (fs': Fs, owner': Owner)
    requires Spread(fs, owner, k) && k < NDIRECT && fs.Shape() && k < DataMaps(fs.sb)
    ensures fs'.sb == fs.sb && Spread(fs', owner', k + 1)
  {
    hide Owned, BitOf;
    var a := Spot(fs.sb, k);
    SpotIn(fs.sb, k);
    forall i: nat | i < k
      ensures Spot(fs.sb, i) != a
    {
      SpotIn(fs.sb, i);
    }
    ClearSpot(fs, owner, a);
    GrowDirect(fs, owner, 0, k, a);
    fs', owner' := WithAddr(Taken(fs, a), 0, k, a), owner[a := Direct(0, k)];
  }

  lemma ClearSpot(fs: Fs, owner: Owner, a: nat)
    requires Owned(fs, owner, Whole) && fs.sb.datastart <= a < fs.sb.size && a !in owner
    ensures !fs.Bit(a)
  {
  }

  lemma SpreadHas(fs: Fs, owner: Owner, k: nat, i: nat)
    requires Spread(fs, owner, k) && i < k <= DataMaps(fs.sb)
    ensures fs.sb.bmapstart + fs.sb.datastart / BPB + i in Maps(fs.sb, OwnedBy(owner, 0))
  {
    SpotIn(fs.sb, i);
    hide Owned, Spot;
    assert Spot(fs.sb, i) in OwnedBy(owner, 0);
  }

  lemma SpreadOnly(fs: Fs, owner: Owner, k: nat, a: nat)
    requires Spread(fs, owner, k) && k <= DataMaps(fs.sb) && a in OwnedBy(owner, 0)
    ensures fs.sb.BBlock(a) in Range(fs.sb.bmapstart + fs.sb.datastart / BPB, k)
  {
    var i: nat :| i < k && a == Spot(fs.sb, i);
    SpotIn(fs.sb, i);
  }

  lemma MapsAre(sb: Super, blocks: set<nat>, maps: set<nat>)
    requires sb.Valid() && (forall x :: x in maps ==> x in Maps(sb, blocks)) && forall a :: a in blocks ==> sb.BBlock(a) in maps
    ensures Maps(sb, blocks) == maps
  {
  }

  lemma SpreadMaps(fs: Fs, owner: Owner, k: nat)
    requires Spread(fs, owner, k) && k <= DataMaps(fs.sb)
    ensures Maps(fs.sb, OwnedBy(owner, 0)) == Range(fs.sb.bmapstart + fs.sb.datastart / BPB, k)
  {
    var lo := fs.sb.bmapstart + fs.sb.datastart / BPB;
    hide Spread, OwnedBy, Maps;
    forall x | x in Range(lo, k)
      ensures x in Maps(fs.sb, OwnedBy(owner, 0))
    {
      SpreadHas(fs, owner, k, x - lo);
    }
    forall a | a in OwnedBy(owner, 0)
      ensures fs.sb.BBlock(a) in Range(lo, k)
    {
      SpreadOnly(fs, owner, k, a);
    }
    MapsAre(fs.sb, OwnedBy(owner, 0), Range(lo, k));
  }

  lemma SpreadLogs(fs: Fs, owner: Owner, k: nat)
    requires Spread(fs, owner, k) && k <= DataMaps(fs.sb)
    ensures |TruncateLogs(fs.sb, owner, 0)| == k + 1
  {
    SpreadMaps(fs, owner, k);
    assert fs.sb.Valid();
    hide Spread, Maps, OwnedBy;
    assert fs.sb.IBlock(0) < fs.sb.bmapstart;
  }

  /** Every truncation stays within one operation's share of the log exactly on disks with
      fewer than MAXOPBLOCKS bitmap blocks that cover data. */
  lemma TruncateFitsIff(sb: Super)
    requires sb.Valid()
    ensures (forall fs: Fs, owner, inum: nat :: fs.sb == sb && Owned(fs, owner, Whole) && inum < |fs.inodes| ==>
               |TruncateLogs(sb, owner, inum)| <= MAXOPBLOCKS)
            <==> DataMaps(sb) < MAXOPBLOCKS
  {
    hide Owned, TruncateLogs;
    if DataMaps(sb) < MAXOPBLOCKS {
      forall fs: Fs, owner, inum: nat | fs.sb == sb && Owned(fs, owner, Whole) && inum < |fs.inodes|
        ensures |TruncateLogs(sb, owner, inum)| <= MAXOPBLOCKS
      {
        TruncateBound(fs, owner, inum);
      }
    } else {
      var fs, owner := SpreadOut(sb, MAXOPBLOCKS);
      SpreadLogs(fs, owner, MAXOPBLOCKS);
      assert Owned(fs, owner, Whole);
    }
  }
}
