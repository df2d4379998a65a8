/** What the file system keeps in disk blocks: bitmap bits, block numbers in an
    indirect block, and the blocks of a file, as fs.c finds them with `/`, `%` and
    masks. */
module FsImage {
  import opened Common

  const BSIZE: nat := 1024
  const NDIRECT: nat := 12
  const NINDIRECT: nat := 256     // BSIZE / sizeof(uint)
  const MAXFILE: nat := NDIRECT + NINDIRECT
  const BPB: nat := 8192          // BSIZE * 8
  const IPB: nat := 16            // BSIZE / sizeof(struct dinode)

  type Block = b: seq<Byte> | |b| == BSIZE witness seq(BSIZE, _ => 0)

  function ZeroBlock(): (b: Block) {
    seq(BSIZE, _ => 0)
  }

  // ----- bits

  /** x & (1 << k) */
  predicate Has(x: nat, k: nat) {
    if k == 0 then x % 2 == 1 else Has(x / 2, k - 1)
  }

  /** x | (1 << k) */
  function With(x: nat, k: nat): (r: nat) {
    if k == 0 then x / 2 * 2 + 1 else With(x / 2, k - 1) * 2 + x % 2
  }

  /** x & ~(1 << k) */
  function Minus(x: nat, k: nat): (r: nat) {
    if k == 0 then x / 2 * 2 else Minus(x / 2, k - 1) * 2 + x % 2
  }

  lemma {:induction false} MaskLaws(x: nat, k: nat, j: nat)
    ensures Has(With(x, k), j) <==> j == k || Has(x, j)
    ensures Has(Minus(x, k), j) <==> j != k && Has(x, j)
  {
    if k > 0 && j > 0 {
      MaskLaws(x / 2, k - 1, j - 1);
    }
  }

  lemma {:induction false} MaskStaysByte(x: nat, k: nat, n: nat)
    requires k < n && x < Power2(n)
    ensures With(x, k) < Power2(n) && Minus(x, k) < Power2(n)
  {
    if k > 0 { MaskStaysByte(x / 2, k - 1, n - 1); }
  }

  function Power2(n: nat): (r: nat) {
    if n == 0 then 1 else 2 * Power2(n - 1)
  }

  function WithBit(x: Byte, k: nat): (r: Byte)
    requires k < 8
    ensures r == With(x, k)
  {
    assert Power2(8) == 256 by { Power2Of8(); }
    MaskStaysByte(x, k, 8);
    With(x, k)
  }

  function MinusBit(x: Byte, k: nat): (r: Byte)
    requires k < 8
    ensures r == Minus(x, k)
  {
    assert Power2(8) == 256 by { Power2Of8(); }
    MaskStaysByte(x, k, 8);
    Minus(x, k)
  }

  lemma Power2Of8()
    ensures Power2(8) == 256
  {
    assert Power2(3) == 8;
    assert Power2(6) == 8 * Power2(3);
  }

  predicate BitOf(b: Block, i: nat)
    requires i < BPB
  {
    Has(b[i / 8], i % 8)
  }

  function SetBit(b: Block, i: nat): (r: Block)
    requires i < BPB
  {
    b[i / 8 := WithBit(b[i / 8], i % 8)]
  }

  function ClearBit(b: Block, i: nat): (r: Block)
    requires i < BPB
  {
    b[i / 8 := MinusBit(b[i / 8], i % 8)]
  }

  lemma BitLaws(b: Block, i: nat, j: nat)
    requires i < BPB && j < BPB
    ensures BitOf(SetBit(b, i), j) <==> j == i || BitOf(b, j)
    ensures BitOf(ClearBit(b, i), j) <==> j != i && BitOf(b, j)
  {
    hide Has, With, Minus;
    MaskLaws(b[i / 8], i % 8, j % 8);
    assert i / 8 == j / 8 && i % 8 == j % 8 ==> i == j;
  }

  // ----- little-endian words

  function Join(b0: nat, b1: nat, b2: nat, b3: nat): (r: nat) {
    b0 + 0x100 * (b1 + 0x100 * (b2 + 0x100 * b3))
  }

  lemma JoinDigits(v: nat)
    ensures Join(v % 0x100, v / 0x100 % 0x100, v / 0x100 / 0x100 % 0x100, v / 0x100 / 0x100 / 0x100) == v
  {
  }

  /** ((uint*)b)[j] */
  function Word(b: Block, j: nat): (r: nat)
    requires j < NINDIRECT
  {
    Join(b[4 * j], b[4 * j + 1], b[4 * j + 2], b[4 * j + 3])
  }

  function PutWord(b: Block, j: nat, v: nat): (r: Block)
    requires j < NINDIRECT && v < UINT_MOD
  {
    b[4 * j := v % 0x100][4 * j + 1 := v / 0x100 % 0x100]
     [4 * j + 2 := v / 0x100 / 0x100 % 0x100][4 * j + 3 := v / 0x100 / 0x100 / 0x100]
  }

  lemma WordLaws(b: Block, j: nat, v: nat, k: nat)
    requires j < NINDIRECT && k < NINDIRECT && v < UINT_MOD
    ensures Word(PutWord(b, j, v), k) == if k == j then v else Word(b, k)
  {
    JoinDigits(v);
    hide Join;
  }

  lemma ZeroWord(j: nat)
    requires j < NINDIRECT
    ensures Word(ZeroBlock(), j) == 0
  {
  }

  // ----- the file system's state

  /** struct superblock, and the first block after the bitmap. */
  datatype Super = Super(size: nat, ninodes: nat, inodestart: nat, bmapstart: nat, datastart: nat) {
    predicate Valid() {
      && 0 < size < UINT_MOD && 0 < ninodes
      && inodestart + ninodes / IPB < bmapstart
      && bmapstart + (size - 1) / BPB < datastart <= size
    }

    /** The bitmap block with the bit for block b. */
    function BBlock(b: nat): nat { b / BPB + bmapstart }

    /** The block with inode inum in it. */
    function IBlock(inum: nat): nat { inum / IPB + inodestart }

    /** Bitmap blocks have 8192 bits each and inode blocks 16 inodes each, in order. */
    lemma Layout(b: nat, inum: nat)
      ensures BBlock(b) >= bmapstart && (BBlock(b) - bmapstart) * 8192 <= b < (BBlock(b) - bmapstart + 1) * 8192
      ensures IBlock(inum) >= inodestart && (IBlock(inum) - inodestart) * 16 <= inum < (IBlock(inum) - inodestart + 1) * 16
    {
    }
  }

  type Addrs = a: seq<nat> | |a| == NDIRECT + 1 witness seq(NDIRECT + 1, _ => 0)

  datatype Inode = Inode(typ: int, nlink: int, size: nat, addrs: Addrs)

  /** The block contents the log layer gives back, and the in-memory inodes. */
  datatype Fs = Fs(sb: Super, blocks: seq<Block>, inodes: seq<Inode>) {
    predicate Shape() {
      sb.Valid() && |blocks| == sb.size && |inodes| == sb.ninodes
    }

    predicate Bit(b: nat)
      requires Shape() && b < sb.size
    {
      BitOf(blocks[sb.BBlock(b)], b % BPB)
    }
  }

  /** The places that hold a block number. */
  datatype Slot = Direct(inum: nat, i: nat) | Table(inum: nat) | Entry(inum: nat, j: nat) {
    predicate In(fs: Fs) {
      && inum < |fs.inodes|
      && (Direct? ==> i < NDIRECT) && (Entry? ==> j < NINDIRECT)
    }
  }

  /** The block number in a slot, 0 if there is none. */
  function Addr(fs: Fs, s: Slot): (a: nat)
    requires s.In(fs)
  {
    match s
    case Direct(inum, i) => fs.inodes[inum].addrs[i]
    case Table(inum) => fs.inodes[inum].addrs[NDIRECT]
    case Entry(inum, j) =>
      var t := fs.inodes[inum].addrs[NDIRECT];
      if 0 < t < |fs.blocks| then Word(fs.blocks[t], j) else 0
  }

  /** The slot of block bn of a file. */
  function FileSlot(inum: nat, bn: nat): (s: Slot)
    requires bn < MAXFILE
  {
    if bn < NDIRECT then Direct(inum, bn) else Entry(inum, bn - NDIRECT)
  }
}
