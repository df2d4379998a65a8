/** The on-disk redo log: what a disk image means, and what recovery makes of it.

    A disk image is a sequence of blocks.  The log region starts with a header
    block (a count and that many home block numbers) followed by the logged
    copies.  `Logical` reads the contents that recovery promises for a home
    block straight off an image; the lemmas show that every write recovery makes
    keeps those contents, however often recovery itself is cut short. */
module RedoLog {
  const BLOCK_WORDS: nat := 256   // BSIZE / sizeof(int)
  const LOGSIZE: nat := 30
  const NBUF: nat := 30

  type Block = b: seq<nat> | |b| == BLOCK_WORDS witness seq(BLOCK_WORDS, _ => 0)
  type Image = seq<Block>

  /** log.start and log.size. */
  datatype Geometry = Geometry(start: nat, size: nat) {
    predicate Fits(blocks: nat) {
      0 < size && start + size <= blocks
    }

    /** A block outside the log region, where the file system keeps its data. */
    predicate Home(blocks: nat, b: nat) {
      b < blocks && !(start <= b < start + size)
    }
  }

  predicate Distinct(s: seq<nat>) {
    forall i, j :: 0 <= i < j < |s| ==> s[i] != s[j]
  }

  /** A list of home blocks that the log region has room for. */
  predicate Loggable(g: Geometry, blocks: nat, bs: seq<nat>) {
    && |bs| <= LOGSIZE && |bs| < g.size
    && Distinct(bs)
    && forall k :: 0 <= k < |bs| ==> g.Home(blocks, bs[k])
  }

  /** struct logheader laid over a block: word 0 is n, words 1..n are block numbers. */
  function HeaderBlocks(b: Block): (r: seq<nat>) {
    if b[0] <= LOGSIZE then b[1..1 + b[0]] else []
  }

  function EncodeHeader(b: Block, bs: seq<nat>): (r: Block)
    requires |bs| <= LOGSIZE
  {
    [|bs|] + bs + b[1 + |bs|..]
  }

  lemma HeaderRoundTrip(b: Block, bs: seq<nat>)
    requires |bs| <= LOGSIZE
    ensures HeaderBlocks(EncodeHeader(b, bs)) == bs
  {
    var e := EncodeHeader(b, bs);
    assert e[0] == |bs|;
    assert e[1..1 + |bs|] == bs;
  }

  predicate ValidImage(g: Geometry, d: Image) {
    && g.Fits(|d|)
    && d[g.start][0] <= LOGSIZE
    && Loggable(g, |d|, HeaderBlocks(d[g.start]))
  }

  /** The position of b in the list, or the list's length. */
  function Slot(bs: seq<nat>, b: nat): (k: nat)
    ensures k <= |bs|
    ensures k < |bs| ==> bs[k] == b
    ensures k == |bs| ==> b !in bs
  {
    if bs == [] then 0 else if bs[0] == b then 0 else 1 + Slot(bs[1..], b)
  }

  lemma {:induction false} SlotUnique(bs: seq<nat>, k: nat)
    requires Distinct(bs) && k < |bs|
    ensures Slot(bs, bs[k]) == k
  {
    assert bs[k] in bs;
  }

  /** Block b of image d with the first t logged blocks laid over it. */
  function Overlaid(g: Geometry, d: Image, bs: seq<nat>, t: nat, b: nat): (r: Block)
    requires g.Fits(|d|) && |bs| < g.size && b < |d| && t <= |bs|
  {
    if Slot(bs, b) < t then d[g.start + 1 + Slot(bs, b)] else d[b]
  }

  /** The contents that home block b has once the log has been replayed. */
  function Logical(g: Geometry, d: Image, b: nat): (r: Block)
    requires ValidImage(g, d) && g.Home(|d|, b)
  {
    var bs := HeaderBlocks(d[g.start]);
    Overlaid(g, d, bs, |bs|, b)
  }

  ghost predicate SameLogical(g: Geometry, d: Image, e: Image) {
    && ValidImage(g, d) && ValidImage(g, e) && |d| == |e|
    && forall b: nat :: g.Home(|d|, b) ==> Logical(g, d, b) == Logical(g, e, b)
  }

  // ----- recovery, one disk write at a time

  /** The image after install_trans has copied the first t logged blocks home. */
  function Installed(g: Geometry, d: Image, bs: seq<nat>, t: nat): (r: Image)
    requires Loggable(g, |d|, bs) && g.Fits(|d|) && t <= |bs|
    ensures |r| == |d|
  {
    if t == 0 then d
    else
      var e := Installed(g, d, bs, t - 1);
      e[bs[t - 1] := e[g.start + t]]
  }

  function Cleared(g: Geometry, d: Image): (r: Image)
    requires g.Fits(|d|)
  {
    d[g.start := EncodeHeader(d[g.start], [])]
  }

  /** recover_from_log run to the end. */
  function Recovered(g: Geometry, d: Image): (r: Image)
    requires ValidImage(g, d)
  {
    var bs := HeaderBlocks(d[g.start]);
    Cleared(g, Installed(g, d, bs, |bs|))
  }

  lemma NotLogged(g: Geometry, blocks: nat, bs: seq<nat>, b: nat)
    requires Loggable(g, blocks, bs) && g.start <= b < g.start + g.size
    ensures Slot(bs, b) == |bs|
  {
    var k := Slot(bs, b);
    assert k < |bs| ==> g.Home(blocks, bs[k]);
  }

  lemma {:induction false} InstalledContents(g: Geometry, d: Image, bs: seq<nat>, t: nat, b: nat)
    requires Loggable(g, |d|, bs) && g.Fits(|d|) && t <= |bs| && b < |d|
    ensures Installed(g, d, bs, t)[b] == Overlaid(g, d, bs, t, b)
  {
    if t > 0 {
      InstalledContents(g, d, bs, t - 1, b);
      InstalledContents(g, d, bs, t - 1, g.start + t);
      NotLogged(g, |d|, bs, g.start + t);
      SlotUnique(bs, t - 1);
    }
  }

  lemma InstalledStart(g: Geometry, d: Image, bs: seq<nat>)
    requires Loggable(g, |d|, bs) && g.Fits(|d|)
    ensures Installed(g, d, bs, 0) == d
  {
  }

  lemma InstalledStep(g: Geometry, d: Image, bs: seq<nat>, t: nat)
    requires Loggable(g, |d|, bs) && g.Fits(|d|) && t < |bs|
    ensures var e := Installed(g, d, bs, t);
            |e| == |d| && Installed(g, d, bs, t + 1) == e[bs[t] := e[g.start + 1 + t]]
  {
  }

  lemma InstallKeepsLogical(g: Geometry, d: Image, t: nat)
    requires ValidImage(g, d) && t <= |HeaderBlocks(d[g.start])|
    ensures SameLogical(g, d, Installed(g, d, HeaderBlocks(d[g.start]), t))
  {
    var bs := HeaderBlocks(d[g.start]);
    var e := Installed(g, d, bs, t);
    forall b: nat | g.start <= b < g.start + g.size
      ensures e[b] == d[b]
    {
      InstalledContents(g, d, bs, t, b);
      NotLogged(g, |d|, bs, b);
    }
    forall b: nat | g.Home(|d|, b)
      ensures Logical(g, d, b) == Logical(g, e, b)
    {
      InstalledContents(g, d, bs, t, b);
    }
  }

  lemma ClearKeepsHome(g: Geometry, d: Image)
    requires g.Fits(|d|)
    ensures ValidImage(g, Cleared(g, d)) && HeaderBlocks(Cleared(g, d)[g.start]) == []
    ensures forall b: nat :: g.Home(|d|, b) ==> Logical(g, Cleared(g, d), b) == d[b]
  {
    HeaderRoundTrip(d[g.start], []);
  }

  /** A recovered image has an empty log and holds exactly the logical contents. */
  lemma RecoveryCompletes(g: Geometry, d: Image)
    requires ValidImage(g, d)
    ensures SameLogical(g, d, Recovered(g, d))
    ensures HeaderBlocks(Recovered(g, d)[g.start]) == []
    ensures forall b: nat :: g.Home(|d|, b) ==> Recovered(g, d)[b] == Logical(g, d, b)
  {
    var bs := HeaderBlocks(d[g.start]);
    var e := Installed(g, d, bs, |bs|);
    ClearKeepsHome(g, e);
    forall b: nat | g.Home(|d|, b)
      ensures e[b] == Logical(g, d, b)
    {
      InstalledContents(g, d, bs, |bs|, b);
    }
  }

  /** Recovery cut short by a crash after k of its disk writes. */
  function CutRecovery(g: Geometry, d: Image, k: nat): (r: Image)
    requires ValidImage(g, d)
  {
    var bs := HeaderBlocks(d[g.start]);
    if k <= |bs| then Installed(g, d, bs, k) else Recovered(g, d)
  }

  lemma CutKeepsLogical(g: Geometry, d: Image, k: nat)
    requires ValidImage(g, d)
    ensures SameLogical(g, d, CutRecovery(g, d, k))
  {
    if k <= |HeaderBlocks(d[g.start])| {
      InstallKeepsLogical(g, d, k);
    } else {
      RecoveryCompletes(g, d);
    }
  }

  /** One boot attempt per element of cuts, each cut short after that many writes. */
  ghost function BootLoop(g: Geometry, d: Image, cuts: seq<nat>): (r: Image)
    requires ValidImage(g, d)
    ensures SameLogical(g, d, r)
    decreases |cuts|
  {
    if cuts == [] then d
    else
      var e := CutRecovery(g, d, cuts[0]);
      CutKeepsLogical(g, d, cuts[0]);
      BootLoop(g, e, cuts[1..])
  }

  lemma CutHeader(g: Geometry, d: Image, k: nat)
    requires ValidImage(g, d)
    ensures |CutRecovery(g, d, k)| == |d|
    ensures var h := HeaderBlocks(CutRecovery(g, d, k)[g.start]); h == HeaderBlocks(d[g.start]) || h == []
  {
    var bs := HeaderBlocks(d[g.start]);
    if k <= |bs| {
      InstalledContents(g, d, bs, k, g.start);
      NotLogged(g, |d|, bs, g.start);
    } else {
      RecoveryCompletes(g, d);
    }
  }

  /** Boots that are cut short leave the header as it was, or empty. */
  lemma {:induction false} BootLoopHeader(g: Geometry, d: Image, cuts: seq<nat>)
    requires ValidImage(g, d)
    ensures var h := HeaderBlocks(BootLoop(g, d, cuts)[g.start]); h == HeaderBlocks(d[g.start]) || h == []
    decreases |cuts|
  {
    if cuts != [] {
      CutHeader(g, d, cuts[0]);
      CutKeepsLogical(g, d, cuts[0]);
      BootLoopHeader(g, CutRecovery(g, d, cuts[0]), cuts[1..]);
    }
  }

  /** However often recovery crashes and restarts, the boot that completes leaves
      every home block with the contents the log promised at the first crash. */
  lemma RecoverySurvivesCrashes(g: Geometry, d: Image, cuts: seq<nat>)
    requires ValidImage(g, d)
    ensures var r := Recovered(g, BootLoop(g, d, cuts));
            && |r| == |d| && HeaderBlocks(r[g.start]) == []
            && forall b: nat :: g.Home(|d|, b) ==> r[b] == Logical(g, d, b)
  {
    RecoveryCompletes(g, BootLoop(g, d, cuts));
  }
}
