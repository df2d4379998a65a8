/** A canonical way to write commands down, and the proof that the parser reads it back. */
module ShellPrinter {
  import opened ShellGrammar
  import opened ShellTokens
  import opened ShellSentences

  /** What the shell can run: at most nine words in one command. */
  predicate Proper(t: Tree) {
    match t
    case Words(ws) => |ws| < MAXARGS && forall k :: 0 <= k < |ws| ==> IsWord(ws[k])
    case Redirected(u, f, _) => Proper(u) && IsWord(f)
    case Piped(l, r) => Proper(l) && Proper(r)
    case Listed(l, r) => Proper(l) && Proper(r)
    case Backed(u) => Proper(u)
  }

  function Args(ws: seq<string>): (ps: seq<Piece>)
    ensures |ps| == |ws| && forall k :: 0 <= k < |ws| ==> ps[k] == Arg(ws[k])
  {
    seq(|ws|, (k: nat) requires k < |ws| => Arg(ws[k]))
  }

  /** Everything but plain words in parentheses. */
  function Canonical(t: Tree): (x: Sentence) {
    match t
    case Words(ws) => Last(Single(Plain(Args(ws))), 0)
    case Redirected(u, f, w) => Last(Single(Block(Canonical(u), [Redirection(w, f)])), 0)
    case Piped(l, r) => Last(Piping(Block(Canonical(l), []), Single(Block(Canonical(r), []))), 0)
    case Listed(l, r) => Then(Single(Block(Canonical(l), [])), 0, Last(Single(Block(Canonical(r), [])), 0))
    case Backed(u) => Last(Single(Block(Canonical(u), [])), 1)
  }

  /** A space only where tokens would run into each other. */
  function Gaps(toks: seq<Tok>): (gaps: seq<string>)
    ensures GapsOk(gaps, toks) && (forall k :: 0 <= k < |gaps| ==> |gaps[k]| <= 1) && gaps[0] == ""
  {
    if |toks| < 2 then seq(|toks| + 1, _ => "")
    else
      var more := Gaps(toks[1..]);
      var g := if Touching(toks[0], toks[1]) then " " else "";
      GapsMore("", g, more, toks[0], toks[1..]);
      assert [toks[0]] + toks[1..] == toks;
      ["", g] + more[1..]
  }

  function Print(t: Tree): (s: string) { Spaced(Gaps(Toks(Canonical(t))), Toks(Canonical(t))) }

  lemma {:induction false} ArgsAre(ws: seq<string>)
    ensures ArgsOf(Args(ws)) == ws && RedsOf(Args(ws)) == []
  {
    if ws != [] {
      ArgsAre(ws[1..]);
      assert Args(ws)[1..] == Args(ws[1..]);
    }
  }

  /** A block with nothing behind it says what is in it. */
  lemma Blocked(x: Sentence)
    requires Fine(x)
    ensures FinePart(Block(x, [])) && PartTree(Block(x, [])) == TreeOf(x)
  {
  }

  lemma BlockedTo(x: Sentence, w: Way, f: string)
    requires Fine(x) && IsWord(f)
    ensures FinePart(Block(x, [Redirection(w, f)])) && PartTree(Block(x, [Redirection(w, f)])) == Redirected(TreeOf(x), f, w)
  {
    var rs := [Redirection(w, f)];
    assert rs[1..] == [];
    assert Around(TreeOf(x), rs) == Around(Redirected(TreeOf(x), f, w), rs[1..]);
  }

  lemma Alone(p: Part)
    requires FinePart(p)
    ensures Fine(Last(Single(p), 0)) && TreeOf(Last(Single(p), 0)) == PartTree(p)
    ensures Fine(Last(Single(p), 1)) && TreeOf(Last(Single(p), 1)) == Backed(PartTree(p))
  {
    hide FinePart, PartTree;
    assert Backs(PartTree(p), 1) == Backs(Backed(PartTree(p)), 0);
  }

  lemma {:induction false} CanonicalSays(t: Tree)
    requires Proper(t)
    ensures Fine(Canonical(t)) && TreeOf(Canonical(t)) == t
  {
    match t
    case Words(ws) =>
      ArgsAre(ws);
      Alone(Plain(Args(ws)));
    case Redirected(u, f, w) =>
      CanonicalSays(u);
      BlockedTo(Canonical(u), w, f);
      Alone(Block(Canonical(u), [Redirection(w, f)]));
    case Piped(l, r) =>
      CanonicalSays(l);
      CanonicalSays(r);
      PairSays(Canonical(l), Canonical(r));
    case Listed(l, r) =>
      CanonicalSays(l);
      CanonicalSays(r);
      PairSays(Canonical(l), Canonical(r));
    case Backed(u) =>
      CanonicalSays(u);
      Blocked(Canonical(u));
      Alone(Block(Canonical(u), []));
  }

  lemma PairSays(x: Sentence, y: Sentence)
    requires Fine(x) && Fine(y)
    ensures var piped := Last(Piping(Block(x, []), Single(Block(y, []))), 0);
            Fine(piped) && TreeOf(piped) == Piped(TreeOf(x), TreeOf(y))
    ensures var listed := Then(Single(Block(x, [])), 0, Last(Single(Block(y, [])), 0));
            Fine(listed) && TreeOf(listed) == Listed(TreeOf(x), TreeOf(y))
  {
    Blocked(x);
    Blocked(y);
    Alone(Block(y, []));
    hide FinePart, PartTree;
    var pl := Piping(Block(x, []), Single(Block(y, [])));
    assert FinePipe(pl.rest) && PipeTree(pl.rest) == PartTree(pl.rest.p);
    assert FinePipe(pl) && PipeTree(pl) == Piped(TreeOf(x), TreeOf(y));
  }

  /** What is spelled from words and symbols is a line. */
  lemma {:induction false} SpelledIsLine(gaps: seq<string>, toks: seq<Tok>)
    requires GapsOk(gaps, toks) && AllGood(toks)
    ensures NUL !in Spaced(gaps, toks)
    decreases |toks|
  {
    assert Blank(gaps[0]);
    if toks != [] {
      assert Good(toks[0]);
      TailOk(gaps, toks);
      SpelledIsLine(gaps[1..], toks[1..]);
    }
  }

  /** Parsing inverts printing. */
  lemma ParseInvertsPrint(t: Tree)
    requires Proper(t)
    ensures NUL !in Print(t)
    ensures ParseCmd(Print(t)).Command? && Means(Print(t), ParseCmd(Print(t)).cmd, t)
  {
    hide ParseCmd, Means, TreeOf, Toks, Spaced, GapsOk, Canonical, Fine, AllGood;
    var x := Canonical(t);
    CanonicalSays(t);
    SentenceGood(x);
    SpelledIsLine(Gaps(Toks(x)), Toks(x));
    assert Says(Print(t), x);
    SentenceIsRead(Print(t), x);
  }

  // ----- what sentences say is proper

  lemma {:induction false} AroundProper(t: Tree, rs: seq<Redirection>)
    requires Proper(t) && FineReds(rs)
    ensures Proper(Around(t, rs))
    decreases |rs|
  {
    if rs != [] {
      AroundProper(Redirected(t, rs[0].file, rs[0].way), rs[1..]);
    }
  }

  lemma {:induction false} BacksProper(t: Tree, n: nat)
    requires Proper(t)
    ensures Proper(Backs(t, n))
    decreases n
  {
    if n > 0 {
      BacksProper(Backed(t), n - 1);
    }
  }

  lemma {:induction false} PiecesProper(ps: seq<Piece>)
    requires FinePieces(ps)
    ensures (forall k :: 0 <= k < |ArgsOf(ps)| ==> IsWord(ArgsOf(ps)[k])) && FineReds(RedsOf(ps))
  {
    if ps != [] {
      assert FinePiece(ps[0]);
      PiecesProper(ps[1..]);
    }
  }

  lemma {:induction false} PartProper(p: Part)
    requires FinePart(p)
    ensures Proper(PartTree(p))
    decreases p
  {
    match p
    case Plain(ps) =>
      assert FinePieces(ps);
      PiecesProper(ps);
      AroundProper(Words(ArgsOf(ps)), RedsOf(ps));
    case Block(l, rs) =>
      SentenceProper(l);
      AroundProper(TreeOf(l), rs);
  }

  lemma {:induction false} PipeProper(pl: Pipeline)
    requires FinePipe(pl)
    ensures Proper(PipeTree(pl))
    decreases pl
  {
    PartProper(pl.p);
    if pl.Piping? {
      PipeProper(pl.rest);
    }
  }

  lemma {:induction false} SentenceProper(x: Sentence)
    requires Fine(x)
    ensures Proper(TreeOf(x))
    decreases x
  {
    PipeProper(x.pl);
    BacksProper(PipeTree(x.pl), x.backs);
    if x.Then? {
      SentenceProper(x.rest);
    }
  }

  /** Any line that parses means something that can be printed, and the printed form parses
      to the same. */
  lemma PrintedFormIsEquivalent(s: Line) returns (t: Tree)
    requires ParseCmd(s).Command?
    ensures Means(s, ParseCmd(s).cmd, t) && Proper(t) && NUL !in Print(t)
    ensures ParseCmd(Print(t)).Command? && Means(Print(t), ParseCmd(Print(t)).cmd, t)
  {
    hide ParseCmd, Means, Proper, Print, TreeOf, Fine;
    var x := ReadIsSentence(s);
    t := TreeOf(x);
    SentenceProper(x);
    ParseInvertsPrint(t);
  }
}
