/** What users type: words and redirections in any order, pipelines, lists, background
    commands and parentheses. A line is read as exactly the sentence it spells. */
module ShellSentences {
  import opened ShellGrammar
  import opened ShellTokens

  datatype Way = Input | Output | Append

  /** Commands by the words they are made of. */
  datatype Tree =
    | Words(ws: seq<string>)
    | Redirected(t: Tree, file: string, way: Way)
    | Piped(l: Tree, r: Tree)
    | Listed(l: Tree, r: Tree)
    | Backed(t: Tree)

  // ----- what a parsed command says

  /** p is a word of the line that ends where no word goes on. */
  predicate WordSpan(s: Line, p: Span) {
    p.q < p.eq <= |s| && IsWord(s[p.q..p.eq]) && (p.eq < |s| ==> !WordChar(s[p.eq]))
  }

  function Text(s: Line, p: Span): (w: string)
    requires WordSpan(s, p)
  {
    s[p.q..p.eq]
  }

  /** The flags and the descriptor each way of redirecting opens the file with. */
  predicate Opens(way: Way, mode: nat, fd: nat) {
    match way
    case Input => mode == 0 && fd == 0
    case Output => mode == 0x601 && fd == 1
    case Append => mode == 0x201 && fd == 1
  }

  /** The tree a parsed command stands for, its words read off the line. */
  predicate Means(s: Line, c: Cmd, t: Tree) {
    match c
    case Exec(argv) => t.Words? && Spans(s, argv, t.ws)
    case Redir(d, f, mode, fd) =>
      t.Redirected? && Means(s, d, t.t) && WordSpan(s, f) && Text(s, f) == t.file && Opens(t.way, mode, fd)
    case Pipe(l, r) => t.Piped? && Means(s, l, t.l) && Means(s, r, t.r)
    case List(l, r) => t.Listed? && Means(s, l, t.l) && Means(s, r, t.r)
    case Back(d) => t.Backed? && Means(s, d, t.t)
  }

  predicate Spans(s: Line, argv: seq<Span>, ws: seq<string>) {
    |argv| == |ws| && forall k :: 0 <= k < |ws| ==> WordSpan(s, argv[k]) && Text(s, argv[k]) == ws[k]
  }

  // ----- sentences

  datatype Redirection = Redirection(way: Way, file: string)

  /** What a plain command is made of. */
  datatype Piece = Arg(w: string) | To(r: Redirection)

  datatype Part = Plain(ps: seq<Piece>) | Block(line: Sentence, rs: seq<Redirection>)
  datatype Pipeline = Single(p: Part) | Piping(p: Part, rest: Pipeline)

  /** A pipeline with a number of & behind it, perhaps followed by ; and more. */
  datatype Sentence = Last(pl: Pipeline, backs: nat) | Then(pl: Pipeline, backs: nat, rest: Sentence)

  predicate FineReds(rs: seq<Redirection>) { forall k :: 0 <= k < |rs| ==> IsWord(rs[k].file) }

  predicate FinePiece(p: Piece) { IsWord(if p.Arg? then p.w else p.r.file) }

  /** At most nine words in one command. */
  predicate FinePart(p: Part) {
    match p
    case Plain(ps) => |ArgsOf(ps)| < MAXARGS && forall k :: 0 <= k < |ps| ==> FinePiece(ps[k])
    case Block(l, rs) => Fine(l) && FineReds(rs)
  }

  predicate FinePipe(pl: Pipeline) {
    match pl
    case Single(p) => FinePart(p)
    case Piping(p, rest) => FinePart(p) && FinePipe(rest)
  }

  predicate Fine(x: Sentence) {
    match x
    case Last(pl, _) => FinePipe(pl)
    case Then(pl, _, rest) => FinePipe(pl) && Fine(rest)
  }

  function ArgOf(p: Piece): (ws: seq<string>) { if p.Arg? then [p.w] else [] }
  function RedOf(p: Piece): (rs: seq<Redirection>) { if p.To? then [p.r] else [] }

  /** The words of a plain command, in order. */
  function ArgsOf(ps: seq<Piece>): (ws: seq<string>) {
    if ps == [] then [] else ArgOf(ps[0]) + ArgsOf(ps[1..])
  }

  /** Its redirections, in order. */
  function RedsOf(ps: seq<Piece>): (rs: seq<Redirection>) {
    if ps == [] then [] else RedOf(ps[0]) + RedsOf(ps[1..])
  }

  // ----- their tokens

  function SymOf(way: Way): (t: Tok) {
    match way
    case Input => Sym('<')
    case Output => Sym('>')
    case Append => Sym('+')
  }

  function RedToks(r: Redirection): (ts: seq<Tok>) { [SymOf(r.way), Word(r.file)] }

  function RedsToks(rs: seq<Redirection>): (ts: seq<Tok>) {
    if rs == [] then [] else RedToks(rs[0]) + RedsToks(rs[1..])
  }

  function PieceToks(p: Piece): (ts: seq<Tok>) { if p.Arg? then [Word(p.w)] else RedToks(p.r) }

  function PiecesToks(ps: seq<Piece>): (ts: seq<Tok>) {
    if ps == [] then [] else PieceToks(ps[0]) + PiecesToks(ps[1..])
  }

  function Ands(n: nat): (ts: seq<Tok>) { if n == 0 then [] else [Sym('&')] + Ands(n - 1) }

  function PartToks(p: Part): (ts: seq<Tok>) {
    match p
    case Plain(ps) => PiecesToks(ps)
    case Block(l, rs) => [Sym('(')] + Toks(l) + [Sym(')')] + RedsToks(rs)
  }

  function PipeToks(pl: Pipeline): (ts: seq<Tok>) {
    match pl
    case Single(p) => PartToks(p)
    case Piping(p, rest) => PartToks(p) + [Sym('|')] + PipeToks(rest)
  }

  function Toks(x: Sentence): (ts: seq<Tok>) {
    match x
    case Last(pl, n) => PipeToks(pl) + Ands(n)
    case Then(pl, n, rest) => PipeToks(pl) + Ands(n) + [Sym(';')] + Toks(rest)
  }

  // ----- their trees

  /** Later redirections go around earlier ones. */
  function Around(t: Tree, rs: seq<Redirection>): (u: Tree)
    decreases |rs|
  {
    if rs == [] then t else Around(Redirected(t, rs[0].file, rs[0].way), rs[1..])
  }

  function Backs(t: Tree, n: nat): (u: Tree)
    decreases n
  {
    if n == 0 then t else Backs(Backed(t), n - 1)
  }

  function PartTree(p: Part): (t: Tree) {
    match p
    case Plain(ps) => Around(Words(ArgsOf(ps)), RedsOf(ps))
    case Block(l, rs) => Around(TreeOf(l), rs)
  }

  /** a | b | c pipes a into the pipeline of b and c. */
  function PipeTree(pl: Pipeline): (t: Tree) {
    match pl
    case Single(p) => PartTree(p)
    case Piping(p, rest) => Piped(PartTree(p), PipeTree(rest))
  }

  /** ; binds weaker than &, and & weaker than |. */
  function TreeOf(x: Sentence): (t: Tree) {
    match x
    case Last(pl, n) => Backs(PipeTree(pl), n)
    case Then(pl, n, rest) => Listed(Backs(PipeTree(pl), n), TreeOf(rest))
  }

  // ----- the next token

  predicate Heads(ts: seq<Tok>, c: char) { ts != [] && ts[0] == Sym(c) }

  predicate HeadsRed(ts: seq<Tok>) { Heads(ts, '<') || Heads(ts, '>') || Heads(ts, '+') }

  /** What may stand behind a part of a pipeline. */
  predicate Ends(ts: seq<Tok>) { ts == [] || Heads(ts, '|') || Heads(ts, ')') || Heads(ts, '&') || Heads(ts, ';') }

  /** What may stand behind a whole sentence. */
  predicate Closes(ts: seq<Tok>) { ts == [] || Heads(ts, ')') }

  function Kind(t: Tok): (c: char) { if t.Word? then 'a' else t.c }

  lemma Peeks(s: Line, i: nat)
    requires i <= |s|
    ensures var j, ts := SkipSpace(s, i), Tokens(s, i);
            && (ts == [] <==> j == |s|) && (Ahead(s, j, "(") <==> Heads(ts, '(')) && (Ahead(s, j, ")") <==> Heads(ts, ')'))
            && (Ahead(s, j, "|") <==> Heads(ts, '|')) && (Ahead(s, j, "&") <==> Heads(ts, '&'))
            && (Ahead(s, j, ";") <==> Heads(ts, ';')) && (Ahead(s, j, "<>") <==> HeadsRed(ts))
            && (Ahead(s, j, "|)&;") <==> Ends(ts) && ts != [])
  {
    hide SkipSpace, WordEnd;
    var j := SkipSpace(s, i);
    if j < |s| {
      assert s[j] in s;
    }
  }

  /** The token gettoken finds is the first, and the others are behind it. */
  lemma Takes(s: Line, i: nat)
    requires i <= |s|
    ensures var t, ts := GetToken(s, i), Tokens(s, i);
            && (ts == [] <==> t.kind == NUL)
            && (ts != [] ==>
                  && t.next > i && t.kind == Kind(ts[0]) && Tokens(s, t.next) == ts[1..] && (t.kind == 'a' ==> ts[0].Word?)
                  && (ts[0].Word? ==> WordSpan(s, Span(t.q, t.eq)) && Text(s, Span(t.q, t.eq)) == ts[0].w))
  {
    TokenText(s, i);
    hide SkipSpace, WordEnd;
  }

  // ----- redirections

  predicate RedSays(s: Line, d: Red, r: Redirection) {
    WordSpan(s, d.file) && Text(s, d.file) == r.file && d.tok == SymOf(r.way).c
  }

  predicate RedsSay(s: Line, ds: seq<Red>, rs: seq<Redirection>) {
    |ds| == |rs| && forall k :: 0 <= k < |rs| ==> RedSays(s, ds[k], rs[k])
  }

  lemma {:induction false} WrapMeans(s: Line, c: Cmd, t: Tree, ds: seq<Red>, rs: seq<Redirection>)
    requires Means(s, c, t) && RedsSay(s, ds, rs)
    ensures Means(s, Wrap(c, ds), Around(t, rs))
    decreases |ds|
  {
    if ds != [] {
      assert RedSays(s, ds[0], rs[0]);
      assert Means(s, RedirOf(c, ds[0]), Redirected(t, rs[0].file, rs[0].way));
      WrapMeans(s, RedirOf(c, ds[0]), Redirected(t, rs[0].file, rs[0].way), ds[1..], rs[1..]);
    }
  }

  lemma {:induction false} RedirsRead(s: Line, i: nat, rs: seq<Redirection>, rest: seq<Tok>)
    requires i <= |s| && Tokens(s, i) == RedsToks(rs) + rest && !HeadsRed(rest)
    ensures var r := ParseRedirs(s, i); r.Reds? && Tokens(s, r.next) == rest && RedsSay(s, r.reds, rs)
    decreases |rs|
  {
    hide GetToken, SkipSpace, Ahead, Tokens, WordSpan;
    Peeks(s, i);
    SkippedSpace(s, i);
    if rs == [] {
      assert RedsToks(rs) + rest == rest;
    } else {
      var ts := RedsToks(rs[1..]) + rest;
      assert RedsToks(rs) + rest == RedToks(rs[0]) + ts;
      Takes(s, SkipSpace(s, i));
      var t := GetToken(s, SkipSpace(s, i));
      assert Tokens(s, t.next) == [Word(rs[0].file)] + ts;
      Takes(s, t.next);
      var u := GetToken(s, t.next);
      assert Tokens(s, u.next) == ts;
      RedirsRead(s, u.next, rs[1..], rest);
      var r := ParseRedirs(s, u.next);
      RedsSayMore(s, Red(t.kind, Span(u.q, u.eq)), r.reds, rs);
    }
  }

  lemma RedsSayMore(s: Line, d: Red, ds: seq<Red>, rs: seq<Redirection>)
    requires rs != [] && RedSays(s, d, rs[0]) && RedsSay(s, ds, rs[1..])
    ensures RedsSay(s, [d] + ds, rs)
  {
    forall k | 0 <= k < |rs|
      ensures RedSays(s, ([d] + ds)[k], rs[k])
    {
      assert k > 0 ==> rs[k] == rs[1..][k - 1];
    }
  }

  // ----- plain commands

  function Tos(rs: seq<Redirection>): (ps: seq<Piece>)
    ensures |ps| == |rs|
  {
    if rs == [] then [] else [To(rs[0])] + Tos(rs[1..])
  }

  /** Only redirections. */
  lemma {:induction false} TosSay(rs: seq<Redirection>)
    ensures ArgsOf(Tos(rs)) == [] && RedsOf(Tos(rs)) == rs && PiecesToks(Tos(rs)) == RedsToks(rs)
  {
    if rs != [] {
      TosSay(rs[1..]);
      assert Tos(rs)[1..] == Tos(rs[1..]);
    }
  }

  lemma Joined<T>(a: seq<T>, b: seq<T>, c: seq<T>)
    ensures a + b + c == a + (b + c)
  {
  }

  lemma {:induction false} BothSay(a: seq<Piece>, b: seq<Piece>)
    ensures ArgsOf(a + b) == ArgsOf(a) + ArgsOf(b) && RedsOf(a + b) == RedsOf(a) + RedsOf(b)
    ensures PiecesToks(a + b) == PiecesToks(a) + PiecesToks(b)
  {
    if a == [] {
      assert a + b == b;
    } else {
      hide ArgOf, RedOf, PieceToks;
      BothSay(a[1..], b);
      assert (a + b)[1..] == a[1..] + b && (a + b)[0] == a[0];
      Joined(ArgOf(a[0]), ArgsOf(a[1..]), ArgsOf(b));
      Joined(RedOf(a[0]), RedsOf(a[1..]), RedsOf(b));
      Joined(PieceToks(a[0]), PiecesToks(a[1..]), PiecesToks(b));
    }
  }

  /** The redirections in front, then nothing or a word. */
  lemma {:induction false} Lead(ps: seq<Piece>) returns (rs: seq<Redirection>, more: seq<Piece>)
    ensures ps == Tos(rs) + more && (more == [] || more[0].Arg?)
    ensures ArgsOf(ps) == ArgsOf(more) && RedsOf(ps) == rs + RedsOf(more)
    ensures PiecesToks(ps) == RedsToks(rs) + PiecesToks(more)
  {
    if ps == [] || ps[0].Arg? {
      rs, more := [], ps;
    } else {
      var others;
      others, more := Lead(ps[1..]);
      rs := [ps[0].r] + others;
      assert rs[1..] == others;
    }
    hide ArgsOf, RedsOf, PiecesToks;
    assert ps == Tos(rs) + more;
    BothSay(Tos(rs), more);
    TosSay(rs);
  }

  lemma PlainOne(w: string, rs: seq<Redirection>, ps: seq<Piece>)
    ensures var all := [Arg(w)] + Tos(rs) + ps;
            && ArgsOf(all) == [w] + ArgsOf(ps) && RedsOf(all) == rs + RedsOf(ps)
            && PiecesToks(all) == [Word(w)] + (RedsToks(rs) + PiecesToks(ps))
  {
    var all := [Arg(w)] + Tos(rs) + ps;
    assert all[0] == Arg(w) && all[1..] == Tos(rs) + ps;
    BothSay(Tos(rs), ps);
    TosSay(rs);
  }

  lemma SpansMore(s: Line, p: Span, ps: seq<Span>, w: string, ws: seq<string>)
    requires WordSpan(s, p) && Text(s, p) == w && Spans(s, ps, ws)
    ensures Spans(s, [p] + ps, [w] + ws)
  {
  }

  lemma RedsSayBoth(s: Line, ds: seq<Red>, es: seq<Red>, rs: seq<Redirection>, us: seq<Redirection>)
    requires RedsSay(s, ds, rs) && RedsSay(s, es, us)
    ensures RedsSay(s, ds + es, rs + us)
  {
  }

  lemma {:induction false} ArgsRead(s: Line, i: nat, ps: seq<Piece>, rest: seq<Tok>, argv: seq<Span>, reds: seq<Red>)
    returns (ss: seq<Span>, ds: seq<Red>, k: nat)
    requires i <= |s| && Tokens(s, i) == PiecesToks(ps) + rest && Ends(rest)
    requires (ps == [] || ps[0].Arg?) && |argv| + |ArgsOf(ps)| < MAXARGS
    ensures k <= |s| && ParseArgs(s, i, argv, reds) == Args(argv + ss, reds + ds, k) && Tokens(s, k) == rest
    ensures Spans(s, ss, ArgsOf(ps)) && RedsSay(s, ds, RedsOf(ps))
    decreases |ps|
  {
    hide *;
    if ps == [] {
      EmptyPieces(rest);
      ss, ds, k := NothingRead(s, i, rest, argv, reds);
    } else {
      var rs, more := Lead(ps[1..]);
      var w := ps[0].w;
      assert ps == [Arg(w)] + Tos(rs) + more;
      PlainOne(w, rs, more);
      Joined(RedsToks(rs), PiecesToks(more), rest);
      Joined([Word(w)], RedsToks(rs) + PiecesToks(more), rest);
      NotRed(more, rest);
      var p, r := WordRead(s, i, w, rs, PiecesToks(more) + rest, argv, reds);
      var ss1, ds1;
      ss1, ds1, k := ArgsRead(s, r.next, more, rest, argv + [p], reds + r.reds);
      ss, ds := [p] + ss1, r.reds + ds1;
      SpansMore(s, p, ss1, w, ArgsOf(more));
      RedsSayBoth(s, r.reds, ds1, rs, RedsOf(more));
      Joined(argv, [p], ss1);
      Joined(reds, r.reds, ds1);
    }
  }

  lemma EmptyPieces(rest: seq<Tok>)
    ensures PiecesToks([]) + rest == rest && ArgsOf([]) == [] && RedsOf([]) == []
  {
  }

  lemma NotRed(ps: seq<Piece>, rest: seq<Tok>)
    requires (ps == [] || ps[0].Arg?) && Ends(rest)
    ensures !HeadsRed(PiecesToks(ps) + rest)
  {
    EmptyPieces(rest);
  }

  /** One round of the loop: a word and the redirections behind it. */
  lemma WordRead(s: Line, i: nat, w: string, rs: seq<Redirection>, ts: seq<Tok>, argv: seq<Span>, reds: seq<Red>)
    returns (p: Span, r: RedResult)
    requires i <= |s| && Tokens(s, i) == [Word(w)] + (RedsToks(rs) + ts) && !HeadsRed(ts) && |argv| + 1 < MAXARGS
    ensures WordSpan(s, p) && Text(s, p) == w
    ensures r.Reds? && r.next <= |s| && Tokens(s, r.next) == ts && RedsSay(s, r.reds, rs)
    ensures ParseArgs(s, i, argv, reds) == ParseArgs(s, r.next, argv + [p], reds + r.reds)
  {
    hide GetToken, SkipSpace, Ahead, Tokens, WordSpan, ParseRedirs, RedsSay, RedsToks;
    Peeks(s, i);
    SkippedSpace(s, i);
    var j := SkipSpace(s, i);
    Takes(s, j);
    var t := GetToken(s, j);
    p := Span(t.q, t.eq);
    assert Tokens(s, t.next) == RedsToks(rs) + ts;
    RedirsRead(s, t.next, rs, ts);
    r := ParseRedirs(s, t.next);
  }

  /** At the end of a command. */
  lemma NothingRead(s: Line, i: nat, rest: seq<Tok>, argv: seq<Span>, reds: seq<Red>)
    returns (ss: seq<Span>, ds: seq<Red>, k: nat)
    requires i <= |s| && Tokens(s, i) == rest && Ends(rest)
    ensures k <= |s| && ParseArgs(s, i, argv, reds) == Args(argv + ss, reds + ds, k) && Tokens(s, k) == rest
    ensures Spans(s, ss, []) && RedsSay(s, ds, [])
  {
    hide SkipSpace, Ahead, ParseRedirs;
    Peeks(s, i);
    SkippedSpace(s, i);
    ss, ds := [], [];
    assert argv + ss == argv && reds + ds == reds;
    k := if rest == [] then GetToken(s, SkipSpace(s, i)).next else SkipSpace(s, i);
  }

  /** r read this tree and stopped before these tokens. */
  predicate Reads(s: Line, r: Result, t: Tree, rest: seq<Tok>) {
    r.Ok? && r.next <= |s| && Means(s, r.cmd, t) && Tokens(s, r.next) == rest
  }

  lemma PlainRead(s: Line, i: nat, ps: seq<Piece>, rest: seq<Tok>)
    requires i <= |s| && Tokens(s, i) == PiecesToks(ps) + rest && Ends(rest) && |ArgsOf(ps)| < MAXARGS
    ensures Reads(s, ParseExec(s, i), PartTree(Plain(ps)), rest)
  {
    hide GetToken, SkipSpace, Ahead, Tokens, WordSpan, ParseRedirs, ParseArgs, ParseBlock, Spans, RedsSay, Wrap, Around;
    Peeks(s, i);
    SkippedSpace(s, i);
    var j := SkipSpace(s, i);
    var rs, more := Lead(ps);
    Joined(RedsToks(rs), PiecesToks(more), rest);
    RedirsRead(s, j, rs, PiecesToks(more) + rest);
    var r := ParseRedirs(s, j);
    var ss, ds, k := ArgsRead(s, r.next, more, rest, [], r.reds);
    assert [] + ss == ss;
    RedsSayBoth(s, r.reds, ds, rs, RedsOf(more));
    assert !Heads(Tokens(s, i), '(') by { PlainHead(ps, rest); }
    assert Means(s, Exec(ss), Words(ArgsOf(ps)));
    WrapMeans(s, Exec(ss), Words(ArgsOf(ps)), r.reds + ds, RedsOf(ps));
  }

  /** A plain command does not begin with a parenthesis. */
  lemma PlainHead(ps: seq<Piece>, rest: seq<Tok>)
    requires Ends(rest)
    ensures !Heads(PiecesToks(ps) + rest, '(')
  {
    if ps == [] {
      assert PiecesToks(ps) + rest == rest;
    }
  }

  // ----- pipelines and sentences

  lemma {:induction false} BacksRead(s: Line, i: nat, n: nat, rest: seq<Tok>, c: Cmd, t: Tree)
    requires i <= |s| && Tokens(s, i) == Ands(n) + rest && !Heads(rest, '&') && Means(s, c, t)
    ensures var (d, k) := ParseBacks(s, i, c); Tokens(s, k) == rest && Means(s, d, Backs(t, n))
    decreases n
  {
    hide GetToken, SkipSpace, Ahead, Tokens;
    Peeks(s, i);
    SkippedSpace(s, i);
    var j := SkipSpace(s, i);
    Takes(s, j);
    if n == 0 {
      assert Ands(n) + rest == rest;
    } else {
      Joined([Sym('&')], Ands(n - 1), rest);
      assert Means(s, Back(c), Backed(t));
      BacksRead(s, GetToken(s, j).next, n - 1, rest, Back(c), Backed(t));
    }
  }

  lemma {:induction false} PartRead(s: Line, i: nat, p: Part, rest: seq<Tok>)
    requires i <= |s| && FinePart(p) && Tokens(s, i) == PartToks(p) + rest && Ends(rest)
    ensures Reads(s, ParseExec(s, i), PartTree(p), rest)
    decreases p
  {
    hide *;
    PartIs(p, rest);
    match p
    case Plain(ps) => PlainRead(s, i, ps, rest);
    case Block(l, rs) =>
      var ts := [Sym(')')] + (RedsToks(rs) + rest);
      var n := BlockOpened(s, i, Toks(l) + ts);
      assert Closes(ts) by { ParenCloses(ts); }
      SentenceRead(s, n, l, ts);
      BlockRead(s, i, n, TreeOf(l), rs, rest);
  }

  lemma ParenCloses(ts: seq<Tok>)
    requires ts != [] && ts[0] == Sym(')')
    ensures Closes(ts)
  {
  }

  lemma PartIs(p: Part, rest: seq<Tok>)
    ensures p.Plain? ==> PartToks(p) == PiecesToks(p.ps) && (FinePart(p) ==> |ArgsOf(p.ps)| < MAXARGS)
    ensures p.Block? ==>
              && PartToks(p) + rest == [Sym('(')] + (Toks(p.line) + ([Sym(')')] + (RedsToks(p.rs) + rest)))
              && PartToks(p) == [Sym('(')] + Toks(p.line) + [Sym(')')] + RedsToks(p.rs)
              && PartTree(p) == Around(TreeOf(p.line), p.rs) && (FinePart(p) ==> Fine(p.line))
  {
    hide Toks, RedsToks, TreeOf, Around, Fine, PiecesToks;
    if p.Block? {
      var l, r := Toks(p.line), RedsToks(p.rs);
      assert [Sym('(')] + l + [Sym(')')] + r + rest == [Sym('(')] + (l + ([Sym(')')] + (r + rest)));
    }
  }

  lemma BlockOpened(s: Line, i: nat, ts: seq<Tok>) returns (n: nat)
    requires i <= |s| && Tokens(s, i) == [Sym('(')] + ts
    ensures Ahead(s, SkipSpace(s, i), "(") && n == GetToken(s, SkipSpace(s, i)).next <= |s| && Tokens(s, n) == ts
  {
    hide GetToken, SkipSpace, Ahead, Tokens;
    Peeks(s, i);
    SkippedSpace(s, i);
    Takes(s, SkipSpace(s, i));
    n := GetToken(s, SkipSpace(s, i)).next;
  }

  lemma BlockRead(s: Line, i: nat, n: nat, t: Tree, rs: seq<Redirection>, rest: seq<Tok>)
    requires i <= |s| && Ahead(s, SkipSpace(s, i), "(") && n == GetToken(s, SkipSpace(s, i)).next <= |s|
    requires Reads(s, ParseLine(s, n), t, [Sym(')')] + (RedsToks(rs) + rest)) && Ends(rest)
    ensures Reads(s, ParseExec(s, i), Around(t, rs), rest)
  {
    hide GetToken, SkipSpace, Ahead, Tokens, ParseRedirs, ParseLine, Wrap, Around, Means, RedsToks, Ends;
    SkippedSpace(s, i);
    var r := ParseLine(s, n);
    BlockClosed(s, r.next, r.cmd, t, rs, rest);
  }

  /** Behind the line in parentheses. */
  lemma BlockClosed(s: Line, k: nat, c: Cmd, t: Tree, rs: seq<Redirection>, rest: seq<Tok>)
    requires k <= |s| && Tokens(s, k) == [Sym(')')] + (RedsToks(rs) + rest) && Ends(rest) && Means(s, c, t)
    ensures var n := SkipSpace(s, k);
            && Ahead(s, n, ")")
            && var r := ParseRedirs(s, GetToken(s, n).next);
               r.Reds? && Tokens(s, r.next) == rest && Means(s, Wrap(c, r.reds), Around(t, rs))
  {
    hide GetToken, SkipSpace, Ahead, Tokens, ParseRedirs;
    Peeks(s, k);
    SkippedSpace(s, k);
    var n := SkipSpace(s, k);
    Takes(s, n);
    RedirsRead(s, GetToken(s, n).next, rs, rest);
    WrapMeans(s, c, t, ParseRedirs(s, GetToken(s, n).next).reds, rs);
  }

  lemma {:induction false} PipeRead(s: Line, i: nat, pl: Pipeline, rest: seq<Tok>)
    requires i <= |s| && FinePipe(pl) && Tokens(s, i) == PipeToks(pl) + rest && Ends(rest) && !Heads(rest, '|')
    ensures Reads(s, ParsePipe(s, i), PipeTree(pl), rest)
    decreases pl
  {
    hide GetToken, SkipSpace, Ahead, Tokens, ParseExec, PartToks, PartTree;
    match pl
    case Single(p) =>
      PartRead(s, i, p, rest);
      var k := ParseExec(s, i).next;
      Peeks(s, k);
      SkippedSpace(s, k);
    case Piping(p, more) =>
      var ts := [Sym('|')] + (PipeToks(more) + rest);
      assert PipeToks(pl) + rest == PartToks(p) + ts;
      PartRead(s, i, p, ts);
      var k := ParseExec(s, i).next;
      Peeks(s, k);
      SkippedSpace(s, k);
      var j := SkipSpace(s, k);
      Takes(s, j);
      PipeRead(s, GetToken(s, j).next, more, rest);
  }

  lemma {:induction false} SentenceRead(s: Line, i: nat, x: Sentence, rest: seq<Tok>)
    requires i <= |s| && Fine(x) && Tokens(s, i) == Toks(x) + rest && Closes(rest)
    ensures Reads(s, ParseLine(s, i), TreeOf(x), rest)
    decreases x
  {
    hide GetToken, SkipSpace, Ahead, Tokens, ParsePipe, ParseBacks, PipeToks, PipeTree;
    match x
    case Last(pl, n) =>
      AndsHead(n, rest);
      Joined(PipeToks(pl), Ands(n), rest);
      PipeRead(s, i, pl, Ands(n) + rest);
      var r := ParsePipe(s, i);
      BacksRead(s, r.next, n, rest, r.cmd, PipeTree(pl));
      BacksSettle(s, r.next, r.cmd);
      Peeks(s, ParseBacks(s, r.next, r.cmd).1);
    case Then(pl, n, more) =>
      var ts := [Sym(';')] + (Toks(more) + rest);
      AndsHead(n, ts);
      assert Toks(x) + rest == PipeToks(pl) + (Ands(n) + ts);
      PipeRead(s, i, pl, Ands(n) + ts);
      var r := ParsePipe(s, i);
      BacksRead(s, r.next, n, ts, r.cmd, PipeTree(pl));
      BacksSettle(s, r.next, r.cmd);
      var j := ParseBacks(s, r.next, r.cmd).1;
      Peeks(s, j);
      Takes(s, j);
      SentenceRead(s, GetToken(s, j).next, more, rest);
  }

  lemma AndsHead(n: nat, rest: seq<Tok>)
    requires Ends(rest) && !Heads(rest, '|')
    ensures Ends(Ands(n) + rest) && !Heads(Ands(n) + rest, '|')
  {
    if n == 0 {
      assert Ands(n) + rest == rest;
    }
  }

  /** ParseBacks stops where no space is left to skip. */
  lemma {:induction false} BacksSettle(s: Line, i: nat, c: Cmd)
    requires i <= |s|
    ensures var k := ParseBacks(s, i, c).1; SkipSpace(s, k) == k
    decreases |s| - i
  {
    hide Ahead, GetToken, SkipSpace;
    SkippedSpace(s, i);
    var j := SkipSpace(s, i);
    Takes(s, j);
    Peeks(s, i);
    if Ahead(s, j, "&") {
      BacksSettle(s, GetToken(s, j).next, Back(c));
    }
  }

  // ----- and back: what was read is a sentence

  lemma {:induction false} RedirsWritten(s: Line, i: nat) returns (rs: seq<Redirection>)
    requires i <= |s| && ParseRedirs(s, i).Reds?
    ensures var r := ParseRedirs(s, i);
            FineReds(rs) && RedsSay(s, r.reds, rs) && Tokens(s, i) == RedsToks(rs) + Tokens(s, r.next)
    decreases |s| - i
  {
    hide GetToken, SkipSpace, Ahead, Tokens, WordSpan;
    Peeks(s, i);
    SkippedSpace(s, i);
    var j := SkipSpace(s, i);
    if !Ahead(s, j, "<>") {
      rs := [];
    } else {
      var t := GetToken(s, j);
      var u := GetToken(s, t.next);
      var first := RedirWritten(s, j);
      var more := RedirsWritten(s, u.next);
      rs := [first] + more;
      assert rs[1..] == more;
      RedsSayMore(s, Red(t.kind, Span(u.q, u.eq)), ParseRedirs(s, u.next).reds, rs);
      Joined(RedToks(first), RedsToks(more), Tokens(s, ParseRedirs(s, u.next).next));
    }
  }

  lemma RedirWritten(s: Line, j: nat) returns (r: Redirection)
    requires j <= |s| && HeadsRed(Tokens(s, j)) && GetToken(s, GetToken(s, j).next).kind == 'a'
    ensures var t := GetToken(s, j);
            var u := GetToken(s, t.next);
            && j < u.next && Tokens(s, j) == RedToks(r) + Tokens(s, u.next)
            && IsWord(r.file) && RedSays(s, Red(t.kind, Span(u.q, u.eq)), r)
  {
    hide GetToken, Tokens, WordSpan;
    Takes(s, j);
    var t := GetToken(s, j);
    Takes(s, t.next);
    var u := GetToken(s, t.next);
    var f := Tokens(s, t.next)[0].w;
    r := Redirection(if t.kind == '<' then Input else if t.kind == '>' then Output else Append, f);
    WordIsFine(s, Span(u.q, u.eq));
    assert Tokens(s, j) == [SymOf(r.way)] + ([Word(f)] + Tokens(s, u.next));
  }

  lemma WordIsFine(s: Line, p: Span)
    requires WordSpan(s, p)
    ensures IsWord(Text(s, p))
  {
  }

  predicate FinePieces(ps: seq<Piece>) { forall k :: 0 <= k < |ps| ==> FinePiece(ps[k]) }

  lemma {:induction false} TosFine(rs: seq<Redirection>)
    requires FineReds(rs)
    ensures FinePieces(Tos(rs))
  {
    if rs != [] {
      TosFine(rs[1..]);
    }
  }

  lemma {:induction false} ArgsWritten(s: Line, i: nat, argv: seq<Span>, reds: seq<Red>)
    returns (ps: seq<Piece>, ss: seq<Span>, ds: seq<Red>)
    requires i <= |s| && ParseArgs(s, i, argv, reds).Args? && |argv| < MAXARGS
    ensures var r := ParseArgs(s, i, argv, reds);
            r.argv == argv + ss && r.reds == reds + ds && Tokens(s, i) == PiecesToks(ps) + Tokens(s, r.next)
    ensures Spans(s, ss, ArgsOf(ps)) && RedsSay(s, ds, RedsOf(ps)) && FinePieces(ps)
    ensures |argv| + |ArgsOf(ps)| < MAXARGS
    decreases |s| - i
  {
    hide GetToken, SkipSpace, Ahead, Tokens, WordSpan, ParseRedirs, PiecesToks, RedsToks, ArgsOf, RedsOf, Tos, Spans, RedsSay, Text;
    Peeks(s, i);
    SkippedSpace(s, i);
    var j := SkipSpace(s, i);
    Takes(s, j);
    var t := GetToken(s, j);
    if Ahead(s, j, "|)&;") || t.kind == NUL {
      ps, ss, ds := [], [], [];
      EmptyPieces(Tokens(s, ParseArgs(s, i, argv, reds).next));
      EmptySays(s);
      Takes(s, t.next);
      EndToken(s, j);
    } else {
      var w, p := Tokens(s, j)[0].w, Span(t.q, t.eq);
      var rs := RedirsWritten(s, t.next);
      var r := ParseRedirs(s, t.next);
      var more, ss1, ds1 := ArgsWritten(s, r.next, argv + [p], reds + r.reds);
      ps, ss, ds := [Arg(w)] + Tos(rs) + more, [p] + ss1, r.reds + ds1;
      WordIsFine(s, p);
      TosFine(rs);
      PlainOne(w, rs, more);
      SpansMore(s, p, ss1, w, ArgsOf(more));
      RedsSayBoth(s, r.reds, ds1, rs, RedsOf(more));
      var rest := Tokens(s, ParseArgs(s, i, argv, reds).next);
      assert Tokens(s, i) == [Word(w)] + (RedsToks(rs) + (PiecesToks(more) + rest));
      Joined(RedsToks(rs), PiecesToks(more), rest);
      Joined([Word(w)], RedsToks(rs) + PiecesToks(more), rest);
    }
  }

  lemma EmptySays(s: Line)
    ensures Spans(s, [], []) && RedsSay(s, [], [])
  {
  }

  lemma EndToken(s: Line, i: nat)
    requires i <= |s|
    ensures GetToken(s, i).kind == NUL ==> Tokens(s, GetToken(s, i).next) == []
  {
  }

  /** r read these tokens from i on, and they mean t. */
  predicate Wrote(s: Line, i: nat, r: Result, t: Tree, ts: seq<Tok>)
    requires i <= |s|
  {
    r.Ok? && r.next <= |s| && Means(s, r.cmd, t) && Tokens(s, i) == ts + Tokens(s, r.next)
  }

  lemma PlainWritten(s: Line, i: nat) returns (p: Part)
    requires i <= |s| && ParseExec(s, i).Ok? && !Ahead(s, SkipSpace(s, i), "(")
    ensures FinePart(p) && Wrote(s, i, ParseExec(s, i), PartTree(p), PartToks(p))
  {
    hide GetToken, SkipSpace, Ahead, Tokens, WordSpan, ParseRedirs, ParseArgs, ParseBlock, Spans, RedsSay, Wrap, Around,
      RedsToks, PiecesToks, ArgsOf, RedsOf, Tos;
    SkippedSpace(s, i);
    var j := SkipSpace(s, i);
    var rs := RedirsWritten(s, j);
    var r := ParseRedirs(s, j);
    var ps, ss, ds := ArgsWritten(s, r.next, [], r.reds);
    var all := Tos(rs) + ps;
    p := Plain(all);
    assert [] + ss == ss;
    TosSay(rs);
    TosFine(rs);
    BothSay(Tos(rs), ps);
    assert [] + ArgsOf(ps) == ArgsOf(ps);
    RedsSayBoth(s, r.reds, ds, rs, RedsOf(ps));
    assert Means(s, Exec(ss), Words(ArgsOf(all)));
    WrapMeans(s, Exec(ss), Words(ArgsOf(all)), r.reds + ds, RedsOf(all));
    Joined(RedsToks(rs), PiecesToks(ps), Tokens(s, ParseExec(s, i).next));
  }

  lemma {:induction false} PartWritten(s: Line, i: nat) returns (p: Part)
    requires i <= |s| && ParseExec(s, i).Ok?
    ensures FinePart(p) && Wrote(s, i, ParseExec(s, i), PartTree(p), PartToks(p))
    decreases |s| - i, 1
  {
    hide *;
    if Ahead(s, SkipSpace(s, i), "(") {
      var n, k := OpensBlock(s, i);
      var l := SentenceWritten(s, n);
      var rs := ClosesBlock(s, i, n, k, TreeOf(l), Toks(l));
      p := Block(l, rs);
      PartIs(p, Tokens(s, ParseExec(s, i).next));
      PartFine(l, rs);
    } else {
      p := PlainWritten(s, i);
    }
  }

  lemma PartFine(l: Sentence, rs: seq<Redirection>)
    requires Fine(l) && FineReds(rs)
    ensures FinePart(Block(l, rs))
  {
  }

  lemma OpensBlock(s: Line, i: nat) returns (n: nat, k: nat)
    requires i <= |s| && ParseExec(s, i).Ok? && Ahead(s, SkipSpace(s, i), "(")
    ensures n == GetToken(s, SkipSpace(s, i)).next <= |s| && i < n && Tokens(s, i) == [Sym('(')] + Tokens(s, n)
    ensures ParseLine(s, n).Ok? && k == ParseLine(s, n).next
  {
    hide GetToken, SkipSpace, Ahead, Tokens, ParseRedirs, ParseLine;
    Peeks(s, i);
    SkippedSpace(s, i);
    Takes(s, SkipSpace(s, i));
    n := GetToken(s, SkipSpace(s, i)).next;
    k := ParseLine(s, n).next;
  }

  lemma ClosesBlock(s: Line, i: nat, n: nat, k: nat, t: Tree, ts: seq<Tok>) returns (rs: seq<Redirection>)
    requires i <= |s| && ParseExec(s, i).Ok? && Ahead(s, SkipSpace(s, i), "(") && n == GetToken(s, SkipSpace(s, i)).next
    requires Wrote(s, n, ParseLine(s, n), t, ts) && k == ParseLine(s, n).next && Tokens(s, i) == [Sym('(')] + Tokens(s, n)
    ensures FineReds(rs)
    ensures Wrote(s, i, ParseExec(s, i), Around(t, rs), [Sym('(')] + ts + [Sym(')')] + RedsToks(rs))
  {
    hide GetToken, SkipSpace, Ahead, Tokens, ParseRedirs, ParseLine, RedsToks, Around, Wrap, Means;
    SkippedSpace(s, i);
    Peeks(s, k);
    SkippedSpace(s, k);
    var m := SkipSpace(s, k);
    Takes(s, m);
    var e := GetToken(s, m).next;
    rs := RedirsWritten(s, e);
    var r := ParseRedirs(s, e);
    WrapMeans(s, ParseLine(s, n).cmd, t, r.reds, rs);
    var a, z := [Sym('(')], [Sym(')')];
    assert Tokens(s, k) == z + (RedsToks(rs) + Tokens(s, r.next));
    assert a + ts + z + RedsToks(rs) + Tokens(s, r.next) == a + (ts + (z + (RedsToks(rs) + Tokens(s, r.next))));
  }

  lemma {:induction false} PipeWritten(s: Line, i: nat) returns (pl: Pipeline)
    requires i <= |s| && ParsePipe(s, i).Ok?
    ensures FinePipe(pl) && Wrote(s, i, ParsePipe(s, i), PipeTree(pl), PipeToks(pl))
    decreases |s| - i, 2
  {
    hide GetToken, SkipSpace, Ahead, Tokens, ParseExec, PartToks, PartTree, FinePart;
    var p := PartWritten(s, i);
    var k := ParseExec(s, i).next;
    Peeks(s, k);
    SkippedSpace(s, k);
    var j := SkipSpace(s, k);
    if !Ahead(s, j, "|") {
      pl := Single(p);
    } else {
      Takes(s, j);
      var rest := PipeWritten(s, GetToken(s, j).next);
      pl := Piping(p, rest);
      var ts := Tokens(s, ParsePipe(s, i).next);
      assert Tokens(s, k) == [Sym('|')] + (PipeToks(rest) + ts);
      assert PartToks(p) + ([Sym('|')] + (PipeToks(rest) + ts)) == PartToks(p) + [Sym('|')] + PipeToks(rest) + ts;
    }
  }

  lemma {:induction false} BacksWritten(s: Line, i: nat, c: Cmd, t: Tree) returns (n: nat)
    requires i <= |s| && Means(s, c, t)
    ensures var (d, k) := ParseBacks(s, i, c); Means(s, d, Backs(t, n)) && Tokens(s, i) == Ands(n) + Tokens(s, k)
    decreases |s| - i
  {
    hide GetToken, SkipSpace, Ahead, Tokens;
    Peeks(s, i);
    SkippedSpace(s, i);
    var j := SkipSpace(s, i);
    if !Ahead(s, j, "&") {
      n := 0;
    } else {
      Takes(s, j);
      assert Means(s, Back(c), Backed(t));
      var m := BacksWritten(s, GetToken(s, j).next, Back(c), Backed(t));
      n := m + 1;
      Joined([Sym('&')], Ands(m), Tokens(s, ParseBacks(s, i, c).1));
    }
  }

  lemma {:induction false} SentenceWritten(s: Line, i: nat) returns (x: Sentence)
    requires i <= |s| && ParseLine(s, i).Ok?
    ensures Fine(x) && Wrote(s, i, ParseLine(s, i), TreeOf(x), Toks(x))
    decreases |s| - i, 3
  {
    hide GetToken, SkipSpace, Ahead, Tokens, ParsePipe, ParseBacks, PipeToks, PipeTree, FinePipe, Backs, Ands;
    var pl := PipeWritten(s, i);
    var r := ParsePipe(s, i);
    var n := BacksWritten(s, r.next, r.cmd, PipeTree(pl));
    BacksSettle(s, r.next, r.cmd);
    var j := ParseBacks(s, r.next, r.cmd).1;
    Peeks(s, j);
    if !Ahead(s, j, ";") {
      x := Last(pl, n);
      Joined(PipeToks(pl), Ands(n), Tokens(s, j));
    } else {
      Takes(s, j);
      var rest := SentenceWritten(s, GetToken(s, j).next);
      x := Then(pl, n, rest);
      var ts := Tokens(s, ParseLine(s, i).next);
      assert Tokens(s, j) == [Sym(';')] + (Toks(rest) + ts);
      assert PipeToks(pl) + (Ands(n) + ([Sym(';')] + (Toks(rest) + ts))) == PipeToks(pl) + Ands(n) + [Sym(';')] + Toks(rest) + ts;
    }
  }

  // ----- whole lines

  /** s is a spelling of the sentence x. */
  ghost predicate Says(s: string, x: Sentence) {
    Fine(x) && exists gaps :: GapsOk(gaps, Toks(x)) && s == Spaced(gaps, Toks(x))
  }

  lemma {:induction false} RedsGood(rs: seq<Redirection>)
    requires FineReds(rs)
    ensures AllGood(RedsToks(rs))
  {
    if rs != [] {
      RedsGood(rs[1..]);
    }
  }

  lemma {:induction false} PiecesGood(ps: seq<Piece>)
    requires FinePieces(ps)
    ensures AllGood(PiecesToks(ps))
  {
    if ps != [] {
      assert FinePiece(ps[0]);
      PiecesGood(ps[1..]);
    }
  }

  lemma {:induction false} AndsGood(n: nat)
    ensures AllGood(Ands(n))
  {
    if n > 0 {
      AndsGood(n - 1);
    }
  }

  lemma {:induction false} PartGood(p: Part)
    requires FinePart(p)
    ensures AllGood(PartToks(p))
    decreases p
  {
    match p
    case Plain(ps) =>
      assert FinePieces(ps);
      PiecesGood(ps);
    case Block(l, rs) =>
      SentenceGood(l);
      RedsGood(rs);
  }

  lemma {:induction false} PipeGood(pl: Pipeline)
    requires FinePipe(pl)
    ensures AllGood(PipeToks(pl))
    decreases pl
  {
    match pl
    case Single(p) => PartGood(p);
    case Piping(p, rest) =>
      PartGood(p);
      PipeGood(rest);
  }

  lemma {:induction false} SentenceGood(x: Sentence)
    requires Fine(x)
    ensures AllGood(Toks(x))
    decreases x
  {
    PipeGood(x.pl);
    AndsGood(x.backs);
    if x.Then? {
      SentenceGood(x.rest);
    }
  }

  /** A spelling of a sentence is read as that sentence. */
  lemma SentenceIsRead(s: Line, x: Sentence)
    requires Says(s, x)
    ensures ParseCmd(s).Command? && Means(s, ParseCmd(s).cmd, TreeOf(x))
  {
    hide ParseLine, Toks, Tokens, Means, TreeOf, SkipSpace, AllGood;
    var gaps :| GapsOk(gaps, Toks(x)) && s == Spaced(gaps, Toks(x));
    SentenceGood(x);
    assert s[0..] == s;
    SpelledIsRead(s, 0, gaps, Toks(x));
    assert Toks(x) + [] == Toks(x);
    SentenceRead(s, 0, x, []);
    Peeks(s, ParseLine(s, 0).next);
  }

  /** A line that parses is a spelling of a sentence, the one it was read as. */
  lemma ReadIsSentence(s: Line) returns (x: Sentence)
    requires ParseCmd(s).Command?
    ensures Says(s, x) && Means(s, ParseCmd(s).cmd, TreeOf(x))
  {
    hide ParseLine, Toks, Tokens, Means, TreeOf, SkipSpace, GapsOk, AllGood;
    x := SentenceWritten(s, 0);
    Peeks(s, ParseLine(s, 0).next);
    assert Toks(x) + [] == Toks(x);
    var gaps := ReadIsSpelled(s, 0);
    assert s[0..] == s;
  }

  /** The shell accepts exactly the lines that spell a sentence, and takes each for what it
      says. */
  lemma ParseReads(s: Line)
    ensures ParseCmd(s).Command? <==> exists x :: Says(s, x)
    ensures forall x :: Says(s, x) ==> ParseCmd(s).Command? && Means(s, ParseCmd(s).cmd, TreeOf(x))
  {
    hide ParseCmd, Says, Means;
    if ParseCmd(s).Command? {
      var x := ReadIsSentence(s);
    }
    forall x | Says(s, x)
      ensures ParseCmd(s).Command? && Means(s, ParseCmd(s).cmd, TreeOf(x))
    {
      SentenceIsRead(s, x);
    }
  }

  lemma {:induction false} MeansOnce(s: Line, c: Cmd, t: Tree, u: Tree)
    requires Means(s, c, t) && Means(s, c, u)
    ensures t == u
  {
    match c
    case Exec(argv) =>
    case Redir(d, f, mode, fd) => MeansOnce(s, d, t.t, u.t);
    case Pipe(l, r) =>
      MeansOnce(s, l, t.l, u.l);
      MeansOnce(s, r, t.r, u.r);
    case List(l, r) =>
      MeansOnce(s, l, t.l, u.l);
      MeansOnce(s, r, t.r, u.r);
    case Back(d) => MeansOnce(s, d, t.t, u.t);
  }

  /** No line can be taken two ways. */
  lemma Unambiguous(s: Line, x: Sentence, y: Sentence)
    requires Says(s, x) && Says(s, y)
    ensures TreeOf(x) == TreeOf(y)
  {
    hide Says, TreeOf, Means, ParseCmd;
    SentenceIsRead(s, x);
    SentenceIsRead(s, y);
    MeansOnce(s, ParseCmd(s).cmd, TreeOf(x), TreeOf(y));
  }
}
