/** The shell's tokens and its parser, as functions of the input line and a position. */
module ShellGrammar {
  const NUL: char := '\0'
  const MAXARGS: nat := 10

  /** A C string without its terminating NUL. */
  type Line = s: string | NUL !in s

  predicate IsSpace(c: char) { c == ' ' || c == '\t' || c == '\r' || c == '\n' || c == '\U{0B}' }
  predicate IsSymbol(c: char) { c == '<' || c == '|' || c == '>' || c == '&' || c == ';' || c == '(' || c == ')' }
  predicate WordChar(c: char) { !IsSpace(c) && !IsSymbol(c) && c != NUL }

  /** A part of the line, from q up to eq. */
  datatype Span = Span(q: nat, eq: nat)

  datatype Cmd =
    | Exec(argv: seq<Span>)
    | Redir(cmd: Cmd, file: Span, mode: nat, fd: nat)
    | Pipe(left: Cmd, right: Cmd)
    | List(left: Cmd, right: Cmd)
    | Back(cmd: Cmd)

  const O_RDONLY: nat := 0x000
  const O_WRONLY: nat := 0x001
  const O_CREATE: nat := 0x200
  const O_TRUNC: nat := 0x400

  // ----- tokens

  function SkipSpace(s: Line, i: nat): (j: nat)
    requires i <= |s|
    ensures i <= j <= |s| && (forall k :: i <= k < j ==> IsSpace(s[k])) && (j < |s| ==> !IsSpace(s[j]))
    decreases |s| - i
  {
    if i < |s| && IsSpace(s[i]) then SkipSpace(s, i + 1) else i
  }

  function WordEnd(s: Line, i: nat): (j: nat)
    requires i <= |s|
    ensures i <= j <= |s| && (forall k :: i <= k < j ==> WordChar(s[k])) && (j < |s| ==> !WordChar(s[j]))
    decreases |s| - i
  {
    if i < |s| && WordChar(s[i]) then WordEnd(s, i + 1) else i
  }

  /** 'a' for a word, '+' for >>, NUL at the end, else the symbol itself. */
  datatype Token = Token(kind: char, q: nat, eq: nat, next: nat)

  function GetToken(s: Line, i: nat): (t: Token)
    requires i <= |s|
    ensures i <= t.q <= t.eq <= t.next <= |s|
    ensures t.kind != NUL ==> t.q < t.eq
  {
    var q := SkipSpace(s, i);
    if q == |s| then Token(NUL, q, q, q)
    else if s[q] == '>' && q + 1 < |s| && s[q + 1] == '>' then Token('+', q, q + 2, SkipSpace(s, q + 2))
    else if IsSymbol(s[q]) then Token(s[q], q, q + 1, SkipSpace(s, q + 1))
    else
      var e := WordEnd(s, q);
      Token('a', q, e, SkipSpace(s, e))
  }

  /** peek: whether the next character is one of toks. */
  predicate Ahead(s: Line, j: nat, toks: seq<char>)
    requires j <= |s|
  {
    j < |s| && s[j] in toks
  }

  // ----- redirections

  datatype Red = Red(tok: char, file: Span)
  datatype RedResult = Reds(reds: seq<Red>, next: nat) | NoFile

  function ParseRedirs(s: Line, i: nat): (r: RedResult)
    requires i <= |s|
    ensures r.Reds? ==> i <= r.next <= |s|
    decreases |s| - i
  {
    var j := SkipSpace(s, i);
    if !Ahead(s, j, "<>") then Reds([], j)
    else
      var t := GetToken(s, j);
      var u := GetToken(s, t.next);
      if u.kind != 'a' then NoFile
      else match ParseRedirs(s, u.next)
           case NoFile => NoFile
           case Reds(rest, k) => Reds([Red(t.kind, Span(u.q, u.eq))] + rest, k)
  }

  function RedirOf(c: Cmd, r: Red): (d: Cmd) {
    if r.tok == '<' then Redir(c, r.file, O_RDONLY, 0)
    else if r.tok == '>' then Redir(c, r.file, O_WRONLY + O_CREATE + O_TRUNC, 1)
    else Redir(c, r.file, O_WRONLY + O_CREATE, 1)
  }

  /** Later redirections go around earlier ones. */
  function Wrap(c: Cmd, reds: seq<Red>): (d: Cmd)
    decreases |reds|
  {
    if reds == [] then c else Wrap(RedirOf(c, reds[0]), reds[1..])
  }

  // ----- commands

  datatype Result = Ok(cmd: Cmd, next: nat) | Panic(why: Why)
  datatype Why = MissingFile | Syntax | TooManyArgs | MissingParen | NotABlock

  datatype ArgResult = Args(argv: seq<Span>, reds: seq<Red>, next: nat) | BadArgs(why: Why)

  /** The loop of parseexec. */
  function ParseArgs(s: Line, i: nat, argv: seq<Span>, reds: seq<Red>): (r: ArgResult)
    requires i <= |s|
    ensures r.Args? ==> i <= r.next <= |s|
    decreases |s| - i
  {
    var j := SkipSpace(s, i);
    if Ahead(s, j, "|)&;") then Args(argv, reds, j)
    else
      var t := GetToken(s, j);
      if t.kind == NUL then Args(argv, reds, t.next)
      else if t.kind != 'a' then BadArgs(Syntax)
      else if |argv| + 1 >= MAXARGS then BadArgs(TooManyArgs)
      else match ParseRedirs(s, t.next)
           case NoFile => BadArgs(MissingFile)
           case Reds(r, k) => ParseArgs(s, k, argv + [Span(t.q, t.eq)], reds + r)
  }

  function ParseExec(s: Line, i: nat): (r: Result)
    requires i <= |s|
    ensures r.Ok? ==> i <= r.next <= |s|
    decreases |s| - i, 1
  {
    var j := SkipSpace(s, i);
    if Ahead(s, j, "(") then ParseBlock(s, j)
    else match ParseRedirs(s, j)
         case NoFile => Panic(MissingFile)
         case Reds(reds, k) =>
           match ParseArgs(s, k, [], reds)
           case BadArgs(why) => Panic(why)
           case Args(argv, all, n) => Ok(Wrap(Exec(argv), all), n)
  }

  function ParseBlock(s: Line, i: nat): (r: Result)
    requires i <= |s|
    ensures r.Ok? ==> i <= r.next <= |s|
    decreases |s| - i, 0
  {
    var j := SkipSpace(s, i);
    if !Ahead(s, j, "(") then Panic(NotABlock)
    else match ParseLine(s, GetToken(s, j).next)
         case Panic(why) => Panic(why)
         case Ok(c, k) =>
           var n := SkipSpace(s, k);
           if !Ahead(s, n, ")") then Panic(MissingParen)
           else match ParseRedirs(s, GetToken(s, n).next)
                case NoFile => Panic(MissingFile)
                case Reds(reds, m) => Ok(Wrap(c, reds), m)
  }

  function ParsePipe(s: Line, i: nat): (r: Result)
    requires i <= |s|
    ensures r.Ok? ==> i <= r.next <= |s|
    decreases |s| - i, 2
  {
    match ParseExec(s, i)
    case Panic(why) => Panic(why)
    case Ok(c, k) =>
      var j := SkipSpace(s, k);
      if !Ahead(s, j, "|") then Ok(c, j)
      else match ParsePipe(s, GetToken(s, j).next)
           case Panic(why) => Panic(why)
           case Ok(d, n) => Ok(Pipe(c, d), n)
  }

  /** The loop of parseline. */
  function ParseBacks(s: Line, i: nat, c: Cmd): (r: (Cmd, nat))
    requires i <= |s|
    ensures i <= r.1 <= |s|
    decreases |s| - i
  {
    var j := SkipSpace(s, i);
    if Ahead(s, j, "&") then ParseBacks(s, GetToken(s, j).next, Back(c)) else (c, j)
  }

  function ParseLine(s: Line, i: nat): (r: Result)
    requires i <= |s|
    ensures r.Ok? ==> i <= r.next <= |s|
    decreases |s| - i, 3
  {
    match ParsePipe(s, i)
    case Panic(why) => Panic(why)
    case Ok(c, k) =>
      var (d, j) := ParseBacks(s, k, c);
      if !Ahead(s, j, ";") then Ok(d, j)
      else match ParseLine(s, GetToken(s, j).next)
           case Panic(why) => Panic(why)
           case Ok(e, n) => Ok(List(d, e), n)
  }

  datatype Parsed = Command(cmd: Cmd) | Error(why: Why)

  function ParseCmd(s: Line): (r: Parsed) {
    match ParseLine(s, 0)
    case Panic(why) => Error(why)
    case Ok(c, k) => if SkipSpace(s, k) != |s| then Error(Syntax) else Command(c)
  }
}
