/** The parser as the shell runs it: a cursor moved along the line by loops. */
module ShellParser {
  import opened ShellGrammar
  import opened ShellSentences

  /** The loop with which gettoken and peek pass over spaces. */
  method SkipSpaces(s: Line, i: nat) returns (j: nat)
    requires i <= |s|
    ensures j == SkipSpace(s, i)
  {
    j := i;
    while j < |s| && IsSpace(s[j])
      invariant i <= j <= |s| && SkipSpace(s, j) == SkipSpace(s, i)
    {
      j := j + 1;
    }
  }

  method NextToken(s: Line, i: nat) returns (t: Token)
    requires i <= |s|
    ensures t == GetToken(s, i)
  {
    var j := SkipSpaces(s, i);
    var q := j;
    if j == |s| {
      return Token(NUL, q, q, q);
    }
    var kind := s[j];
    if s[j] == '>' {
      j := j + 1;
      if j < |s| && s[j] == '>' {
        kind := '+';
        j := j + 1;
      }
    } else if IsSymbol(s[j]) {
      j := j + 1;
    } else {
      kind := 'a';
      while j < |s| && !IsSpace(s[j]) && !IsSymbol(s[j])
        invariant q <= j <= |s| && WordEnd(s, j) == WordEnd(s, q)
      {
        j := j + 1;
      }
    }
    var e := j;
    j := SkipSpaces(s, j);
    return Token(kind, q, e, j);
  }

  method Peek(s: Line, i: nat, toks: string) returns (j: nat, b: bool)
    requires i <= |s|
    ensures j == SkipSpace(s, i) && b == Ahead(s, j, toks)
  {
    j := SkipSpaces(s, i);
    b := j < |s| && s[j] in toks;
  }

  function Prepend(reds: seq<Red>, r: RedResult): (r': RedResult) {
    if r.Reds? then Reds(reds + r.reds, r.next) else r
  }

  /** parseredirs. */
  method Redirs(s: Line, i: nat) returns (r: RedResult)
    requires i <= |s|
    ensures r == ParseRedirs(s, i)
  {
    var reds, k := [], i;
    var j, more := Peek(s, k, "<>");
    while more
      invariant k <= |s| && j == SkipSpace(s, k) && more == Ahead(s, j, "<>")
      invariant Prepend(reds, ParseRedirs(s, k)) == ParseRedirs(s, i)
      decreases |s| - k
    {
      var t := NextToken(s, j);
      var u := NextToken(s, t.next);
      if u.kind != 'a' {
        return NoFile;
      }
      RedStep(s, reds, k);
      reds := reds + [Red(t.kind, Span(u.q, u.eq))];
      k := u.next;
      j, more := Peek(s, k, "<>");
    }
    r := Reds(reds, j);
  }

  lemma RedStep(s: Line, reds: seq<Red>, k: nat)
    requires k <= |s|
    ensures var j := SkipSpace(s, k);
            var t := GetToken(s, j);
            var u := GetToken(s, t.next);
            Ahead(s, j, "<>") && u.kind == 'a' ==>
              Prepend(reds + [Red(t.kind, Span(u.q, u.eq))], ParseRedirs(s, u.next)) == Prepend(reds, ParseRedirs(s, k))
  {
    var j := SkipSpace(s, k);
    var t := GetToken(s, j);
    var u := GetToken(s, t.next);
    var r := ParseRedirs(s, u.next);
    if Ahead(s, j, "<>") && u.kind == 'a' && r.Reds? {
      assert reds + [Red(t.kind, Span(u.q, u.eq))] + r.reds == reds + ([Red(t.kind, Span(u.q, u.eq))] + r.reds);
    }
  }

  /** The loop of parseexec, after the first redirections. */
  method ArgLoop(s: Line, i: nat, reds0: seq<Red>) returns (r: ArgResult)
    requires i <= |s|
    ensures r == ParseArgs(s, i, [], reds0)
  {
    var argv, reds, k := [], reds0, i;
    while true
      invariant k <= |s| && ParseArgs(s, k, argv, reds) == ParseArgs(s, i, [], reds0)
      decreases |s| - k
    {
      var j, end := Peek(s, k, "|)&;");
      if end {
        return Args(argv, reds, j);
      }
      var t := NextToken(s, j);
      if t.kind == NUL {
        return Args(argv, reds, t.next);
      }
      if t.kind != 'a' {
        return BadArgs(Syntax);
      }
      if |argv| + 1 >= MAXARGS {
        return BadArgs(TooManyArgs);
      }
      argv := argv + [Span(t.q, t.eq)];
      var more := Redirs(s, t.next);
      if more.NoFile? {
        return BadArgs(MissingFile);
      }
      reds := reds + more.reds;
      k := more.next;
    }
  }

  method ExecPart(s: Line, i: nat) returns (r: Result)
    requires i <= |s|
    ensures r == ParseExec(s, i)
    decreases |s| - i, 1
  {
    var j, block := Peek(s, i, "(");
    if block {
      r := BlockPart(s, j);
      return;
    }
    var first := Redirs(s, j);
    if first.NoFile? {
      return Panic(MissingFile);
    }
    var args := ArgLoop(s, first.next, first.reds);
    if args.BadArgs? {
      return Panic(args.why);
    }
    return Ok(Wrap(Exec(args.argv), args.reds), args.next);
  }

  method BlockPart(s: Line, i: nat) returns (r: Result)
    requires i <= |s|
    ensures r == ParseBlock(s, i)
    decreases |s| - i, 0
  {
    var j, open := Peek(s, i, "(");
    if !open {
      return Panic(NotABlock);
    }
    var t := NextToken(s, j);
    var inner := LinePart(s, t.next);
    if inner.Panic? {
      return inner;
    }
    var n, close := Peek(s, inner.next, ")");
    if !close {
      return Panic(MissingParen);
    }
    t := NextToken(s, n);
    var reds := Redirs(s, t.next);
    if reds.NoFile? {
      return Panic(MissingFile);
    }
    return Ok(Wrap(inner.cmd, reds.reds), reds.next);
  }

  method PipePart(s: Line, i: nat) returns (r: Result)
    requires i <= |s|
    ensures r == ParsePipe(s, i)
    decreases |s| - i, 2
  {
    var left := ExecPart(s, i);
    if left.Panic? {
      return left;
    }
    var j, bar := Peek(s, left.next, "|");
    if !bar {
      return Ok(left.cmd, j);
    }
    var t := NextToken(s, j);
    var right := PipePart(s, t.next);
    if right.Panic? {
      return right;
    }
    return Ok(Pipe(left.cmd, right.cmd), right.next);
  }

  /** The loop of parseline. */
  method Backs(s: Line, i: nat, c: Cmd) returns (cmd: Cmd, j: nat)
    requires i <= |s|
    ensures (cmd, j) == ParseBacks(s, i, c) && j <= |s| && j == SkipSpace(s, j)
  {
    var k, more := i, false;
    cmd := c;
    j, more := Peek(s, k, "&");
    while more
      invariant k <= |s| && j == SkipSpace(s, k) && more == Ahead(s, j, "&")
      invariant ParseBacks(s, k, cmd) == ParseBacks(s, i, c)
      decreases |s| - k
    {
      var t := NextToken(s, j);
      k := t.next;
      cmd := Back(cmd);
      j, more := Peek(s, k, "&");
    }
  }

  method LinePart(s: Line, i: nat) returns (r: Result)
    requires i <= |s|
    ensures r == ParseLine(s, i)
    decreases |s| - i, 3
  {
    var first := PipePart(s, i);
    if first.Panic? {
      return first;
    }
    var cmd, j := Backs(s, first.next, first.cmd);
    var more;
    j, more := Peek(s, j, ";");
    if !more {
      return Ok(cmd, j);
    }
    var t := NextToken(s, j);
    var rest := LinePart(s, t.next);
    if rest.Panic? {
      return rest;
    }
    return Ok(List(cmd, rest.cmd), rest.next);
  }

  /** parsecmd, before nulterminate: accepts exactly the lines that spell a sentence, and
      returns what the sentence says. */
  method Parse(s: Line) returns (r: Parsed)
    ensures r == ParseCmd(s)
    ensures r.Command? <==> exists x :: Says(s, x)
    ensures forall x :: Says(s, x) ==> r.Command? && Means(s, r.cmd, TreeOf(x))
  {
    hide Says, Means, TreeOf, ParseLine, SkipSpace;
    ParseReads(s);
    var line := LinePart(s, 0);
    if line.Panic? {
      return Error(line.why);
    }
    var j, b := Peek(s, line.next, "");
    return if j != |s| then Error(Syntax) else Command(line.cmd);
  }
}
