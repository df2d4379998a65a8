/** The strings of a parsed command: every span is a word, and terminating them in place
    leaves each one readable. */
module ShellStrings {
  import opened ShellGrammar
  import opened ShellTokens
  import opened ShellSentences
  import opened ShellPrinter
  import ShellParser

  /** All the spans of a command are words, and no command has more than nine. */
  predicate Wordy(s: Line, c: Cmd) {
    match c
    case Exec(argv) => |argv| < MAXARGS && forall k :: 0 <= k < |argv| ==> WordSpan(s, argv[k])
    case Redir(d, f, _, _) => Wordy(s, d) && WordSpan(s, f)
    case Pipe(l, r) => Wordy(s, l) && Wordy(s, r)
    case List(l, r) => Wordy(s, l) && Wordy(s, r)
    case Back(d) => Wordy(s, d)
  }

  lemma {:induction false} MeansWordy(s: Line, c: Cmd, t: Tree)
    requires Means(s, c, t) && Proper(t)
    ensures Wordy(s, c)
  {
    match c
    case Exec(argv) =>
    case Redir(d, _, _, _) => MeansWordy(s, d, t.t);
    case Pipe(l, r) =>
      MeansWordy(s, l, t.l);
      MeansWordy(s, r, t.r);
    case List(l, r) =>
      MeansWordy(s, l, t.l);
      MeansWordy(s, r, t.r);
    case Back(d) => MeansWordy(s, d, t.t);
  }

  /** Whatever the line, a command that parses is made of words. */
  lemma ParsedIsWordy(s: Line)
    ensures ParseCmd(s).Command? ==> Wordy(s, ParseCmd(s).cmd)
  {
    hide ParseCmd, Wordy, Means, Fine, TreeOf;
    if ParseCmd(s).Command? {
      var x := ReadIsSentence(s);
      SentenceProper(x);
      MeansWordy(s, ParseCmd(s).cmd, TreeOf(x));
    }
  }

  // ----- nulterminate

  function SpanSet(ps: seq<Span>): (r: set<Span>) { set p | p in ps }

  function SpansOf(c: Cmd): (r: set<Span>) {
    match c
    case Exec(argv) => SpanSet(argv)
    case Redir(d, f, _, _) => SpansOf(d) + {f}
    case Pipe(l, r) => SpansOf(l) + SpansOf(r)
    case List(l, r) => SpansOf(l) + SpansOf(r)
    case Back(d) => SpansOf(d)
  }

  /** k is where some span ends. */
  ghost predicate EndsAt(ps: set<Span>, k: nat) { exists p :: p in ps && p.eq == k }

  lemma {:induction false} SpansAreWords(s: Line, c: Cmd)
    requires Wordy(s, c)
    ensures forall p :: p in SpansOf(c) ==> WordSpan(s, p)
  {
    match c
    case Exec(argv) =>
    case Redir(d, _, _, _) => SpansAreWords(s, d);
    case Pipe(l, r) =>
      SpansAreWords(s, l);
      SpansAreWords(s, r);
    case List(l, r) =>
      SpansAreWords(s, l);
      SpansAreWords(s, r);
    case Back(d) => SpansAreWords(s, d);
  }

  /** b is a with NULs where the spans end. */
  ghost predicate Terminated(a: seq<char>, b: seq<char>, ps: set<Span>) {
    |b| == |a| && forall k: nat :: k < |a| ==> b[k] == if EndsAt(ps, k) then NUL else a[k]
  }

  lemma TerminatedTwice(a: seq<char>, b: seq<char>, c: seq<char>, ps: set<Span>, qs: set<Span>)
    requires Terminated(a, b, ps) && Terminated(b, c, qs)
    ensures Terminated(a, c, ps + qs)
  {
    forall k: nat | k < |a|
      ensures c[k] == if EndsAt(ps + qs, k) then NUL else a[k]
    {
      assert EndsAt(ps + qs, k) <==> EndsAt(ps, k) || EndsAt(qs, k) by {
        if EndsAt(ps, k) {
          var p :| p in ps && p.eq == k;
          assert p in ps + qs;
        }
        if EndsAt(qs, k) {
          var p :| p in qs && p.eq == k;
          assert p in ps + qs;
        }
      }
    }
  }

  method TerminateOne(buf: array<char>, p: Span)
    requires p.eq < buf.Length
    modifies buf
    ensures Terminated(old(buf[..]), buf[..], {p})
  {
    buf[p.eq] := NUL;
    assert EndsAt({p}, p.eq);
  }

  /** nulterminate: writes a NUL where each string of the command ends, and nothing else. */
  method NulTerminate(buf: array<char>, c: Cmd)
    requires forall p :: p in SpansOf(c) ==> p.eq < buf.Length
    modifies buf
    ensures Terminated(old(buf[..]), buf[..], SpansOf(c))
    decreases c
  {
    match c
    case Exec(argv) => TerminateArgs(buf, argv);
    case Redir(d, f, _, _) =>
      assert f in SpansOf(c);
      NulTerminate(buf, d);
      ghost var b := buf[..];
      TerminateOne(buf, f);
      TerminatedTwice(old(buf[..]), b, buf[..], SpansOf(d), {f});
    case Pipe(l, r) =>
      NulTerminate(buf, l);
      ghost var b := buf[..];
      NulTerminate(buf, r);
      TerminatedTwice(old(buf[..]), b, buf[..], SpansOf(l), SpansOf(r));
    case List(l, r) =>
      NulTerminate(buf, l);
      ghost var b := buf[..];
      NulTerminate(buf, r);
      TerminatedTwice(old(buf[..]), b, buf[..], SpansOf(l), SpansOf(r));
    case Back(d) => NulTerminate(buf, d);
  }

  method TerminateArgs(buf: array<char>, argv: seq<Span>)
    requires forall p :: p in SpanSet(argv) ==> p.eq < buf.Length
    modifies buf
    ensures Terminated(old(buf[..]), buf[..], SpanSet(argv))
  {
    var i := 0;
    assert Terminated(buf[..], buf[..], SpanSet([])) by { NoSpansOf(buf[..]); }
    while i < |argv|
      invariant 0 <= i <= |argv| && Terminated(old(buf[..]), buf[..], SpanSet(argv[..i]))
    {
      ghost var b := buf[..];
      assert argv[i] in SpanSet(argv);
      TerminateOne(buf, argv[i]);
      TerminatedTwice(old(buf[..]), b, buf[..], SpanSet(argv[..i]), {argv[i]});
      assert SpanSet(argv[..i + 1]) == SpanSet(argv[..i]) + {argv[i]};
      i := i + 1;
    }
    assert argv[..|argv|] == argv;
  }

  lemma NoSpansOf(b: seq<char>)
    ensures Terminated(b, b, SpanSet([]))
  {
  }

  /** The C string at q in b is w. */
  predicate StringAt(b: seq<char>, q: nat, w: string) {
    q + |w| < |b| && b[q..q + |w|] == w && NUL !in w && b[q + |w|] == NUL
  }

  /** The NULs fall outside all words, so every string reads back as it was written. */
  lemma ReadsBack(s: Line, b: seq<char>, ps: set<Span>, p: Span)
    requires forall r :: r in ps ==> WordSpan(s, r)
    requires Terminated(s + [NUL], b, ps) && p in ps
    ensures WordSpan(s, p) && StringAt(b, p.q, Text(s, p))
  {
    var a := s + [NUL];
    assert EndsAt(ps, p.eq);
    forall k: nat | p.q <= k < p.eq
      ensures b[k] == s[k]
    {
      assert a[k] == s[k] && s[k] == s[p.q..p.eq][k - p.q];
    }
    assert b[p.q..p.eq] == s[p.q..p.eq];
    assert NUL !in Text(s, p) by { Subtext(s, p); }
  }

  lemma Subtext(s: Line, p: Span)
    requires WordSpan(s, p)
    ensures NUL !in Text(s, p)
  {
    forall k | 0 <= k < |Text(s, p)|
      ensures Text(s, p)[k] != NUL
    {
      assert Text(s, p)[k] == s[p.q + k] && s[p.q + k] in s;
    }
  }

  /** parsecmd, on the line in buf: when it succeeds, every argument and file name of the
      command can be read off the buffer as a C string, and is the word it was parsed as. */
  method Parsecmd(buf: array<char>, s: Line) returns (r: Parsed)
    requires buf[..] == s + [NUL]
    modifies buf
    ensures r.Command? <==> exists x :: Says(s, x)
    ensures forall x :: Says(s, x) ==> r.Command? && Means(s, r.cmd, TreeOf(x))
    ensures r.Error? ==> buf[..] == old(buf[..])
    ensures r.Command? ==> Wordy(s, r.cmd)
    ensures r.Command? ==> forall p :: p in SpansOf(r.cmd) ==> WordSpan(s, p) && StringAt(buf[..], p.q, Text(s, p))
  {
    hide ParseCmd, Wordy, SpansOf, Says, Means, TreeOf;
    r := ShellParser.Parse(s);
    if r.Command? {
      ParsedIsWordy(s);
      SpansAreWords(s, r.cmd);
      NulTerminate(buf, r.cmd);
      forall p | p in SpansOf(r.cmd)
        ensures WordSpan(s, p) && StringAt(buf[..], p.q, Text(s, p))
      {
        ReadsBack(s, buf[..], SpansOf(r.cmd), p);
      }
    }
  }
}
