/** The tokens of a line: exactly those it is spelled from, whatever spaces stand between
    them. */
module ShellTokens {
  import opened ShellGrammar

  /** The characters between words, and those that are tokens by themselves. */
  lemma Alphabet(c: char)
    ensures IsSpace(c) <==> c in " \t\r\n\U{0B}"
    ensures IsSymbol(c) <==> c in "<|>&;()"
    ensures WordChar(c) <==> c !in " \t\r\n\U{0B}" && c !in "<|>&;()" && c != '\0'
  {
  }

  datatype Tok = Word(w: string) | Sym(c: char)

  predicate IsWord(w: string) { w != [] && forall k :: 0 <= k < |w| ==> WordChar(w[k]) }

  /** A word, or one of the symbols; '+' stands for >>. */
  predicate Good(t: Tok) {
    match t
    case Word(w) => IsWord(w)
    case Sym(c) => IsSymbol(c) || c == '+'
  }

  predicate AllGood(toks: seq<Tok>) { forall k :: 0 <= k < |toks| ==> Good(toks[k]) }

  function Spell(t: Tok): (s: string) {
    match t
    case Word(w) => w
    case Sym(c) => if c == '+' then ">>" else [c]
  }

  /** Tokens with gaps around them. */
  function Spaced(gaps: seq<string>, toks: seq<Tok>): (s: string)
    requires |gaps| == |toks| + 1
  {
    if toks == [] then gaps[0] else gaps[0] + Spell(toks[0]) + Spaced(gaps[1..], toks[1..])
  }

  predicate Blank(g: string) { forall k :: 0 <= k < |g| ==> IsSpace(g[k]) }

  /** Two tokens that would run into each other without a space. */
  predicate Touching(a: Tok, b: Tok) {
    (a.Word? && b.Word?) || (a == Sym('>') && (b == Sym('>') || b == Sym('+')))
  }

  /** Any spaces anywhere, and at least one where tokens would run into each other. */
  predicate GapsOk(gaps: seq<string>, toks: seq<Tok>) {
    && |gaps| == |toks| + 1 && (forall k :: 0 <= k < |gaps| ==> Blank(gaps[k]))
    && forall k :: 0 < k < |toks| && Touching(toks[k - 1], toks[k]) ==> gaps[k] != []
  }

  // ----- what gettoken finds

  function TokenAt(s: Line, t: Token): (r: Tok)
    requires t.q <= t.eq <= |s|
  {
    if t.kind == 'a' then Word(s[t.q..t.eq]) else Sym(t.kind)
  }

  /** The tokens from i on. */
  function Tokens(s: Line, i: nat): (toks: seq<Tok>)
    requires i <= |s|
    decreases |s| - i
  {
    var t := GetToken(s, i);
    if t.kind == NUL then [] else [TokenAt(s, t)] + Tokens(s, t.next)
  }

  lemma TokensStep(s: Line, i: nat)
    requires i <= |s| && GetToken(s, i).kind != NUL
    ensures var t := GetToken(s, i); t.next > i && Tokens(s, i) == [TokenAt(s, t)] + Tokens(s, t.next)
  {
  }

  lemma SkippedSpace(s: Line, i: nat)
    requires i <= |s|
    ensures SkipSpace(s, SkipSpace(s, i)) == SkipSpace(s, i)
    ensures GetToken(s, SkipSpace(s, i)) == GetToken(s, i) && Tokens(s, SkipSpace(s, i)) == Tokens(s, i)
  {
  }

  lemma SkipsGap(s: Line, i: nat, e: nat)
    requires i <= e <= |s| && Blank(s[i..e]) && (e < |s| ==> !IsSpace(s[e]))
    ensures SkipSpace(s, i) == e
  {
    assert forall k :: i <= k < e ==> s[k] == s[i..e][k - i];
  }

  lemma SkipsWord(s: Line, i: nat, e: nat)
    requires i < e <= |s| && IsWord(s[i..e]) && (e < |s| ==> !WordChar(s[e]))
    ensures WordEnd(s, i) == e
  {
    assert forall k :: i <= k < e ==> s[k] == s[i..e][k - i];
  }

  lemma Split(s: string, i: nat, g: string, t: string, rest: string)
    requires i <= |s| && s[i..] == g + t + rest
    ensures |s| == i + |g| + |t| + |rest|
    ensures s[i..i + |g|] == g && s[i + |g|..i + |g| + |t|] == t && s[i + |g| + |t|..] == rest
  {
    var u := s[i..];
    assert |u| == |g| + |t| + |rest|;
    assert u[..|g|] == g && u[|g|..|g| + |t|] == t && u[|g| + |t|..] == rest;
  }

  /** The first token of a spelling, and where it ends. */
  lemma FirstSpelled(s: Line, i: nat, gaps: seq<string>, toks: seq<Tok>)
    requires i <= |s| && GapsOk(gaps, toks) && AllGood(toks) && toks != [] && s[i..] == Spaced(gaps, toks)
    ensures var q, e := i + |gaps[0]|, i + |gaps[0]| + |Spell(toks[0])|;
            && q < e <= |s| && s[q..e] == Spell(toks[0]) && s[e..] == Spaced(gaps[1..], toks[1..])
            && Blank(s[i..q])
  {
    assert Good(toks[0]) && Blank(gaps[0]);
    Split(s, i, gaps[0], Spell(toks[0]), Spaced(gaps[1..], toks[1..]));
  }

  /** What stands behind the first token: a space, the next token, or the end. */
  lemma Behind(s: Line, e: nat, gaps: seq<string>, toks: seq<Tok>)
    requires e < |s| && GapsOk(gaps, toks) && AllGood(toks) && s[e..] == Spaced(gaps, toks)
    ensures IsSpace(s[e]) || (gaps[0] == [] && toks != [] && s[e] == Spell(toks[0])[0])
  {
    assert s[e] == s[e..][0];
    if gaps[0] != [] {
      assert Blank(gaps[0]);
      assert s[e] == gaps[0][0];
    } else if toks != [] {
      assert Good(toks[0]);
    }
  }

  lemma TailOk(gaps: seq<string>, toks: seq<Tok>)
    requires GapsOk(gaps, toks) && AllGood(toks) && toks != []
    ensures |gaps| == |toks| + 1 && GapsOk(gaps[1..], toks[1..]) && AllGood(toks[1..])
    ensures Good(toks[0]) && (|toks| > 1 ==> Good(toks[1]))
    ensures |toks| > 1 && Touching(toks[0], toks[1]) ==> gaps[1] != []
  {
    forall k | 0 < k < |toks[1..]| && Touching(toks[1..][k - 1], toks[1..][k])
      ensures gaps[1..][k] != []
    {
      assert toks[1..][k - 1] == toks[k] && toks[1..][k] == toks[k + 1] && gaps[1..][k] == gaps[k + 1];
    }
  }

  lemma SpellFirst(tok: Tok)
    requires Good(tok)
    ensures var t := Spell(tok);
            t != [] && (if tok.Word? then WordChar(t[0]) else t[0] == if tok.c == '+' then '>' else tok.c)
  {
  }

  /** A token standing at q, behind spaces, that what follows does not lengthen. */
  lemma TokenHere(s: Line, i: nat, q: nat, e: nat, tok: Tok)
    requires i <= q < e <= |s| && Blank(s[i..q])
    requires Good(tok) && s[q..e] == Spell(tok)
    requires e < |s| && tok.Word? ==> !WordChar(s[e])
    requires e < |s| && tok == Sym('>') ==> s[e] != '>'
    ensures var t := GetToken(s, i);
            t.kind != NUL && t.q == q && t.eq == e && TokenAt(s, t) == tok && t.next == SkipSpace(s, e)
  {
    hide SkipSpace, WordEnd, Blank, IsWord;
    SpellFirst(tok);
    assert s[q] == s[q..e][0];
    SkipsGap(s, i, q);
    if tok.Word? {
      SkipsWord(s, q, e);
    } else {
      assert tok.c == '+' ==> s[q + 1] == s[q..e][1];
    }
  }

  lemma FirstToken(s: Line, i: nat, gaps: seq<string>, toks: seq<Tok>)
    requires i <= |s| && GapsOk(gaps, toks) && AllGood(toks) && toks != [] && s[i..] == Spaced(gaps, toks)
    ensures var e := i + |gaps[0]| + |Spell(toks[0])|;
            var t := GetToken(s, i);
            && e <= |s| && t.kind != NUL && TokenAt(s, t) == toks[0] && t.next == SkipSpace(s, e)
            && s[e..] == Spaced(gaps[1..], toks[1..])
  {
    hide Spaced, SkipSpace, WordEnd, GetToken, GapsOk, AllGood, Blank, Good, Spell, TokenAt;
    TailOk(gaps, toks);
    var q, e := i + |gaps[0]|, i + |gaps[0]| + |Spell(toks[0])|;
    FirstSpelled(s, i, gaps, toks);
    if e < |s| {
      Behind(s, e, gaps[1..], toks[1..]);
      if |toks| > 1 {
        SpellFirst(toks[1]);
      }
    }
    TokenHere(s, i, q, e, toks[0]);
  }

  lemma BlankIsRead(s: Line, i: nat, gaps: seq<string>)
    requires i <= |s| && GapsOk(gaps, []) && s[i..] == Spaced(gaps, [])
    ensures Tokens(s, i) == []
  {
    assert s[i..|s|] == s[i..];
    SkipsGap(s, i, |s|);
  }

  /** Reading what was spelled gives the tokens back. */
  lemma {:induction false} SpelledIsRead(s: Line, i: nat, gaps: seq<string>, toks: seq<Tok>)
    requires i <= |s| && GapsOk(gaps, toks) && AllGood(toks) && s[i..] == Spaced(gaps, toks)
    ensures Tokens(s, i) == toks
    decreases |toks|
  {
    hide *;
    if toks == [] {
      BlankIsRead(s, i, gaps);
    } else {
      TailOk(gaps, toks);
      var e := i + |gaps[0]| + |Spell(toks[0])|;
      FirstToken(s, i, gaps, toks);
      TokensStep(s, i);
      SpelledIsRead(s, e, gaps[1..], toks[1..]);
      SkippedSpace(s, e);
      assert toks == [toks[0]] + toks[1..];
    }
  }

  /** The text of a token that gettoken finds. */
  lemma TokenText(s: Line, i: nat)
    requires i <= |s|
    ensures var t := GetToken(s, i);
            t.kind != NUL ==> Good(TokenAt(s, t)) && s[t.q..t.eq] == Spell(TokenAt(s, t))
    ensures var t := GetToken(s, i); Blank(s[i..t.q]) && Blank(s[t.eq..t.next])
  {
    hide SkipSpace, WordEnd;
    var q := SkipSpace(s, i);
    if q < |s| {
      assert s[q] in s;
    }
  }

  /** Every line is spelled from its tokens. */
  lemma {:induction false} ReadIsSpelled(s: Line, i: nat) returns (gaps: seq<string>)
    requires i <= |s|
    ensures AllGood(Tokens(s, i)) && GapsOk(gaps, Tokens(s, i)) && s[i..] == Spaced(gaps, Tokens(s, i))
    decreases |s| - i
  {
    var t := GetToken(s, i);
    if t.kind == NUL {
      gaps := [s[i..]];
      assert s[i..t.q] == s[i..];
    } else {
      hide *;
      TokensStep(s, i);
      var more := ReadIsSpelled(s, t.next);
      gaps := OneMore(s, i, more);
    }
  }

  /** The spelling behind a token gives the spelling from it on. */
  lemma OneMore(s: Line, i: nat, more: seq<string>) returns (gaps: seq<string>)
    requires i <= |s| && GetToken(s, i).kind != NUL
    requires var toks := Tokens(s, GetToken(s, i).next);
             AllGood(toks) && GapsOk(more, toks) && s[GetToken(s, i).next..] == Spaced(more, toks)
    ensures var toks := [TokenAt(s, GetToken(s, i))] + Tokens(s, GetToken(s, i).next);
            AllGood(toks) && GapsOk(gaps, toks) && s[i..] == Spaced(gaps, toks)
  {
    hide GetToken, SkipSpace, Tokens, GapsOk, Blank, TokenAt, Spell, Good, Touching;
    var t := GetToken(s, i);
    var tok, toks := TokenAt(s, t), Tokens(s, t.next);
    TokenText(s, i);
    OkLength(more, toks);
    var g := s[t.eq..t.next] + more[0];
    gaps := [s[i..t.q], g] + more[1..];
    assert gaps[0] == s[i..t.q] && gaps[1..] == [g] + more[1..];
    assert ([tok] + toks)[1..] == toks;
    NeedsGap(s, i, more);
    Blanks(s[t.eq..t.next], more[0]);
    GapsMore(s[i..t.q], g, more, tok, toks);
    Regap(s[t.eq..t.next], more, toks);
    Pieces(s, i, t.q, t.eq, t.next);
  }

  lemma OkLength(gaps: seq<string>, toks: seq<Tok>)
    requires GapsOk(gaps, toks)
    ensures |gaps| == |toks| + 1 && Blank(gaps[0])
  {
  }

  lemma Blanks(g: string, h: string)
    requires Blank(g) && Blank(h)
    ensures Blank(g + h)
  {
  }

  lemma Pieces(s: string, i: nat, q: nat, e: nat, n: nat)
    requires i <= q <= e <= n <= |s|
    ensures s[i..] == s[i..q] + s[q..e] + s[e..] && s[e..] == s[e..n] + s[n..]
  {
  }

  /** A longer first gap is more text in front. */
  lemma Regap(h: string, more: seq<string>, toks: seq<Tok>)
    requires |more| == |toks| + 1
    ensures Spaced([h + more[0]] + more[1..], toks) == h + Spaced(more, toks)
  {
    var gaps := [h + more[0]] + more[1..];
    assert gaps[1..] == more[1..];
    if toks != [] {
      var t, rest := Spell(toks[0]), Spaced(more[1..], toks[1..]);
      assert h + more[0] + t + rest == h + (more[0] + t + rest);
    }
  }

  /** Tokens that would have run into each other stand apart. */
  lemma NeedsGap(s: Line, i: nat, more: seq<string>)
    requires i <= |s| && GetToken(s, i).kind != NUL
    requires var t := GetToken(s, i);
             var toks := Tokens(s, t.next);
             AllGood(toks) && GapsOk(more, toks) && s[t.next..] == Spaced(more, toks)
    ensures var t := GetToken(s, i);
            var toks := Tokens(s, t.next);
            toks != [] && Touching(TokenAt(s, t), toks[0]) ==> s[t.eq..t.next] + more[0] != []
  {
    hide SkipSpace, WordEnd;
    var t := GetToken(s, i);
    var toks := Tokens(s, t.next);
    if toks != [] && t.eq == t.next && more[0] == [] {
      assert Good(toks[0]);
      assert s[t.next] == s[t.next..][0] == Spell(toks[0])[0];
    }
  }

  lemma GapsMore(g0: string, g: string, more: seq<string>, tok: Tok, toks: seq<Tok>)
    requires GapsOk(more, toks) && Blank(g0) && Blank(g) && (toks != [] && Touching(tok, toks[0]) ==> g != [])
    ensures GapsOk([g0, g] + more[1..], [tok] + toks)
  {
    var gaps, all := [g0, g] + more[1..], [tok] + toks;
    forall k | 0 <= k < |gaps|
      ensures Blank(gaps[k])
    {
      assert k >= 2 ==> gaps[k] == more[k - 1];
    }
    forall k | 0 < k < |all| && Touching(all[k - 1], all[k])
      ensures gaps[k] != []
    {
      assert k >= 2 ==> gaps[k] == more[k - 1] && all[k - 1] == toks[k - 2] && all[k] == toks[k - 1];
    }
  }
}
