/** grep's regular expressions: what ^ . * $ mean, and the matcher. */
module Regex {
  /** One character, or any number of them; '.' stands for any character. */
  datatype Item = One(c: char) | Many(c: char)

  /** A pattern: items, possibly tied to the start or the end of the line. */
  datatype Pattern = Pattern(start: bool, items: seq<Item>, end: bool)

  predicate Fits(c: char, x: char) { c == '.' || c == x }

  predicate AllFit(c: char, w: seq<char>) { forall k :: 0 <= k < |w| ==> Fits(c, w[k]) }

  /** The words an item stands for. */
  predicate PieceOk(it: Item, w: seq<char>) {
    match it
    case One(c) => |w| == 1 && Fits(c, w[0])
    case Many(c) => AllFit(c, w)
  }

  function Flat(ws: seq<seq<char>>): (w: seq<char>) {
    if ws == [] then [] else ws[0] + Flat(ws[1..])
  }

  /** ws cuts w into one piece for each item. */
  predicate Cut(items: seq<Item>, w: seq<char>, ws: seq<seq<char>>) {
    |ws| == |items| && Flat(ws) == w && forall k :: 0 <= k < |items| ==> PieceOk(items[k], ws[k])
  }

  /** w is a word of the items, one after the other. */
  ghost predicate Word(items: seq<Item>, w: seq<char>) {
    exists ws: seq<seq<char>> :: Cut(items, w, ws)
  }

  /** Some stretch of the line is a word of the pattern. */
  ghost predicate Matches(p: Pattern, text: seq<char>) {
    exists i, j :: 0 <= i <= j <= |text| && Hit(p, text, i, j)
  }

  ghost predicate Hit(p: Pattern, text: seq<char>, i: nat, j: nat)
    requires i <= j <= |text|
  {
    (p.start ==> i == 0) && (p.end ==> j == |text|) && Word(p.items, text[i..j])
  }

  // ----- how a pattern is written

  function WriteItem(it: Item): (re: seq<char>) { if it.One? then [it.c] else [it.c, '*'] }

  function WriteItems(items: seq<Item>, end: bool): (re: seq<char>) {
    if items == [] then (if end then ['$'] else []) else WriteItem(items[0]) + WriteItems(items[1..], end)
  }

  /** c for a character, c* for any number of them, ^ in front of a pattern tied to the start
      of the line and $ behind one tied to its end. */
  function Write(p: Pattern): (re: seq<char>) {
    (if p.start then ['^'] else []) + WriteItems(p.items, p.end)
  }

  /** No character is followed by a *, and no last one is a $. */
  predicate ReadableItems(items: seq<Item>, end: bool) {
    && (forall k :: 0 <= k < |items| - 1 && items[k].One? ==> items[k + 1].c != '*')
    && (items != [] && items[|items| - 1] == One('$') ==> end)
  }

  /** And unless the pattern is tied to the start, it does not begin with a ^. */
  predicate Readable(p: Pattern) {
    ReadableItems(p.items, p.end) && (!p.start && p.items != [] ==> p.items[0].c != '^')
  }

  function ParseItems(re: seq<char>): (r: (seq<Item>, bool)) {
    if re == [] then ([], false)
    else if |re| >= 2 && re[1] == '*' then var (t, e) := ParseItems(re[2..]); ([Many(re[0])] + t, e)
    else if re == ['$'] then ([], true)
    else var (t, e) := ParseItems(re[1..]); ([One(re[0])] + t, e)
  }

  function Parse(re: seq<char>): (p: Pattern) {
    if re != [] && re[0] == '^' then var (t, e) := ParseItems(re[1..]); Pattern(true, t, e)
    else var (t, e) := ParseItems(re); Pattern(false, t, e)
  }

  lemma {:induction false} WritesItems(re: seq<char>)
    ensures WriteItems(ParseItems(re).0, ParseItems(re).1) == re
  {
    if re != [] {
      var (items, e) := ParseItems(re);
      if |re| >= 2 && re[1] == '*' {
        WritesItems(re[2..]);
        assert items[1..] == ParseItems(re[2..]).0;
        assert re == [re[0], '*'] + re[2..];
      } else if re != ['$'] {
        WritesItems(re[1..]);
        assert items[1..] == ParseItems(re[1..]).0;
        assert re == [re[0]] + re[1..];
      }
    }
  }

  /** The first item apart. */
  lemma ReadableTail(items: seq<Item>, end: bool)
    requires items != []
    ensures ReadableItems(items, end) <==>
            && ReadableItems(items[1..], end) && (items[0].One? && |items| > 1 ==> items[1].c != '*')
            && (items == [One('$')] ==> end)
  {
    var t := items[1..];
    assert forall k :: 0 <= k < |t| ==> t[k] == items[k + 1];
    if ReadableItems(t, end) && (items[0].One? && |items| > 1 ==> items[1].c != '*') && (items == [One('$')] ==> end) {
      forall k | 0 <= k < |items| - 1 && items[k].One?
        ensures items[k + 1].c != '*'
      {
        assert k > 0 ==> items[k] == t[k - 1] && items[k + 1] == t[k];
      }
      assert |items| == 1 ==> items == [items[0]];
    }
  }

  /** What stands first in the writing of some items. */
  lemma WritesFirst(items: seq<Item>, end: bool)
    ensures var re := WriteItems(items, end);
            if items != [] then re != [] && re[0] == items[0].c else re == if end then ['$'] else []
  {
  }

  lemma {:induction false} ReadsItems(items: seq<Item>, end: bool)
    ensures ParseItems(WriteItems(items, end)) == (items, end) <==> ReadableItems(items, end)
  {
    var re := WriteItems(items, end);
    if items != [] {
      var rest := WriteItems(items[1..], end);
      WritesFirst(items[1..], end);
      ReadableTail(items, end);
      ReadsItems(items[1..], end);
      assert items == [items[0]] + items[1..];
      if items[0].Many? {
        assert re[2..] == rest;
      } else {
        assert re[1..] == rest && (|re| >= 2 <==> rest != []) && (rest != [] ==> re[1] == rest[0]);
        assert re == ['$'] <==> items[0].c == '$' && rest == [];
      }
    }
  }

  /** Reading what was written gives the pattern back exactly when no character of it can be
      taken for something else. */
  lemma ParseInvertsWrite(p: Pattern)
    ensures Parse(Write(p)) == p <==> Readable(p)
  {
    var re := WriteItems(p.items, p.end);
    ReadsItems(p.items, p.end);
    WritesFirst(p.items, p.end);
    hide ParseItems, WriteItems, ReadableItems;
    if p.start {
      assert Write(p)[1..] == re;
    } else {
      assert Write(p) == re;
    }
  }

  /** Every string is the writing of a pattern, the one it is read as. */
  lemma WriteInvertsParse(re: seq<char>)
    ensures Write(Parse(re)) == re && Readable(Parse(re))
  {
    if re != [] && re[0] == '^' {
      WritesItems(re[1..]);
      assert re == ['^'] + re[1..];
    } else {
      WritesItems(re);
    }
    hide ParseItems, WriteItems;
    ParseInvertsWrite(Parse(re));
  }

  // ----- words, item by item

  lemma WordNil(w: seq<char>)
    ensures Word([], w) <==> w == []
  {
    if w == [] {
      assert Cut([], w, []);
    }
  }

  lemma WordOne(c: char, t: seq<Item>, w: seq<char>)
    ensures Word([One(c)] + t, w) <==> w != [] && Fits(c, w[0]) && Word(t, w[1..])
  {
    var items := [One(c)] + t;
    assert items[1..] == t;
    if Word(items, w) {
      var ws :| Cut(items, w, ws);
      TailCut(items, w, ws);
      assert PieceOk(items[0], ws[0]);
    }
    if w != [] && Fits(c, w[0]) && Word(t, w[1..]) {
      var ws :| Cut(t, w[1..], ws);
      HeadCut(One(c), t, [w[0]], w[1..], ws);
      assert w == [w[0]] + w[1..];
    }
  }

  lemma WordMany(c: char, t: seq<Item>, w: seq<char>)
    ensures Word([Many(c)] + t, w) <==> exists k :: 0 <= k <= |w| && AllFit(c, w[..k]) && Word(t, w[k..])
  {
    hide Word, AllFit;
    if Word([Many(c)] + t, w) {
      var k := ManyTaken(c, t, w);
    }
    if k :| 0 <= k <= |w| && AllFit(c, w[..k]) && Word(t, w[k..]) {
      ManyGiven(c, t, w, k);
    }
  }

  lemma ManyTaken(c: char, t: seq<Item>, w: seq<char>) returns (k: nat)
    requires Word([Many(c)] + t, w)
    ensures k <= |w| && AllFit(c, w[..k]) && Word(t, w[k..])
  {
    hide Flat, AllFit;
    var items := [Many(c)] + t;
    assert items[0] == Many(c) && items[1..] == t;
    var ws :| Cut(items, w, ws);
    TailCut(items, w, ws);
    k := |ws[0]|;
    assert PieceOk(items[0], ws[0]);
    assert w[..k] == ws[0];
  }

  lemma ManyGiven(c: char, t: seq<Item>, w: seq<char>, k: nat)
    requires k <= |w| && AllFit(c, w[..k]) && Word(t, w[k..])
    ensures Word([Many(c)] + t, w)
  {
    hide Flat, AllFit;
    var ws :| Cut(t, w[k..], ws);
    HeadCut(Many(c), t, w[..k], w[k..], ws);
    assert w == w[..k] + w[k..];
  }

  lemma TailCut(items: seq<Item>, w: seq<char>, ws: seq<seq<char>>)
    requires items != [] && Cut(items, w, ws)
    ensures ws != [] && |ws[0]| <= |w| && w == ws[0] + w[|ws[0]|..] && Cut(items[1..], w[|ws[0]|..], ws[1..])
  {
    assert w == ws[0] + Flat(ws[1..]);
    assert w[|ws[0]|..] == Flat(ws[1..]);
    forall k | 0 <= k < |items[1..]|
      ensures PieceOk(items[1..][k], ws[1..][k])
    {
      assert PieceOk(items[k + 1], ws[k + 1]);
    }
  }

  lemma HeadCut(it: Item, t: seq<Item>, u: seq<char>, w: seq<char>, ws: seq<seq<char>>)
    requires PieceOk(it, u) && Cut(t, w, ws)
    ensures Cut([it] + t, u + w, [u] + ws) && Word([it] + t, u + w)
  {
    var wss := [u] + ws;
    assert wss[1..] == ws;
    forall k | 0 <= k < |wss|
      ensures PieceOk(([it] + t)[k], wss[k])
    {
      if k > 0 {
        assert PieceOk(t[k - 1], ws[k - 1]);
      }
    }
  }

  /** A pattern tied to both ends is about the whole line. */
  lemma WholeLine(items: seq<Item>, text: seq<char>)
    ensures Matches(Pattern(true, items, true), text) <==> Word(items, text)
  {
    assert text[0..|text|] == text;
    if Word(items, text) {
      assert Hit(Pattern(true, items, true), text, 0, |text|);
    }
  }

  /** ^c$ matches the lines of one character, c or any if c is a dot; ^c*$ those of nothing
      but such characters. */
  lemma SingleItem(c: char, text: seq<char>)
    ensures Matches(Pattern(true, [One(c)], true), text) <==> |text| == 1 && (c == '.' || text[0] == c)
    ensures Matches(Pattern(true, [Many(c)], true), text) <==> forall k :: 0 <= k < |text| ==> c == '.' || text[k] == c
  {
    WholeLine([One(c)], text);
    WholeLine([Many(c)], text);
    hide Matches;
    assert [One(c)] + [] == [One(c)] && [Many(c)] + [] == [Many(c)];
    WordOne(c, [], text);
    if text != [] {
      WordNil(text[1..]);
    }
    WordMany(c, [], text);
    forall k | 0 <= k <= |text|
      ensures Word([], text[k..]) <==> k == |text|
    {
      WordNil(text[k..]);
    }
    assert text[..|text|] == text;
  }

  // ----- words at the beginning of a text

  /** Some beginning of text, or all of it if e, is a word. */
  ghost predicate Begins(t: seq<Item>, e: bool, text: seq<char>) {
    exists j :: 0 <= j <= |text| && (e ==> j == |text|) && Word(t, text[..j])
  }

  lemma BeginsNil(e: bool, text: seq<char>)
    ensures Begins([], e, text) <==> !e || text == []
  {
    if Begins([], e, text) {
      var j :| 0 <= j <= |text| && (e ==> j == |text|) && Word([], text[..j]);
      WordNil(text[..j]);
    }
    if !e || text == [] {
      WordNil(text[..0]);
      assert Word([], text[..0]);
    }
  }

  lemma BeginsOne(c: char, t: seq<Item>, e: bool, text: seq<char>)
    ensures Begins([One(c)] + t, e, text) <==> text != [] && Fits(c, text[0]) && Begins(t, e, text[1..])
  {
    if Begins([One(c)] + t, e, text) {
      var j :| 0 <= j <= |text| && (e ==> j == |text|) && Word([One(c)] + t, text[..j]);
      WordOne(c, t, text[..j]);
      assert text[..j][1..] == text[1..][..j - 1];
      assert Word(t, text[1..][..j - 1]);
    }
    if text != [] && Fits(c, text[0]) && Begins(t, e, text[1..]) {
      var j :| 0 <= j <= |text[1..]| && (e ==> j == |text[1..]|) && Word(t, text[1..][..j]);
      WordOne(c, t, text[..j + 1]);
      assert text[..j + 1][1..] == text[1..][..j];
      assert Word([One(c)] + t, text[..j + 1]);
    }
  }

  /** After some number of characters that fit c, the rest begins with t. */
  ghost predicate BeginsAfter(c: char, t: seq<Item>, e: bool, text: seq<char>, k: nat) {
    k <= |text| && AllFit(c, text[..k]) && Begins(t, e, text[k..])
  }

  ghost predicate Repeats(c: char, t: seq<Item>, e: bool, text: seq<char>) {
    exists k: nat :: BeginsAfter(c, t, e, text, k)
  }

  lemma BeginsMany(c: char, t: seq<Item>, e: bool, text: seq<char>)
    ensures Begins([Many(c)] + t, e, text) <==> Repeats(c, t, e, text)
  {
    if Begins([Many(c)] + t, e, text) {
      var j :| 0 <= j <= |text| && (e ==> j == |text|) && Word([Many(c)] + t, text[..j]);
      WordMany(c, t, text[..j]);
      var k :| 0 <= k <= |text[..j]| && AllFit(c, text[..j][..k]) && Word(t, text[..j][k..]);
      assert text[..j][..k] == text[..k] && text[..j][k..] == text[k..][..j - k];
      assert Word(t, text[k..][..j - k]);
      assert BeginsAfter(c, t, e, text, k);
    }
    if Repeats(c, t, e, text) {
      var k: nat :| BeginsAfter(c, t, e, text, k);
      var j :| 0 <= j <= |text[k..]| && (e ==> j == |text[k..]|) && Word(t, text[k..][..j]);
      assert text[..k + j][..k] == text[..k] && text[..k + j][k..] == text[k..][..j];
      WordMany(c, t, text[..k + j]);
      assert Word([Many(c)] + t, text[..k + j]);
    }
  }

  // ----- the matcher

  /** What matchhere is to decide. */
  ghost predicate Here(re: seq<char>, text: seq<char>) {
    Begins(ParseItems(re).0, ParseItems(re).1, text)
  }

  /** matchhere: whether the text begins with a word of the items that re is the writing of. */
  method MatchHere(re: seq<char>, text: seq<char>) returns (r: bool)
    ensures r <==> Here(re, text)
    ensures forall items, e :: ReadableItems(items, e) && WriteItems(items, e) == re ==> (r <==> Begins(items, e, text))
    decreases |re|, 0
  {
    forall items, e | ReadableItems(items, e) && WriteItems(items, e) == re
      ensures ParseItems(re) == (items, e)
    {
      ReadsItems(items, e);
    }
    if re == [] {
      BeginsNil(false, text);
      return true;
    }
    if |re| >= 2 && re[1] == '*' {
      ghost var t, e := ParseItems(re[2..]).0, ParseItems(re[2..]).1;
      assert ParseItems(re) == ([Many(re[0])] + t, e);
      BeginsMany(re[0], t, e, text);
      r := MatchStar(re[0], re[2..], text);
      return;
    }
    if re[0] == '$' && |re| == 1 {
      BeginsNil(true, text);
      return text == [];
    }
    ghost var t, e := ParseItems(re[1..]).0, ParseItems(re[1..]).1;
    assert ParseItems(re) == ([One(re[0])] + t, e);
    BeginsOne(re[0], t, e, text);
    if text != [] && (re[0] == '.' || re[0] == text[0]) {
      r := MatchHere(re[1..], text[1..]);
      return;
    }
    return false;
  }

  /** matchstar: its loop tries every number of repetitions, shortest first. */
  method MatchStar(c: char, re: seq<char>, text: seq<char>) returns (r: bool)
    ensures r <==> Repeats(c, ParseItems(re).0, ParseItems(re).1, text)
    decreases |re|, 1
  {
    var k := 0;
    while true
      invariant k <= |text| && AllFit(c, text[..k])
      invariant forall i: nat :: i < k ==> !BeginsAfter(c, ParseItems(re).0, ParseItems(re).1, text, i)
      decreases |text| - k
    {
      var here := MatchHere(re, text[k..]);
      if here {
        assert BeginsAfter(c, ParseItems(re).0, ParseItems(re).1, text, k);
        return true;
      }
      if k == |text| || !(text[k] == c || c == '.') {
        break;
      }
      k := k + 1;
    }
    forall i: nat
      ensures !BeginsAfter(c, ParseItems(re).0, ParseItems(re).1, text, i)
    {
      if i > k && i <= |text| {
        assert text[..i][k] == text[k];
      }
    }
    return false;
  }

  lemma HitIsHere(start: bool, re: seq<char>, text: seq<char>)
    ensures Matches(Pattern(start, ParseItems(re).0, ParseItems(re).1), text) <==>
            exists i :: 0 <= i <= |text| && (start ==> i == 0) && Here(re, text[i..])
  {
    var p := Pattern(start, ParseItems(re).0, ParseItems(re).1);
    if Matches(p, text) {
      var i, j :| 0 <= i <= j <= |text| && Hit(p, text, i, j);
      assert text[i..j] == text[i..][..j - i];
      assert Word(p.items, text[i..][..j - i]);
      assert Here(re, text[i..]);
    }
    if exists i :: 0 <= i <= |text| && (start ==> i == 0) && Here(re, text[i..]) {
      var i :| 0 <= i <= |text| && (start ==> i == 0) && Here(re, text[i..]);
      var j :| 0 <= j <= |text[i..]| && (p.end ==> j == |text[i..]|) && Word(p.items, text[i..][..j]);
      assert text[i..i + j] == text[i..][..j];
      assert Hit(p, text, i, i + j);
    }
  }

  /** match: true exactly when the pattern that re is the writing of matches the line. */
  method Match(re: seq<char>, text: seq<char>) returns (r: bool)
    ensures r <==> Matches(Parse(re), text)
    ensures Readable(Parse(re)) && Write(Parse(re)) == re
    ensures forall p :: Readable(p) && Write(p) == re ==> (r <==> Matches(p, text))
  {
    hide Matches, Readable, Write;
    WriteInvertsParse(re);
    forall p | Readable(p) && Write(p) == re
      ensures p == Parse(re)
    {
      ParseInvertsWrite(p);
    }
    if re != [] && re[0] == '^' {
      HitIsHere(true, re[1..], text);
      assert text[0..] == text;
      r := MatchHere(re[1..], text);
      return;
    }
    HitIsHere(false, re, text);
    var i := 0;
    while true
      invariant i <= |text| && forall k :: 0 <= k < i ==> !Here(re, text[k..])
      decreases |text| - i
    {
      r := MatchHere(re, text[i..]);
      if r {
        return;
      }
      if i == |text| {
        break;
      }
      i := i + 1;
    }
    return false;
  }
}

/** grep(): the lines of a file, through a buffer of 1024 bytes. */
module Grep {
  import opened Regex

  const BUFSIZE: nat := 1024
  const MAXLINE: nat := BUFSIZE - 1      // the longest line, with its newline
  const NUL: char := '\0'

  predicate Stops(c: char) { c == '\n' || c == NUL }

  /** Where strchr(s, '\n') stops looking: at the first newline, the first NUL, or the end. */
  function FirstStop(s: seq<char>): (i: nat)
    ensures i <= |s| && (forall k :: 0 <= k < i ==> !Stops(s[k])) && (i < |s| ==> Stops(s[i]))
  {
    if s == [] || Stops(s[0]) then 0 else 1 + FirstStop(s[1..])
  }

  /** A complete line at the front of s, short enough for the buffer. */
  predicate LineAhead(s: seq<char>) {
    var i := FirstStop(s);
    i < |s| && s[i] == '\n' && i < MAXLINE
  }

  /** What grep prints for a file: its lines in order, up to the first NUL or the first
      line too long for the buffer, those that match. */
  ghost function Printed(re: seq<char>, s: seq<char>): (out: seq<char>)
    decreases |s|
  {
    if !LineAhead(s) then []
    else
      var i := FirstStop(s);
      (if Matches(Parse(re), s[..i]) then s[..i + 1] else []) + Printed(re, s[i + 1..])
  }

  // ----- the same, line by line

  function FirstNewline(s: seq<char>): (i: nat)
    ensures i <= |s| && '\n' !in s[..i] && (i < |s| ==> s[i] == '\n')
  {
    if s == [] || s[0] == '\n' then 0
    else
      var i := 1 + FirstNewline(s[1..]);
      assert s[..i] == [s[0]] + s[1..][..i - 1];
      i
  }

  /** The newline-terminated lines of a file, whatever else is in them. */
  function Lines(s: seq<char>): (ls: seq<seq<char>>)
    decreases |s|
  {
    var i := FirstNewline(s);
    if i == |s| then [] else [s[..i]] + Lines(s[i + 1..])
  }

  ghost function Selected(re: seq<char>, ls: seq<seq<char>>): (out: seq<char>) {
    if ls == [] then []
    else (if Matches(Parse(re), ls[0]) then ls[0] + ['\n'] else []) + Selected(re, ls[1..])
  }

  /** A line that fits the buffer with its newline and reads as one C string. */
  predicate Ordinary(l: seq<char>) { |l| < MAXLINE && NUL !in l }

  predicate AllOrdinary(ls: seq<seq<char>>) { forall k :: 0 <= k < |ls| ==> Ordinary(ls[k]) }

  lemma FirstLine(s: seq<char>, i: nat)
    requires i == FirstNewline(s) < |s|
    ensures Lines(s) == [s[..i]] + Lines(s[i + 1..]) && s[i] == '\n'
    ensures LineAhead(s) <==> Ordinary(s[..i])
    ensures LineAhead(s) ==> FirstStop(s) == i
  {
    FirstIsAhead(s, i);
    hide FirstStop, LineAhead, Ordinary;
  }

  lemma FirstIsAhead(s: seq<char>, i: nat)
    requires i == FirstNewline(s) < |s|
    ensures LineAhead(s) <==> Ordinary(s[..i])
    ensures LineAhead(s) ==> FirstStop(s) == i
  {
    hide FirstNewline, FirstStop;
    var j := FirstStop(s);
    assert forall k :: 0 <= k < i ==> s[..i][k] == s[k];
    if NUL !in s[..i] {
      StopAt(s, i);
    } else {
      var k :| 0 <= k < i && s[..i][k] == NUL;
      assert s[k] == NUL && j <= k && s[..i][j] == s[j];
    }
  }

  lemma NoLines(re: seq<char>, s: seq<char>)
    requires FirstNewline(s) == |s|
    ensures Lines(s) == [] && Printed(re, s) == []
  {
    var i := FirstStop(s);
    assert i < |s| ==> s[..|s|][i] == s[i];
  }

  lemma PrintedStep(re: seq<char>, s: seq<char>, i: nat)
    requires LineAhead(s) && FirstStop(s) == i
    ensures Printed(re, s) == (if Matches(Parse(re), s[..i]) then s[..i] + ['\n'] else []) + Printed(re, s[i + 1..])
  {
    hide Matches, Parse, FirstStop;
    assert s[..i] + ['\n'] == s[..i + 1];
    var t := Printed(re, s[i + 1..]);
    assert Printed(re, s) == (if Matches(Parse(re), s[..i]) then s[..i + 1] else []) + t;
  }

  lemma PrintedStops(re: seq<char>, s: seq<char>)
    requires !LineAhead(s)
    ensures Printed(re, s) == []
  {
  }

  lemma SelectedNil(re: seq<char>)
    ensures Selected(re, []) == []
  {
  }

  lemma SelectedCons(re: seq<char>, l: seq<char>, ls: seq<seq<char>>)
    ensures Selected(re, [l] + ls) == (if Matches(Parse(re), l) then l + ['\n'] else []) + Selected(re, ls)
  {
    assert ([l] + ls)[1..] == ls;
  }

  lemma OrdinaryCons(l: seq<char>, ls: seq<seq<char>>)
    ensures AllOrdinary([l] + ls) <==> Ordinary(l) && AllOrdinary(ls)
  {
    if AllOrdinary([l] + ls) {
      assert ([l] + ls)[0] == l;
      forall k | 0 <= k < |ls|
        ensures Ordinary(ls[k])
      {
        assert ls[k] == ([l] + ls)[k + 1];
      }
    }
  }

  /** When every line is ordinary, grep prints exactly the matching ones. */
  lemma {:induction false} PrintsMatchingLines(re: seq<char>, s: seq<char>)
    requires AllOrdinary(Lines(s))
    ensures Printed(re, s) == Selected(re, Lines(s))
    decreases |s|
  {
    hide Printed, Selected, Lines, FirstStop, Matches, AllOrdinary, LineAhead, Ordinary;
    var i := FirstNewline(s);
    if i < |s| {
      var rest := s[i + 1..];
      FirstLine(s, i);
      OrdinaryCons(s[..i], Lines(rest));
      PrintsMatchingLines(re, rest);
      PrintedStep(re, s, i);
      SelectedCons(re, s[..i], Lines(rest));
    } else {
      NoLines(re, s);
      SelectedNil(re);
    }
  }

  /** The empty pattern matches every line. */
  lemma EmptyMatches(l: seq<char>)
    ensures Matches(Parse([]), l)
  {
    WordNil(l[0..0]);
    assert Hit(Parse([]), l, 0, 0);
  }

  /** When some line is not ordinary, it and all that follow are lost. */
  lemma {:induction false} LosesLines(s: seq<char>)
    requires !AllOrdinary(Lines(s))
    ensures |Printed([], s)| < |Selected([], Lines(s))|
    decreases |s|
  {
    hide Printed, Selected, Lines, FirstStop, Matches, AllOrdinary, LineAhead, Ordinary, Parse;
    var i := FirstNewline(s);
    if i < |s| {
      var rest := s[i + 1..];
      FirstLine(s, i);
      OrdinaryCons(s[..i], Lines(rest));
      EmptyMatches(s[..i]);
      SelectedCons([], s[..i], Lines(rest));
      if LineAhead(s) {
        LosesLines(rest);
        PrintedStep([], s, i);
      } else {
        PrintedStops([], s);
      }
    } else {
      NoLines([], s);
      NoneOrdinary();
    }
  }

  lemma NoneOrdinary()
    ensures AllOrdinary([])
  {
  }

  /** grep prints exactly the matching lines of a file, whatever the pattern, if and only if
      every line is shorter than MAXLINE and has no NUL in it. */
  lemma PrintsMatchingLinesIff(s: seq<char>)
    ensures (forall re :: Printed(re, s) == Selected(re, Lines(s))) <==> AllOrdinary(Lines(s))
  {
    if AllOrdinary(Lines(s)) {
      forall re
        ensures Printed(re, s) == Selected(re, Lines(s))
      {
        PrintsMatchingLines(re, s);
      }
    } else {
      LosesLines(s);
    }
  }

  // ----- prefixes

  lemma {:induction false} StopOfPrefix(s: seq<char>, m: nat)
    requires m <= |s|
    ensures FirstStop(s[..m]) < m ==> FirstStop(s) == FirstStop(s[..m])
    ensures FirstStop(s[..m]) == m ==> FirstStop(s) >= m
  {
    var i, j := FirstStop(s), FirstStop(s[..m]);
    assert j < m ==> s[..m][j] == s[j];
    assert forall k :: 0 <= k < j ==> s[..m][k] == s[k];
    assert i < m ==> s[..m][i] == s[i];
  }

  /** strchr(buf + p, '\n'), with buf[m] == 0: the newline's index, or -1. */
  method StrChr(buf: array<char>, p: nat, m: nat) returns (q: int)
    requires p <= m < buf.Length && buf[m] == NUL
    ensures var i := FirstStop(buf[p..m]);
            if i < m - p && buf[p..m][i] == '\n' then q == p + i else q == -1
  {
    q := p;
    while buf[q] != NUL
      invariant p <= q <= m && forall k :: p <= k < q ==> !Stops(buf[k])
      decreases m - q
    {
      if buf[q] == '\n' {
        assert buf[p..m][q - p] == buf[q];
        StopAt(buf[p..m], q - p);
        return;
      }
      q := q + 1;
    }
    StopAt(buf[p..m], q - p);
    q := -1;
  }

  lemma StopAt(s: seq<char>, i: nat)
    requires i <= |s| && (forall k :: 0 <= k < i ==> !Stops(s[k])) && (i < |s| ==> Stops(s[i]))
    ensures FirstStop(s) == i
  {
  }

  /** memmove(buf, buf + p, m). */
  method MoveDown(buf: array<char>, p: nat, m: nat)
    requires p + m <= buf.Length
    modifies buf
    ensures buf[..m] == old(buf[p..p + m])
  {
    var k := 0;
    while k < m
      invariant k <= m
      invariant forall i :: 0 <= i < k ==> buf[i] == old(buf[p + i])
      invariant forall i :: p + k <= i < buf.Length ==> buf[i] == old(buf[i])
    {
      buf[k] := buf[p + k];
      k := k + 1;
    }
  }

  /** read(fd, buf + m, cap): some of what is left of the file, at least a byte if there
      is one and there is room for it. */
  method ReadSome(buf: array<char>, m: nat, cap: nat, file: seq<char>, pos: nat, choice: nat) returns (n: nat)
    requires m + cap <= buf.Length && pos <= |file|
    modifies buf
    ensures n <= cap && pos + n <= |file| && (n == 0 <==> cap == 0 || pos == |file|)
    ensures buf[..m + n] == old(buf[..m]) + file[pos..pos + n]
  {
    var most := if cap <= |file| - pos then cap else |file| - pos;
    n := if most == 0 then 0 else 1 + choice % most;
    forall i | 0 <= i < n {
      buf[m + i] := file[pos + i];
    }
  }

  /** out has been printed, and rest is the part of the file still to be dealt with. */
  ghost predicate Remains(re: seq<char>, total: seq<char>, out: seq<char>, rest: seq<char>) {
    out + Printed(re, rest) == total
  }

  lemma NextLine(re: seq<char>, total: seq<char>, out: seq<char>, s: seq<char>, m: nat, i: nat, hit: bool)
    requires Remains(re, total, out, s) && m <= |s| && m <= MAXLINE && i == FirstStop(s[..m]) && i < m && s[i] == '\n'
    requires hit <==> Matches(Parse(re), s[..i])
    ensures Remains(re, total, if hit then out + s[..i + 1] else out, s[i + 1..])
  {
    StopOfPrefix(s, m);
    hide Matches;
    assert LineAhead(s) && FirstStop(s) == i;
    if hit {
      assert out + (s[..i + 1] + Printed(re, s[i + 1..])) == out + s[..i + 1] + Printed(re, s[i + 1..]);
    } else {
      assert [] + Printed(re, s[i + 1..]) == Printed(re, s[i + 1..]);
    }
  }

  /** A full buffer, or the end of the file, without a line: nothing more is to be printed. */
  lemma NoMore(re: seq<char>, total: seq<char>, out: seq<char>, s: seq<char>, m: nat)
    requires Remains(re, total, out, s) && m <= |s| && !LineAhead(s[..m]) && (m == MAXLINE || m == |s|)
    ensures out == total
  {
    StopOfPrefix(s, m);
    var i := FirstStop(s);
    assert FirstStop(s[..m]) < m ==> s[i] == s[..m][i];
    assert !LineAhead(s);
    assert out + [] == out;
  }

  lemma SameWindow(b: seq<char>, s: seq<char>, p: nat, q: nat, m: nat)
    requires p <= q < m <= |b| && m <= |s| && b[p..m] == s[p..m]
    ensures b[p..q] == s[p..q] && b[p..q + 1] == s[p..q + 1] && b[q + 1..m] == s[q + 1..m] && b[q] == s[q]
  {
    forall k: nat | p <= k < m
      ensures b[k] == s[k]
    {
      assert b[k] == b[p..m][k - p] && s[k] == s[p..m][k - p];
    }
  }

  lemma LineTaken(re: seq<char>, total: seq<char>, out: seq<char>, s: seq<char>, p: nat, q: nat, m: nat)
    requires p <= q < m <= |s| && m - p <= MAXLINE && q - p == FirstStop(s[p..m]) && s[q] == '\n'
    requires Remains(re, total, out, s[p..])
    ensures Remains(re, total, if Matches(Parse(re), s[p..q]) then out + s[p..q + 1] else out, s[q + 1..])
  {
    hide Remains, Matches, FirstStop;
    var r := s[p..];
    assert r[..m - p] == s[p..m] && r[..q - p] == s[p..q] && r[..q - p + 1] == s[p..q + 1] && r[q - p + 1..] == s[q + 1..];
    NextLine(re, total, out, r, m - p, q - p, Matches(Parse(re), s[p..q]));
  }

  /** One turn of the inner loop: the line from p to the newline at q. */
  method OneLine(re: seq<char>, buf: array<char>, p: nat, q: nat, m: nat, out: seq<char>) returns (out': seq<char>)
    requires p <= q < m <= buf.Length && buf[q] == '\n'
    modifies buf
    ensures buf[q + 1..m] == old(buf[q + 1..m]) && (m < buf.Length ==> buf[m] == old(buf[m]))
    ensures out' == if Matches(Parse(re), old(buf[p..q])) then out + old(buf[p..q + 1]) else out
  {
    hide Matches;
    buf[q] := NUL;
    assert buf[p..q] == old(buf[p..q]);
    var hit := Match(re, buf[p..q]);
    out' := out;
    if hit {
      buf[q] := '\n';
      assert buf[p..q + 1] == old(buf[p..q + 1]);
      out' := out' + buf[p..q + 1];
    }
  }

  /** The inner loop: every complete line in buf[..m]. */
  method ScanLines(re: seq<char>, buf: array<char>, m: nat, out0: seq<char>, ghost total: seq<char>, ghost s: seq<char>)
    returns (out: seq<char>, p: nat)
    requires buf.Length == BUFSIZE && m <= MAXLINE && buf[m] == NUL && m <= |s| && buf[..m] == s[..m]
    requires Remains(re, total, out0, s)
    modifies buf
    ensures p <= m && buf[p..m] == s[p..m] && Remains(re, total, out, s[p..]) && !LineAhead(s[p..m])
  {
    hide Remains, Matches, Printed, FirstStop, LineAhead;
    out, p := out0, 0;
    assert s[0..] == s;
    while true
      invariant p <= m && buf[m] == NUL && buf[p..m] == s[p..m] && Remains(re, total, out, s[p..])
      decreases m - p
    {
      var q := StrChr(buf, p, m);
      if q == -1 {
        NoLine(s[p..m]);
        break;
      }
      SameWindow(buf[..], s, p, q, m);
      LineTaken(re, total, out, s, p, q, m);
      assert buf[p..q] == s[p..q] && buf[p..q + 1] == s[p..q + 1] && buf[q + 1..m] == s[q + 1..m] && buf[q] == s[q];
      out := OneLine(re, buf, p, q, m, out);
      p := q + 1;
    }
  }

  lemma NoLine(s: seq<char>)
    requires var i := FirstStop(s); !(i < |s| && s[i] == '\n')
    ensures !LineAhead(s)
  {
  }

  /** grep: whatever sizes the reads come in, it prints what it is meant to print. */
  method Run(re: seq<char>, file: seq<char>, choices: nat -> nat) returns (out: seq<char>)
    ensures out == Printed(re, file)
  {
    hide Remains, Matches, Printed, LineAhead, FirstStop;
    var buf := new char[BUFSIZE](_ => NUL);
    ghost var total := Printed(re, file);
    ghost var rest := file;
    var m, pos, turn := 0, 0, 0;
    out := [];
    StartOut(re, file);
    while true
      invariant 0 <= m <= MAXLINE && m <= pos <= |file| && rest == file[pos - m..]
      invariant buf.Length == BUFSIZE && buf[..m] == rest[..m]
      invariant Remains(re, total, out, rest) && !LineAhead(rest[..m])
      decreases |file| - pos
    {
      var n := ReadSome(buf, m, BUFSIZE - m - 1, file, pos, choices(turn));
      if n == 0 {
        NoMore(re, total, out, rest, m);
        return;
      }
      assert rest[..m + n] == rest[..m] + file[pos..pos + n];
      ghost var start := pos - m;
      pos, turn := pos + n, turn + 1;
      out, m, rest := Turn(re, buf, m + n, out, total, rest);
      assert rest == file[start..][pos - start - m..] == file[pos - m..];
    }
  }

  /** What grep does after a read: it prints the lines in the buffer and keeps the rest. */
  method Turn(re: seq<char>, buf: array<char>, m0: nat, out0: seq<char>, ghost total: seq<char>, ghost s: seq<char>)
    returns (out: seq<char>, m: nat, ghost rest: seq<char>)
    requires buf.Length == BUFSIZE && m0 <= MAXLINE && m0 <= |s| && buf[..m0] == s[..m0] && Remains(re, total, out0, s)
    modifies buf
    ensures m <= m0 && rest == s[m0 - m..] && buf[..m] == rest[..m]
    ensures Remains(re, total, out, rest) && !LineAhead(rest[..m])
  {
    hide Remains, Matches, Printed, LineAhead, FirstStop;
    buf[m0] := NUL;
    assert buf[..m0] == s[..m0];
    var p;
    out, p := ScanLines(re, buf, m0, out0, total, s);
    rest := s[p..];
    m := m0 - p;
    assert rest[..m] == s[p..m0];
    MoveDown(buf, p, m);
  }

  lemma StartOut(re: seq<char>, file: seq<char>)
    ensures Remains(re, Printed(re, file), [], file) && !LineAhead(file[..0])
  {
    assert [] + Printed(re, file) == Printed(re, file);
  }
}
