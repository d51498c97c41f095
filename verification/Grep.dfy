/** grep's regular expression matcher, against what a pattern denotes. A string
    stands for the characters before its terminating NUL. */
module Grep {
  datatype Atom = Lit(c: char) | Dot
  datatype Item = One(a: Atom) | Star(a: Atom)

  /** A sequence of items, and whether a final '$' asks for the end of the text. */
  datatype Regex = Regex(items: seq<Item>, atEnd: bool)

  predicate Text(s: string) { '\0' !in s }

  /** What reading s[i] yields: only the string and its NUL may be read. */
  function At(s: string, i: nat): char
    requires i <= |s|
  {
    if i < |s| then s[i] else '\0'
  }

  function AtomOf(c: char): Atom { if c == '.' then Dot else Lit(c) }

  /** The grammar: c*, a final $, or a single character; everything else stands for itself. */
  function Parse(re: string): Regex {
    if re == "" then Regex([], false)
    else if |re| >= 2 && re[1] == '*' then
      var r := Parse(re[2..]);
      Regex([Star(AtomOf(re[0]))] + r.items, r.atEnd)
    else if re == "$" then Regex([], true)
    else
      var r := Parse(re[1..]);
      Regex([One(AtomOf(re[0]))] + r.items, r.atEnd)
  }

  predicate Fits(a: Atom, c: char) { a.Dot? || a.c == c }

  predicate AllFit(a: Atom, w: string) { forall i :: 0 <= i < |w| ==> Fits(a, w[i]) }

  /** w is in the language of the items. */
  ghost predicate Lang(items: seq<Item>, w: string) {
    if items == [] then w == ""
    else match items[0]
      case One(a) => |w| > 0 && Fits(a, w[0]) && Lang(items[1..], w[1..])
      case Star(a) => exists i :: 0 <= i <= |w| && AllFit(a, w[..i]) && Lang(items[1..], w[i..])
  }

  /** Some prefix of text, all of it if the end is asked for, is in the language. */
  ghost predicate Here(r: Regex, text: string) {
    exists k :: 0 <= k <= |text| && (r.atEnd ==> k == |text|) && Lang(r.items, text[..k])
  }

  /** What grep promises of a line. */
  ghost predicate Matches(re: string, text: string) {
    if |re| > 0 && re[0] == '^' then Here(Parse(re[1..]), text)
    else exists j :: 0 <= j <= |text| && Here(Parse(re), text[j..])
  }

  lemma HereOne(a: Atom, r: Regex, text: string)
    ensures Here(Regex([One(a)] + r.items, r.atEnd), text) <==> |text| > 0 && Fits(a, text[0]) && Here(r, text[1..])
  {
    var q := Regex([One(a)] + r.items, r.atEnd);
    assert q.items[1..] == r.items;
    if Here(q, text) {
      var k :| 0 <= k <= |text| && (q.atEnd ==> k == |text|) && Lang(q.items, text[..k]);
      assert text[..k][1..] == text[1..][..k - 1];
    }
    if |text| > 0 && Fits(a, text[0]) && Here(r, text[1..]) {
      var k :| 0 <= k <= |text| - 1 && (r.atEnd ==> k == |text| - 1) && Lang(r.items, text[1..][..k]);
      assert text[..k + 1][1..] == text[1..][..k];
      assert Lang(q.items, text[..k + 1]);
    }
  }

  ghost predicate After(a: Atom, r: Regex, text: string, i: nat)
    requires i <= |text|
  {
    AllFit(a, text[..i]) && Here(r, text[i..])
  }

  /** Some number of a, then r */
  ghost predicate Stars(a: Atom, r: Regex, text: string) { exists i :: 0 <= i <= |text| && After(a, r, text, i) }

  lemma HereEnd(text: string)
    ensures Here(Regex([], true), text) <==> text == ""
  {
    if text == "" { assert Lang([], text[..0]); }
  }

  lemma HereStar(a: Atom, r: Regex, text: string)
    ensures Here(Regex([Star(a)] + r.items, r.atEnd), text) <==> Stars(a, r, text)
  {
    var q := Regex([Star(a)] + r.items, r.atEnd);
    assert q.items[1..] == r.items;
    if Here(q, text) {
      var k :| 0 <= k <= |text| && (q.atEnd ==> k == |text|) && Lang(q.items, text[..k]);
      var i :| 0 <= i <= k && AllFit(a, text[..k][..i]) && Lang(r.items, text[..k][i..]);
      assert text[..k][..i] == text[..i] && text[..k][i..] == text[i..][..k - i];
      assert After(a, r, text, i);
    }
    if i :| 0 <= i <= |text| && After(a, r, text, i) {
      var k :| 0 <= k <= |text| - i && (r.atEnd ==> k == |text| - i) && Lang(r.items, text[i..][..k]);
      assert text[..i + k][..i] == text[..i] && text[..i + k][i..] == text[i..][..k];
      assert Lang(q.items, text[..i + k]);
    }
  }

  /** matchhere: does re match a prefix of the text? */
  method MatchHere(re: string, text: string) returns (b: bool)
    requires Text(re) && Text(text)
    ensures b <==> Here(Parse(re), text)
    decreases |re|, 0
  {
    if At(re, 0) == '\0' {
      assert Lang([], text[..0]);
      return true;
    }
    if At(re, 1) == '*' {
      HereStar(AtomOf(re[0]), Parse(re[2..]), text);
      b := MatchStar(At(re, 0), re[2..], text);
      return;
    }
    if At(re, 0) == '$' && At(re, 1) == '\0' {
      assert re == "$";
      HereEnd(text);
      return At(text, 0) == '\0';
    }
    HereOne(AtomOf(re[0]), Parse(re[1..]), text);
    if At(text, 0) != '\0' && (At(re, 0) == '.' || At(re, 0) == At(text, 0)) {
      b := MatchHere(re[1..], text[1..]);
      return;
    }
    return false;
  }

  /** matchstar: some number of c, then re */
  method MatchStar(c: char, re: string, text: string) returns (b: bool)
    requires Text(re) && Text(text) && c != '\0'
    ensures b <==> Stars(AtomOf(c), Parse(re), text)
    decreases |re|, 1
  {
    var j := 0;
    while true
      invariant 0 <= j <= |text| && AllFit(AtomOf(c), text[..j])
      invariant forall i :: 0 <= i < j ==> !After(AtomOf(c), Parse(re), text, i)
      decreases |text| - j
    {
      b := MatchHere(re, text[j..]);
      if b {
        assert After(AtomOf(c), Parse(re), text, j);
        return;
      }
      if !(At(text, j) != '\0' && (At(text, j) == c || c == '.')) { break; }
      j := j + 1;
      assert text[..j] == text[..j - 1] + [text[j - 1]];
    }
    forall i | 0 <= i <= |text| ensures !After(AtomOf(c), Parse(re), text, i) {
      if i > j { assert text[..i][j] == text[j]; }
    }
    return false;
  }

  /** match: does re match anywhere in the text, or at its start after '^'? */
  method Match(re: string, text: string) returns (b: bool)
    requires Text(re) && Text(text)
    ensures b <==> Matches(re, text)
  {
    if At(re, 0) == '^' {
      b := MatchHere(re[1..], text);
      return;
    }
    var j := 0;
    while true
      invariant 0 <= j <= |text|
      invariant forall i :: 0 <= i < j ==> !Here(Parse(re), text[i..])
      decreases |text| - j
    {
      b := MatchHere(re, text[j..]);
      if b { return; }
      if At(text, j) == '\0' { break; }
      j := j + 1;
    }
    return false;
  }
}
