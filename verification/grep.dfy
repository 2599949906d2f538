/** The regular-expression matcher (user/grep.c).

    A pattern means a sequence of items, each one character or a starred one, with optional
    anchors; the language is the set of texts that can be cut into one part per item. */
module Grep {
  datatype Item = One(c: char) | Many(c: char)

  /** `tail` stands for a final '$'. */
  datatype Pattern = Pattern(items: seq<Item>, tail: bool)

  /** How the matcher reads a pattern, after any leading '^'. */
  function Parse(re: string): (p: Pattern)
    decreases |re|
  {
    if re == "" then Pattern([], false)
    else if |re| > 1 && re[1] == '*' then var p := Parse(re[2..]); Pattern([Many(re[0])] + p.items, p.tail)
    else if re == "$" then Pattern([], true)
    else var p := Parse(re[1..]); Pattern([One(re[0])] + p.items, p.tail)
  }

  predicate Fits(c: char, x: char) { c == '.' || c == x }

  /** The parts an item accepts. */
  predicate Word(i: Item, w: string) {
    match i
    case One(c) => |w| == 1 && Fits(c, w[0])
    case Many(c) => forall k :: 0 <= k < |w| ==> Fits(c, w[k])
  }

  function Flatten(parts: seq<string>): (w: string) { if parts == [] then "" else parts[0] + Flatten(parts[1..]) }

  ghost predicate Cut(items: seq<Item>, parts: seq<string>, w: string) {
    |parts| == |items| && Flatten(parts) == w && forall i :: 0 <= i < |items| ==> Word(items[i], parts[i])
  }

  ghost predicate InLanguage(items: seq<Item>, w: string) { exists parts :: Cut(items, parts, w) }

  /** Some span that begins text is in the language, and ends it if the pattern says so. */
  ghost predicate Here(p: Pattern, text: string) {
    exists k :: 0 <= k <= |text| && Span(p, text, k)
  }

  ghost predicate Span(p: Pattern, text: string, k: int)
    requires 0 <= k <= |text|
  {
    InLanguage(p.items, text[..k]) && (p.tail ==> k == |text|)
  }

  /** What grep means by a match. */
  ghost predicate Matches(re: string, text: string) {
    if re != "" && re[0] == '^' then Here(Parse(re[1..]), text)
    else exists i :: 0 <= i <= |text| && Here(Parse(re), text[i..])
  }

  // ---------------------------------------------------------------- the first item

  lemma CutFirst(items: seq<Item>, parts: seq<string>, w: string)
    requires Cut(items, parts, w) && items != []
    ensures |parts[0]| <= |w| && w[..|parts[0]|] == parts[0] && Cut(items[1..], parts[1..], w[|parts[0]|..])
  {
  }

  lemma CutMore(items: seq<Item>, j: nat, parts: seq<string>, w: string)
    requires items != [] && j <= |w| && Word(items[0], w[..j]) && Cut(items[1..], parts, w[j..])
    ensures Cut(items, [w[..j]] + parts, w)
  {
    var all := [w[..j]] + parts;
    assert all[1..] == parts;
    assert w[..j] + w[j..] == w;
    forall i | 0 <= i < |items| ensures Word(items[i], all[i]) {
      if i > 0 { assert items[i] == items[1..][i - 1]; }
    }
  }

  /** A match takes a part for the first item and goes on behind it. */
  ghost predicate Goes(p: Pattern, text: string, j: int) {
    p.items != [] && 0 <= j <= |text| && Word(p.items[0], text[..j]) && Here(Pattern(p.items[1..], p.tail), text[j..])
  }

  lemma HereGoes(p: Pattern, text: string)
    requires p.items != []
    ensures Here(p, text) <==> exists j :: Goes(p, text, j)
  {
    if Here(p, text) {
      var k :| 0 <= k <= |text| && Span(p, text, k);
      var parts :| Cut(p.items, parts, text[..k]);
      CutFirst(p.items, parts, text[..k]);
      var j := |parts[0]|;
      assert text[..k][..j] == text[..j] && text[..k][j..] == text[j..][..k - j];
      assert Span(Pattern(p.items[1..], p.tail), text[j..], k - j);
      assert Goes(p, text, j);
    }
    if j :| Goes(p, text, j) {
      var q := Pattern(p.items[1..], p.tail);
      var k :| 0 <= k <= |text[j..]| && Span(q, text[j..], k);
      var parts :| Cut(q.items, parts, text[j..][..k]);
      assert text[..j + k][..j] == text[..j] && text[..j + k][j..] == text[j..][..k];
      CutMore(p.items, j, parts, text[..j + k]);
      assert Span(p, text, j + k);
    }
  }

  lemma HereEmpty(p: Pattern, text: string)
    requires p.items == []
    ensures Here(p, text) <==> (p.tail ==> text == "")
  {
    assert Cut([], [], text[..0]);
    if !p.tail || text == "" { assert Span(p, text, 0); }
    if Here(p, text) {
      var k :| 0 <= k <= |text| && Span(p, text, k);
      var parts :| Cut([], parts, text[..k]);
    }
  }

  lemma HereOne(p: Pattern, text: string)
    requires p.items != [] && p.items[0].One?
    ensures Here(p, text) <==>
      text != "" && Fits(p.items[0].c, text[0]) && Here(Pattern(p.items[1..], p.tail), text[1..])
  {
    HereGoes(p, text);
    if text != "" && Fits(p.items[0].c, text[0]) && Here(Pattern(p.items[1..], p.tail), text[1..]) {
      assert Goes(p, text, 1);
    }
    if j :| Goes(p, text, j) { assert j == 1 && text[..1][0] == text[0]; }
  }

  // ---------------------------------------------------------------- the matcher

  method MatchHere(re: string, text: string) returns (ok: bool)
    ensures ok <==> Here(Parse(re), text)
    decreases |re|, 0
  {
    if re == "" {
      HereEmpty(Parse(re), text);
      return true;
    }
    if |re| > 1 && re[1] == '*' {
      ok := MatchStar(re[0], re[2..], text);
      return;
    }
    if re == "$" {
      HereEmpty(Parse(re), text);
      return text == "";
    }
    HereOne(Parse(re), text);
    var p := Parse(re[1..]);
    assert Parse(re).items[1..] == p.items;
    if text != "" && (re[0] == '.' || re[0] == text[0]) {
      ok := MatchHere(re[1..], text[1..]);
      return;
    }
    return false;
  }

  /** c* and then re. */
  method MatchStar(c: char, re: string, text: string) returns (ok: bool)
    ensures ok <==> Here(Pattern([Many(c)] + Parse(re).items, Parse(re).tail), text)
    decreases |re|, 1
  {
    var p := Parse(re);
    ghost var q := Pattern([Many(c)] + p.items, p.tail);
    assert q.items[1..] == p.items;
    HereGoes(q, text);
    var i := 0;
    while true
      invariant 0 <= i <= |text| && (forall k :: 0 <= k < i ==> Fits(c, text[k]))
      invariant forall j :: 0 <= j < i ==> !Goes(q, text, j)
      decreases |text| - i
    {
      ok := MatchHere(re, text[i..]);
      assert ok <==> Goes(q, text, i);
      if ok { return; }
      if !(i < |text| && (text[i] == c || c == '.')) { break; }
      i := i + 1;
    }
    forall j ensures !Goes(q, text, j) {
      if i < j <= |text| { assert text[..j][i] == text[i]; }
    }
    return false;
  }

  method Match(re: string, text: string) returns (ok: bool)
    ensures ok <==> Matches(re, text)
  {
    if re != "" && re[0] == '^' {
      ok := MatchHere(re[1..], text);
      return;
    }
    var i := 0;
    while true
      invariant 0 <= i <= |text| && forall j :: 0 <= j < i ==> !Here(Parse(re), text[j..])
      decreases |text| - i
    {
      ok := MatchHere(re, text[i..]);
      if ok { return; }
      if i == |text| { break; }
      i := i + 1;
    }
    return false;
  }
}
