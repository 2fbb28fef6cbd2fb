// The regular expressions of user/grep.c.
module Grep {
  // A pattern as a sequence of items: c or '.', c* and a final '$'.
  datatype Item = One(c: char) | Star(c: char) | End

  function Parse(re: string): seq<Item> {
    if re == "" then []
    else if |re| > 1 && re[1] == '*' then [Star(re[0])] + Parse(re[2..])
    else if re == "$" then [End]
    else [One(re[0])] + Parse(re[1..])
  }

  predicate Fits(c: char, x: char) { c == '.' || c == x }

  predicate AllFit(c: char, w: string) { forall i :: 0 <= i < |w| ==> Fits(c, w[i]) }

  // The denotation of a pattern: it matches w when `rest` follows.
  ghost predicate Denotes(p: seq<Item>, w: string, rest: string) {
    if p == [] then w == ""
    else match p[0]
      case One(c) => w != "" && Fits(c, w[0]) && Denotes(p[1..], w[1..], rest)
      case Star(c) => exists k :: 0 <= k <= |w| && AllFit(c, w[..k]) && Denotes(p[1..], w[k..], rest)
      case End => w == "" && rest == "" && Denotes(p[1..], w, rest)
  }

  // Some prefix of text is in the denotation.
  ghost predicate Here(p: seq<Item>, text: string) {
    exists j :: 0 <= j <= |text| && Denotes(p, text[..j], text[j..])
  }

  // What match promises: a prefix of some suffix of the text, of the text itself after
  // a leading '^'.
  ghost predicate Matches(re: string, text: string) {
    if re != "" && re[0] == '^' then Here(Parse(re[1..]), text)
    else exists i :: 0 <= i <= |text| && Here(Parse(re), text[i..])
  }

  // ----- patterns as text

  function Show(p: seq<Item>): string {
    if p == [] then ""
    else (match p[0] case One(c) => [c] case Star(c) => [c, '*'] case End => "$") + Show(p[1..])
  }

  // Patterns that can be written down: $ stands for the end only in the last place, and a
  // character that a * follows is a repetition.
  predicate Showable(p: seq<Item>) {
    p != [] ==>
      && Showable(p[1..])
      && (p[0].End? ==> |p| == 1)
      && (p[0] == One('$') ==> |p| > 1)
      && (p[0].One? && |p| > 1 ==> p[1] != One('*') && p[1] != Star('*'))
  }

  // A pattern is read as what was written.
  lemma {:induction false} PatternRoundTrip(p: seq<Item>)
    requires Showable(p)
    ensures Parse(Show(p)) == p
    decreases |p|
  {
    if p != [] {
      PatternRoundTrip(p[1..]);
      var s, rest := Show(p), Show(p[1..]);
      assert p == [p[0]] + p[1..];
      match p[0]
      case Star(c) =>
        assert s[2..] == rest;
      case End =>
        assert p[1..] == [] && s == "$";
      case One(c) =>
        assert s[1..] == rest;
        if |p| > 1 {
          assert rest[0] == s[1] && rest[0] != '*';
        }
    }
  }

  lemma HereNothing(text: string)
    ensures Here([], text)
  {
    assert Denotes([], text[..0], text[0..]);
  }

  lemma HereOne(c: char, p: seq<Item>, text: string)
    ensures Here([One(c)] + p, text) <==> text != "" && Fits(c, text[0]) && Here(p, text[1..])
  {
    var q := [One(c)] + p;
    assert q[1..] == p;
    if Here(q, text) {
      var j :| 0 <= j <= |text| && Denotes(q, text[..j], text[j..]);
      assert text[..j][1..] == text[1..][..j - 1] && text[j..] == text[1..][j - 1..];
    }
    if text != "" && Fits(c, text[0]) && Here(p, text[1..]) {
      var j :| 0 <= j <= |text| - 1 && Denotes(p, text[1..][..j], text[1..][j..]);
      assert text[..j + 1][1..] == text[1..][..j] && text[j + 1..] == text[1..][j..];
      assert Denotes(q, text[..j + 1], text[j + 1..]);
    }
  }

  lemma HereEnd(text: string)
    ensures Here([End], text) <==> text == ""
  {
    if text == "" {
      assert Denotes([End], text[..0], text[0..]);
    }
  }

  ghost predicate StarAt(c: char, p: seq<Item>, text: string, k: nat) {
    k <= |text| && AllFit(c, text[..k]) && Here(p, text[k..])
  }

  ghost predicate StarHere(c: char, p: seq<Item>, text: string) { exists k: nat :: StarAt(c, p, text, k) }

  lemma HereStar(c: char, p: seq<Item>, text: string)
    ensures Here([Star(c)] + p, text) <==> StarHere(c, p, text)
  {
    var q := [Star(c)] + p;
    assert q[1..] == p;
    if Here(q, text) {
      var j :| 0 <= j <= |text| && Denotes(q, text[..j], text[j..]);
      var w := text[..j];
      var k :| 0 <= k <= |w| && AllFit(c, w[..k]) && Denotes(p, w[k..], text[j..]);
      assert w[..k] == text[..k] && w[k..] == text[k..][..j - k] && text[j..] == text[k..][j - k..];
      assert StarAt(c, p, text, k);
    }
    if k: nat :| StarAt(c, p, text, k) {
      var j :| 0 <= j <= |text| - k && Denotes(p, text[k..][..j], text[k..][j..]);
      var w := text[..k + j];
      assert w[..k] == text[..k] && w[k..] == text[k..][..j] && text[k + j..] == text[k..][j..];
      assert Denotes(q, w, text[k + j..]);
    }
  }

  // match
  method Match(re: string, text: string) returns (b: bool)
    ensures b <==> Matches(re, text)
  {
    if re != "" && re[0] == '^' {
      b := MatchHere(re[1..], text);
      return;
    }
    var i := 0;
    while true
      invariant 0 <= i <= |text| && forall k :: 0 <= k < i ==> !Here(Parse(re), text[k..])
      decreases |text| - i
    {
      b := MatchHere(re, text[i..]);
      if b {
        return true;
      }
      if i == |text| {
        break;
      }
      i := i + 1;
    }
    b := false;
  }

  // matchhere
  method MatchHere(re: string, text: string) returns (b: bool)
    ensures b <==> Here(Parse(re), text)
    decreases |re|, 0
  {
    if re == "" {
      HereNothing(text);
      return true;
    }
    if |re| > 1 && re[1] == '*' {
      HereStar(re[0], Parse(re[2..]), text);
      b := MatchStar(re[0], re[2..], text);
      return;
    }
    if re == "$" {
      HereEnd(text);
      assert Parse(re) == [End];
      return text == "";
    }
    HereOne(re[0], Parse(re[1..]), text);
    if text != "" && (re[0] == '.' || re[0] == text[0]) {
      b := MatchHere(re[1..], text[1..]);
      return;
    }
    b := false;
  }

  // matchstar
  method MatchStar(c: char, re: string, text: string) returns (b: bool)
    ensures b <==> StarHere(c, Parse(re), text)
    decreases |re|, 1
  {
    var i := 0;
    while true
      invariant 0 <= i <= |text| && AllFit(c, text[..i]) && forall k: nat :: k < i ==> !StarAt(c, Parse(re), text, k)
      decreases |text| - i
    {
      b := MatchHere(re, text[i..]);
      if b {
        assert StarAt(c, Parse(re), text, i);
        return true;
      }
      if i == |text| || !(text[i] == c || c == '.') {
        break;
      }
      i := i + 1;
    }
    forall k: nat ensures !StarAt(c, Parse(re), text, k) {
      if i < k <= |text| {
        assert text[..k][i] == text[i];
      }
    }
    b := false;
  }

  // ----- plain text

  predicate Literal(re: string) { forall i :: 0 <= i < |re| ==> re[i] !in "^.*$" }

  ghost predicate Occurs(re: string, text: string) {
    exists i :: 0 <= i <= |text| && re <= text[i..]
  }

  lemma {:induction false} LiteralDenotes(re: string, w: string, rest: string)
    requires Literal(re)
    ensures Denotes(Parse(re), w, rest) <==> w == re
    decreases |re|
  {
    if re != "" {
      var p := Parse(re);
      assert p == [One(re[0])] + Parse(re[1..]) && p[1..] == Parse(re[1..]);
      if w != "" {
        LiteralDenotes(re[1..], w[1..], rest);
        assert w == [w[0]] + w[1..] && re == [re[0]] + re[1..];
      }
    }
  }

  // A pattern without special characters matches exactly the texts in which it occurs.
  lemma LiteralSearch(re: string, text: string)
    requires Literal(re)
    ensures Matches(re, text) <==> Occurs(re, text)
  {
    forall i | 0 <= i <= |text| ensures Here(Parse(re), text[i..]) <==> re <= text[i..] {
      var t := text[i..];
      forall j | 0 <= j <= |t| ensures Denotes(Parse(re), t[..j], t[j..]) <==> t[..j] == re {
        LiteralDenotes(re, t[..j], t[j..]);
      }
      if re <= t {
        assert t[..|re|] == re;
      }
    }
  }
}
