/**
 The regular expression matcher of user/grep.c. C strings are sequences of
 characters without the final NUL.
 */
module Grep {

  /** A pattern: characters (. for any), starred characters, and $ as the very last character. */
  datatype Item = One(c: char) | Star(c: char) | End

  function Parse(re: string): (items: seq<Item>)
    ensures Anchored(re) <==> items != [] && items[|items| - 1] == End
  {
    if re == "" then []
    else if |re| >= 2 && re[1] == '*' then [Star(re[0])] + Parse(re[2..])
    else if re == "$" then [End]
    else [One(re[0])] + Parse(re[1..])
  }

  /** The pattern ends in a $ that stands for the end of the text. */
  predicate Anchored(re: string) {
    if re == "" then false
    else if |re| >= 2 && re[1] == '*' then Anchored(re[2..])
    else if re == "$" then true
    else Anchored(re[1..])
  }

  predicate Fits(c: char, x: char) { c == '.' || c == x }

  predicate AllFit(c: char, w: string) { forall i :: 0 <= i < |w| ==> Fits(c, w[i]) }

  /** The language of a pattern. */
  ghost predicate InLang(items: seq<Item>, w: string)
    decreases |items|
  {
    if items == [] then w == ""
    else match items[0]
      case One(c) => w != "" && Fits(c, w[0]) && InLang(items[1..], w[1..])
      case Star(c) => exists k: nat :: k <= |w| && AllFit(c, w[..k]) && InLang(items[1..], w[k..])
      case End => w == ""
  }

  /** A word of the language begins the text; under a final $ it is the whole text. */
  ghost predicate Here(re: string, text: string) {
    exists n: nat :: n <= |text| && (Anchored(re) ==> n == |text|) && InLang(Parse(re), text[..n])
  }

  /** The meaning of a whole pattern: ^ ties it to the start of the text. */
  ghost predicate Matches(re: string, text: string) {
    if re != "" && re[0] == '^' then Here(re[1..], text)
    else exists p: nat :: p <= |text| && Here(re, text[p..])
  }

  lemma {:induction false} HereOne(re: string, text: string)
    requires re != "" && !(|re| >= 2 && re[1] == '*') && re != "$"
    ensures Here(re, text) <==> text != "" && Fits(re[0], text[0]) && Here(re[1..], text[1..])
  {
    var items := Parse(re);
    assert items[1..] == Parse(re[1..]);
    if Here(re, text) {
      var n: nat :| n <= |text| && (Anchored(re) ==> n == |text|) && InLang(items, text[..n]);
      assert text[..n][1..] == text[1..][..n - 1];
    }
    if text != "" && Fits(re[0], text[0]) && Here(re[1..], text[1..]) {
      var n: nat :| n <= |text| - 1 && (Anchored(re[1..]) ==> n == |text| - 1) &&
        InLang(Parse(re[1..]), text[1..][..n]);
      assert text[..n + 1][1..] == text[1..][..n];
      assert InLang(items, text[..n + 1]);
    }
  }

  /** c*re begins the text exactly if re begins what is left after some run of c. */
  lemma {:induction false} HereStar(re: string, text: string)
    requires |re| >= 2 && re[1] == '*'
    ensures Here(re, text) <==> exists k: nat :: k <= |text| && AllFit(re[0], text[..k]) && Here(re[2..], text[k..])
  {
    var items, c := Parse(re), re[0];
    assert items[1..] == Parse(re[2..]);
    if Here(re, text) {
      var n: nat :| n <= |text| && (Anchored(re) ==> n == |text|) && InLang(items, text[..n]);
      var k: nat :| k <= n && AllFit(c, text[..n][..k]) && InLang(items[1..], text[..n][k..]);
      assert text[..n][..k] == text[..k] && text[..n][k..] == text[k..][..n - k];
      assert Here(re[2..], text[k..]);
    }
    if k: nat :| k <= |text| && AllFit(c, text[..k]) && Here(re[2..], text[k..]) {
      var n: nat :| n <= |text| - k && (Anchored(re[2..]) ==> n == |text| - k) &&
        InLang(Parse(re[2..]), text[k..][..n]);
      assert text[..k + n][..k] == text[..k] && text[..k + n][k..] == text[k..][..n];
      assert InLang(items, text[..k + n]);
    }
  }

  lemma {:induction false} HereEnds(text: string)
    ensures Here("", text)
    ensures Here("$", text) <==> text == ""
  {
    assert text[..0] == "" && InLang(Parse(""), text[..0]);
    assert Parse("$") == [End];
    assert text == "" ==> InLang([End], text[..0]);
  }

  method MatchHere(re: string, text: string) returns (r: bool)
    ensures r <==> Here(re, text)
    decreases |re|, 0
  {
    HereEnds(text);
    if re == "" {
      return true;
    }
    if |re| >= 2 && re[1] == '*' {
      HereStar(re, text);
      r := MatchStar(re[0], re[2..], text);
      return;
    }
    if re == "$" {
      return text == "";
    }
    HereOne(re, text);
    if text != "" && (re[0] == '.' || re[0] == text[0]) {
      r := MatchHere(re[1..], text[1..]);
      return;
    }
    return false;
  }

  method MatchStar(c: char, re: string, text: string) returns (r: bool)
    ensures r <==> exists k: nat :: k <= |text| && AllFit(c, text[..k]) && Here(re, text[k..])
    decreases |re|, 1
  {
    var i := 0;
    while true
      invariant i <= |text| && AllFit(c, text[..i])
      invariant forall k: nat :: k < i ==> !Here(re, text[k..])
      decreases |text| - i
    {
      var found := MatchHere(re, text[i..]);
      if found {
        return true;
      }
      if i == |text| || !(text[i] == c || c == '.') {
        break;
      }
      i := i + 1;
    }
    forall k: nat | k <= |text| && AllFit(c, text[..k]) ensures !Here(re, text[k..]) {
      assert k > i ==> Fits(c, text[..k][i]);
    }
    return false;
  }

  method Match(re: string, text: string) returns (r: bool)
    ensures r <==> Matches(re, text)
  {
    if re != "" && re[0] == '^' {
      r := MatchHere(re[1..], text);
      return;
    }
    var i := 0;
    while true
      invariant i <= |text| && forall p: nat :: p < i ==> !Here(re, text[p..])
      decreases |text| - i
    {
      var found := MatchHere(re, text[i..]);
      if found {
        return true;
      }
      if i == |text| {
        return false;
      }
      i := i + 1;
    }
  }
}
