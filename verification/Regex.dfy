/** The regular expression matcher (user/grep.c: match, matchhere, matchstar) against the
    language of its patterns. */
module Regex {

  // ----- what a pattern means -----

  /** One character, or any number of one character; '.' stands for every character. */
  datatype Item = One(c: char) | Star(c: char)

  predicate Fits(c: char, x: char) { c == '.' || c == x }

  predicate ItemHas(item: Item, s: string) {
    match item
    case One(c) => |s| == 1 && Fits(c, s[0])
    case Star(c) => forall i :: 0 <= i < |s| ==> Fits(c, s[i])
  }

  /** s is in the language of the items one after another. */
  predicate Language(items: seq<Item>, s: string) {
    if items == [] then s == []
    else exists k | 0 <= k <= |s| :: ItemHas(items[0], s[..k]) && Language(items[1..], s[k..])
  }

  /** The items of a pattern without its leading '^'.  A '*' belongs to the character before
      it; a '$' at the very end is no item. */
  function Items(re: string): (r: seq<Item>)
    decreases |re|
  {
    if re == [] || re == ['$'] then []
    else if |re| > 1 && re[1] == '*' then [Star(re[0])] + Items(re[2..])
    else [One(re[0])] + Items(re[1..])
  }

  /** The pattern ends in a '$' that is no item. */
  predicate Anchored(re: string)
    decreases |re|
  {
    if re == [] then false
    else if re == ['$'] then true
    else if |re| > 1 && re[1] == '*' then Anchored(re[2..])
    else Anchored(re[1..])
  }

  /** The pattern matches text[j..k]. */
  predicate MatchesAt(re: string, text: string, j: nat, k: nat) {
    j <= k <= |text| && Language(Items(re), text[j..k]) && (Anchored(re) ==> k == |text|)
  }

  /** Some prefix of text matches. */
  predicate Here(re: string, text: string) { exists k | 0 <= k <= |text| :: MatchesAt(re, text, 0, k) }

  /** Some substring matches: a prefix under '^', a suffix under '$'. */
  predicate Matches(re: string, text: string) {
    if re != [] && re[0] == '^' then Here(re[1..], text)
    else exists j, k | 0 <= j <= k <= |text| :: MatchesAt(re, text, j, k)
  }

  // ----- matchhere's cases -----

  lemma HereEmpty(text: string)
    ensures Here([], text)
  {
    assert MatchesAt([], text, 0, 0);
  }

  lemma HereEnd(text: string)
    ensures Here(['$'], text) <==> text == []
  {
    if text == [] { assert MatchesAt(['$'], text, 0, 0); }
  }

  lemma HereOne(re: string, text: string)
    requires re != [] && re != ['$'] && !(|re| > 1 && re[1] == '*')
    ensures Here(re, text) <==> text != [] && Fits(re[0], text[0]) && Here(re[1..], text[1..])
  {
    if Here(re, text) {
      var k :| 0 <= k <= |text| && MatchesAt(re, text, 0, k);
      var s := text[0..k];
      assert Items(re)[0] == One(re[0]) && Items(re)[1..] == Items(re[1..]);
      var i :| 0 <= i <= |s| && ItemHas(Items(re)[0], s[..i]) && Language(Items(re)[1..], s[i..]);
      assert i == 1 && s[1..] == text[1..][0..k - 1];
      assert MatchesAt(re[1..], text[1..], 0, k - 1);
    }
    if text != [] && Fits(re[0], text[0]) && Here(re[1..], text[1..]) {
      var k :| 0 <= k <= |text[1..]| && MatchesAt(re[1..], text[1..], 0, k);
      var s := text[0..k + 1];
      assert s[..1] == [text[0]] && s[1..] == text[1..][0..k];
      LanguageStep(One(re[0]), Items(re[1..]), s, 1);
      assert MatchesAt(re, text, 0, k + 1);
    }
  }

  lemma LanguageStep(item: Item, items: seq<Item>, s: string, k: nat)
    requires k <= |s| && ItemHas(item, s[..k]) && Language(items, s[k..])
    ensures Language([item] + items, s)
  {
    var all := [item] + items;
    assert all[0] == item && all[1..] == items;
  }

  /** The first k characters of text fit c. */
  predicate Run(c: char, text: string, k: nat) { k <= |text| && forall i :: 0 <= i < k ==> Fits(c, text[i]) }

  lemma HereStar(re: string, text: string)
    requires |re| > 1 && re[1] == '*'
    ensures Here(re, text) <==> exists k | 0 <= k <= |text| :: Run(re[0], text, k) && Here(re[2..], text[k..])
  {
    if Here(re, text) {
      var k :| 0 <= k <= |text| && MatchesAt(re, text, 0, k);
      var s := text[0..k];
      assert Items(re)[0] == Star(re[0]) && Items(re)[1..] == Items(re[2..]);
      var i :| 0 <= i <= |s| && ItemHas(Items(re)[0], s[..i]) && Language(Items(re)[1..], s[i..]);
      assert forall j :: 0 <= j < i ==> text[j] == s[..i][j];
      assert s[i..] == text[i..][0..k - i];
      assert MatchesAt(re[2..], text[i..], 0, k - i);
      assert Run(re[0], text, i);
    }
    if exists k | 0 <= k <= |text| :: Run(re[0], text, k) && Here(re[2..], text[k..]) {
      var i :| 0 <= i <= |text| && Run(re[0], text, i) && Here(re[2..], text[i..]);
      var k :| 0 <= k <= |text[i..]| && MatchesAt(re[2..], text[i..], 0, k);
      var s := text[0..i + k];
      assert s[i..] == text[i..][0..k];
      LanguageStep(Star(re[0]), Items(re[2..]), s, i);
      assert MatchesAt(re, text, 0, i + k);
    }
  }

  // ----- the code -----

  method MatchHere(re: string, text: string) returns (ok: bool)
    ensures ok <==> Here(re, text)
    decreases |re|, 0
  {
    hide Here, Matches, Language;
    if re == [] {
      HereEmpty(text);
      return true;
    }
    if |re| > 1 && re[1] == '*' {
      HereStar(re, text);
      ok := MatchStar(re[0], re[2..], text);
      return;
    }
    if re[0] == '$' && |re| == 1 {
      assert re == ['$'];
      HereEnd(text);
      return text == [];
    }
    HereOne(re, text);
    if text != [] && (re[0] == '.' || re[0] == text[0]) {
      ok := MatchHere(re[1..], text[1..]);
      return;
    }
    return false;
  }

  method MatchStar(c: char, re: string, text: string) returns (ok: bool)
    ensures ok <==> exists k | 0 <= k <= |text| :: Run(c, text, k) && Here(re, text[k..])
    decreases |re|, 1
  {
    hide Here, Matches, Language;
    var i := 0;
    while true
      invariant 0 <= i <= |text| && Run(c, text, i)
      invariant forall k :: 0 <= k < i ==> !Here(re, text[k..])
      decreases |text| - i
    {
      ok := MatchHere(re, text[i..]);
      if ok { return; }
      if i == |text| || !(text[i] == c || c == '.') { return false; }
      i := i + 1;
    }
  }

  method Match(re: string, text: string) returns (ok: bool)
    ensures ok <==> Matches(re, text)
  {
    hide Here, Language, MatchesAt;
    if re != [] && re[0] == '^' {
      ok := MatchHere(re[1..], text);
      return;
    }
    var i := 0;
    while true
      invariant 0 <= i <= |text| && forall j :: 0 <= j < i ==> !Here(re, text[j..])
      decreases |text| - i
    {
      HereFrom(re, text, i);
      ok := MatchHere(re, text[i..]);
      if ok { return; }
      if i == |text| {
        NoneAnywhere(re, text);
        return;
      }
      i := i + 1;
    }
  }

  /** A prefix of what is left from i on is a substring starting at i. */
  lemma HereFrom(re: string, text: string, i: nat)
    requires i <= |text|
    ensures Here(re, text[i..]) <==> exists k | i <= k <= |text| :: MatchesAt(re, text, i, k)
  {
    hide Language;
    if Here(re, text[i..]) {
      var k :| 0 <= k <= |text[i..]| && MatchesAt(re, text[i..], 0, k);
      assert text[i..][0..k] == text[i..i + k];
      assert MatchesAt(re, text, i, i + k);
    }
    if k :| i <= k <= |text| && MatchesAt(re, text, i, k) {
      assert text[i..][0..k - i] == text[i..k];
      assert MatchesAt(re, text[i..], 0, k - i);
    }
  }

  lemma NoneAnywhere(re: string, text: string)
    requires forall j :: 0 <= j <= |text| ==> !Here(re, text[j..])
    ensures forall j, k :: 0 <= j <= k <= |text| ==> !MatchesAt(re, text, j, k)
  {
    hide Here, MatchesAt;
    forall j, k | 0 <= j <= k <= |text| ensures !MatchesAt(re, text, j, k) { HereFrom(re, text, j); }
  }
}
