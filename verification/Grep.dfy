/**
 The regular-expression matcher of user/grep.c.

 A C string is modelled by the sequence of its characters before the terminator, so
 `*text == '\0'` reads `text == ""`.  Patterns are given a meaning of their own, as the
 set of words their items spell (`Spells`); the three mutually recursive routines of the
 source are methods, proved to decide that meaning.
 */
module Grep {

  /** One element of a pattern: a single character, a starred character, or a final `$`. */
  datatype Item = One(c: char) | Star(c: char) | End

  function Parse(re: string): (items: seq<Item>) {
    if re == "" then []
    else if |re| > 1 && re[1] == '*' then [Star(re[0])] + Parse(re[2..])
    else if re == "$" then [End]
    else [One(re[0])] + Parse(re[1..])
  }

  function Show(items: seq<Item>): (re: string) {
    if items == [] then ""
    else
      (match items[0]
       case One(c) => [c]
       case Star(c) => [c, '*']
       case End => "$") + Show(items[1..])
  }

  /** Reading a pattern as items loses nothing: the items print back to the pattern. */
  lemma {:induction false} ParseShows(re: string)
    ensures Show(Parse(re)) == re
  {
    if re == "" {
    } else if |re| > 1 && re[1] == '*' {
      ParseShows(re[2..]);
      assert re == [re[0], '*'] + re[2..];
    } else if re == "$" {
      assert Show([End][1..]) == "";
    } else {
      ParseShows(re[1..]);
    }
  }

  /** The item prints as a text that begins with a star. */
  predicate StarFirst(x: Item) {
    x == One('*') || x == Star('*')
  }

  /** `$` ends a pattern only as its last character, and a star behind a character belongs to that character. */
  predicate Canonical(items: seq<Item>) {
    && (forall i :: 0 <= i < |items| && items[i].End? ==> i == |items| - 1)
    && (items != [] ==> items[|items| - 1] != One('$'))
    && (forall i :: 0 < i < |items| && items[i - 1].One? ==> !StarFirst(items[i]))
  }

  lemma CanonicalRest(items: seq<Item>)
    requires items != [] && Canonical(items)
    ensures Canonical(items[1..])
  {
    var rest := items[1..];
    forall i | 0 < i < |rest| && rest[i - 1].One? ensures !StarFirst(rest[i]) {
      assert items[i].One? && items[i + 1] == rest[i];
    }
  }

  /** What is printed begins with a star exactly if the first item does. */
  lemma ShowFirst(items: seq<Item>)
    ensures Show(items) == "" <==> items == []
    ensures items != [] ==> (Show(items)[0] == '*' <==> StarFirst(items[0]))
    ensures Show(items) == "$" <==> items == [End] || items == [One('$')]
  {
    if items != [] {
      assert items == [items[0]] + items[1..];
      assert items[1..] != [] ==> Show(items[1..]) != "";
    }
  }

  /** The items of a pattern are canonical, and canonical items are those of the pattern they print. */
  lemma {:induction false} ParseCanonical(re: string)
    ensures Canonical(Parse(re))
    ensures Parse(re) != [] && StarFirst(Parse(re)[0]) ==> re[0] == '*'
  {
    if re == "" {
    } else if |re| > 1 && re[1] == '*' {
      ParseCanonical(re[2..]);
    } else if re == "$" {
    } else {
      ParseCanonical(re[1..]);
    }
  }

  lemma {:induction false} ShowParses(items: seq<Item>)
    requires Canonical(items)
    ensures Parse(Show(items)) == items
  {
    if items != [] {
      var rest := items[1..];
      CanonicalRest(items);
      ShowParses(rest);
      ShowFirst(items);
      ShowFirst(rest);
      assert items == [items[0]] + rest;
      match items[0]
      case One(c) =>
        assert Show(items)[1..] == Show(rest);
        assert rest != [] ==> items[0].One? && rest[0] == items[1] && !StarFirst(items[1]);
      case Star(c) => assert Show(items)[2..] == Show(rest);
      case End => assert rest == [];
    }
  }

  /** Printing and reading again gives back exactly the canonical items. */
  lemma ParseShowIff(items: seq<Item>)
    ensures Parse(Show(items)) == items <==> Canonical(items)
  {
    if Canonical(items) {
      ShowParses(items);
    } else {
      ParseCanonical(Show(items));
    }
  }

  /** The character class of a pattern character: `.` stands for every character. */
  predicate Accepts(c: char, x: char) {
    c == '.' || c == x
  }

  /** `items` spell exactly the word `w`; `atEnd` says that nothing follows `w` in the text. */
  ghost predicate Spells(items: seq<Item>, w: string, atEnd: bool)
    decreases |items|
  {
    if items == [] then w == ""
    else
      match items[0]
      case One(c) => w != "" && Accepts(c, w[0]) && Spells(items[1..], w[1..], atEnd)
      case Star(c) => exists k: nat :: StarTakes(c, w, k) && Spells(items[1..], w[k..], atEnd)
      case End => w == "" && atEnd && Spells(items[1..], w, atEnd)
  }

  ghost predicate StarTakes(c: char, w: string, k: nat) {
    k <= |w| && forall i :: 0 <= i < k ==> Accepts(c, w[i])
  }

  /** Some prefix of `text`, the first `j` characters, is spelled by `items`. */
  ghost predicate PrefixTo(items: seq<Item>, text: string, j: nat) {
    j <= |text| && Spells(items, text[..j], j == |text|)
  }

  ghost predicate MatchesHere(items: seq<Item>, text: string) {
    exists j: nat :: PrefixTo(items, text, j)
  }

  /** The characters i..j of `text` are spelled by `items`. */
  ghost predicate Occurs(items: seq<Item>, text: string, i: nat, j: nat) {
    i <= j <= |text| && Spells(items, text[i..j], j == |text|)
  }

  lemma HereOne(c: char, rest: seq<Item>, text: string)
    ensures MatchesHere([One(c)] + rest, text)
       <==> text != "" && Accepts(c, text[0]) && MatchesHere(rest, text[1..])
  {
    var items := [One(c)] + rest;
    if MatchesHere(items, text) {
      var j: nat :| PrefixTo(items, text, j);
      assert text[..j][1..] == text[1..][..j - 1];
      assert PrefixTo(rest, text[1..], j - 1);
    }
    if text != "" && Accepts(c, text[0]) && MatchesHere(rest, text[1..]) {
      var j: nat :| PrefixTo(rest, text[1..], j);
      assert text[..j + 1][1..] == text[1..][..j];
      assert PrefixTo(items, text, j + 1);
    }
  }

  lemma HereStar(c: char, rest: seq<Item>, text: string)
    ensures MatchesHere([Star(c)] + rest, text)
       <==> exists k: nat :: StarTakes(c, text, k) && MatchesHere(rest, text[k..])
  {
    var items := [Star(c)] + rest;
    if MatchesHere(items, text) {
      var j: nat :| PrefixTo(items, text, j);
      var k: nat :| StarTakes(c, text[..j], k) && Spells(rest, text[..j][k..], j == |text|);
      assert text[..j][k..] == text[k..][..j - k];
      assert PrefixTo(rest, text[k..], j - k);
      assert StarTakes(c, text, k);
    }
    if exists k: nat :: StarTakes(c, text, k) && MatchesHere(rest, text[k..]) {
      var k: nat :| StarTakes(c, text, k) && MatchesHere(rest, text[k..]);
      var j: nat :| PrefixTo(rest, text[k..], j);
      assert text[..k + j][k..] == text[k..][..j];
      assert StarTakes(c, text[..k + j], k);
      assert PrefixTo(items, text, k + j);
    }
  }

  lemma HereSimple(text: string)
    ensures MatchesHere([], text)
    ensures MatchesHere([End], text) <==> text == ""
  {
    assert PrefixTo([], text, 0);
    if text == "" {
      assert PrefixTo([End], text, 0);
    }
  }

  /** matchhere decides whether some prefix of the text is spelled by the pattern. */
  method MatchHere(re: string, text: string) returns (r: bool)
    ensures r <==> MatchesHere(Parse(re), text)
    decreases |re|, 0
  {
    HereSimple(text);
    if re == "" {
      return true;
    }
    if |re| > 1 && re[1] == '*' {
      r := MatchStar(re[0], re[2..], text);
      return;
    }
    if re == "$" {
      return text == "";
    }
    HereOne(re[0], Parse(re[1..]), text);
    if text != "" && (re[0] == '.' || re[0] == text[0]) {
      r := MatchHere(re[1..], text[1..]);
      return;
    }
    return false;
  }

  /** matchstar tries the rest of the pattern after every admissible run of `c`. */
  method MatchStar(c: char, re: string, text: string) returns (r: bool)
    ensures r <==> MatchesHere([Star(c)] + Parse(re), text)
    decreases |re|, 1
  {
    HereStar(c, Parse(re), text);
    var k := 0;
    while true
      invariant k <= |text| && StarTakes(c, text, k)
      invariant forall i :: 0 <= i < k ==> !MatchesHere(Parse(re), text[i..])
      decreases |text| - k
    {
      var here := MatchHere(re, text[k..]);
      if here {
        return true;
      }
      if !(k < |text| && (text[k] == c || c == '.')) {
        break;
      }
      k := k + 1;
    }
    return false;
  }

  /**
   match answers 1 exactly when the pattern spells some substring of the text that starts at
   an allowed position: anywhere, or only at the start after a leading `^`.
   */
  method Match(re: string, text: string) returns (r: bool)
    ensures re != "" && re[0] == '^' ==>
              (r <==> exists j: nat :: Occurs(Parse(re[1..]), text, 0, j))
    ensures !(re != "" && re[0] == '^') ==>
              (r <==> exists i: nat, j: nat :: Occurs(Parse(re), text, i, j))
  {
    if re != "" && re[0] == '^' {
      r := MatchHere(re[1..], text);
      OccursAt(Parse(re[1..]), text, 0);
      return;
    }
    var k := 0;
    while true
      invariant k <= |text|
      invariant forall i :: 0 <= i < k ==> !MatchesHere(Parse(re), text[i..])
      decreases |text| - k
    {
      r := MatchHere(re, text[k..]);
      OccursAt(Parse(re), text, k);
      if r {
        return;
      }
      if k == |text| {
        break;
      }
      k := k + 1;
    }
    if i: nat, j: nat :| Occurs(Parse(re), text, i, j) {
      OccursAt(Parse(re), text, i);
      assert false;
    }
    return false;
  }

  lemma OccursAt(items: seq<Item>, text: string, i: nat)
    requires i <= |text|
    ensures MatchesHere(items, text[i..]) <==> exists j: nat :: Occurs(items, text, i, j)
  {
    if MatchesHere(items, text[i..]) {
      var j: nat :| PrefixTo(items, text[i..], j);
      assert text[i..][..j] == text[i..i + j];
      assert Occurs(items, text, i, i + j);
    }
    if exists j: nat :: Occurs(items, text, i, j) {
      var j: nat :| Occurs(items, text, i, j);
      assert text[i..][..j - i] == text[i..j];
      assert PrefixTo(items, text[i..], j - i);
    }
  }
}
