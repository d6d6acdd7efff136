/** The regular expression matcher of grep.c. A string stands for the characters before its NUL, a pointer into it for
    an index, at most its length. */
module Grep {
  // ---- what an expression means ----

  /** One(c) is a character, any if c is a dot; Star(c) any number of them; End the end of the text. */
  datatype Item = One(c: char) | Star(c: char) | End

  /** The expression as a list of items. A star makes an item of whatever stands before it; a dollar is End only as
      the last character. */
  function Items(re: string): seq<Item>
    decreases |re|
  {
    if re == [] then []
    else if |re| > 1 && re[1] == '*' then [Star(re[0])] + Items(re[2..])
    else if re == "$" then [End]
    else [One(re[0])] + Items(re[1..])
  }

  predicate CharIn(c: char, x: char) {
    c == '.' || c == x
  }

  /** The word w, with the text going on with rest, is in the language of the item. */
  predicate ItemIn(item: Item, w: string, rest: string) {
    match item
    case One(c) => |w| == 1 && CharIn(c, w[0])
    case Star(c) => forall i :: 0 <= i < |w| ==> CharIn(c, w[i])
    case End => w == [] && rest == []
  }

  /** The language of a list is the concatenation of the languages of its items. */
  ghost predicate In(items: seq<Item>, w: string, rest: string)
    decreases |items|
  {
    if items == [] then w == []
    else exists k :: 0 <= k <= |w| && ItemIn(items[0], w[..k], w[k..] + rest) && In(items[1..], w[k..], rest)
  }

  /** Some prefix of the text is in the language. */
  ghost predicate Here(items: seq<Item>, text: string) {
    exists k :: 0 <= k <= |text| && In(items, text[..k], text[k..])
  }

  /** What match promises: a match anywhere, or at the start after a caret. */
  ghost predicate Matches(re: string, text: string) {
    if re != [] && re[0] == '^' then Here(Items(re[1..]), text)
    else exists p :: 0 <= p <= |text| && Here(Items(re), text[p..])
  }

  // ---- an expression is one list of items ----

  function Spelling(item: Item): string {
    match item
    case One(c) => [c]
    case Star(c) => [c, '*']
    case End => "$"
  }

  function Spelled(items: seq<Item>): string {
    if items == [] then "" else Spelling(items[0]) + Spelled(items[1..])
  }

  /** A dollar at the end, and only there, is End; a star never stands alone behind a character. */
  predicate Proper(items: seq<Item>)
    decreases |items|
  {
    items == [] ||
    (var rest := items[1..];
     && Proper(rest)
     && match items[0]
        case One(c) => if rest == [] then c != '$' else Spelling(rest[0])[0] != '*'
        case Star(_) => true
        case End => rest == [])
  }

  lemma SpelledStart(items: seq<Item>)
    ensures items == [] <==> Spelled(items) == []
    ensures items != [] ==> Spelled(items)[0] == Spelling(items[0])[0]
  {}

  lemma {:induction false} ItemsProper(re: string)
    ensures Proper(Items(re)) && Spelled(Items(re)) == re
    decreases |re|
  {
    if re != [] {
      var n := if |re| > 1 && re[1] == '*' then 2 else 1;
      ItemsProper(re[n..]);
      SpelledStart(Items(re[n..]));
      assert Items(re) == [Items(re)[0]] + Items(re[n..]);
      assert Items(re)[1..] == Items(re[n..]);
      assert re == re[..n] + re[n..];
    }
  }

  lemma {:induction false} ProperItems(items: seq<Item>)
    requires Proper(items)
    ensures Items(Spelled(items)) == items
    decreases |items|
  {
    if items != [] {
      var rest, re := items[1..], Spelled(items);
      ProperItems(rest);
      SpelledStart(rest);
      assert items == [items[0]] + rest;
      assert re[|Spelling(items[0])|..] == Spelled(rest);
    }
  }

  /** Items reads an expression in the one way there is: the items are proper and spell it, and no others do. */
  lemma ReadOnce(re: string, items: seq<Item>)
    ensures Items(re) == items <==> Proper(items) && Spelled(items) == re
  {
    ItemsProper(re);
    if Proper(items) && Spelled(items) == re {
      ProperItems(items);
    }
  }

  // ---- the language, item by item ----

  lemma HereNil(text: string)
    ensures Here([], text)
  {
    assert In([], text[..0], text[0..]);
  }

  predicate Splits(items: seq<Item>, text: string, n: nat) {
    items != [] && n <= |text| && ItemIn(items[0], text[..n], text[n..])
  }

  lemma HereSplit(items: seq<Item>, text: string) returns (n: nat)
    requires items != [] && Here(items, text)
    ensures Splits(items, text, n) && Here(items[1..], text[n..])
  {
    var k :| 0 <= k <= |text| && In(items, text[..k], text[k..]);
    var w, rest := text[..k], text[k..];
    n :| 0 <= n <= |w| && ItemIn(items[0], w[..n], w[n..] + rest) && In(items[1..], w[n..], rest);
    assert w[..n] == text[..n] && w[n..] + rest == text[n..];
    assert w[n..] == text[n..][..k - n] && rest == text[n..][k - n..];
  }

  lemma HereJoin(items: seq<Item>, text: string, n: nat)
    requires Splits(items, text, n) && Here(items[1..], text[n..])
    ensures Here(items, text)
  {
    var m :| 0 <= m <= |text[n..]| && In(items[1..], text[n..][..m], text[n..][m..]);
    var w, rest := text[..n + m], text[n + m..];
    assert w[..n] == text[..n] && w[n..] + rest == text[n..];
    assert w[n..] == text[n..][..m] && rest == text[n..][m..];
    assert In(items, w, rest);
  }

  /** The first item takes some of the text and the others match what is left. */
  lemma HereCons(items: seq<Item>, text: string)
    requires items != []
    ensures Here(items, text) <==> exists n: nat :: Splits(items, text, n) && Here(items[1..], text[n..])
  {
    hide Here, In, ItemIn;
    if Here(items, text) {
      var n := HereSplit(items, text);
    }
    if n: nat :| Splits(items, text, n) && Here(items[1..], text[n..]) {
      HereJoin(items, text, n);
    }
  }

  lemma HereOne(c: char, items: seq<Item>, text: string)
    ensures Here([One(c)] + items, text) <==> text != [] && CharIn(c, text[0]) && Here(items, text[1..])
  {
    HereCons([One(c)] + items, text);
    assert ([One(c)] + items)[1..] == items;
    if text != [] && CharIn(c, text[0]) && Here(items, text[1..]) {
      assert Splits([One(c)] + items, text, 1);
    }
  }

  lemma HereEnd(text: string)
    ensures Here([End], text) <==> text == []
  {
    HereCons([End], text);
    assert [End][1..] == [];
    if text == [] {
      HereNil(text);
      assert text[0..] == [] && text[..0] == [];
      assert Splits([End], text, 0) && Here([End][1..], text[0..]);
    }
  }

  predicate Run(c: char, text: string, n: nat) {
    n <= |text| && forall i :: 0 <= i < n ==> CharIn(c, text[i])
  }

  lemma HereStar(c: char, items: seq<Item>, text: string)
    ensures Here([Star(c)] + items, text) <==> exists n: nat :: Run(c, text, n) && Here(items, text[n..])
  {
    HereCons([Star(c)] + items, text);
    assert ([Star(c)] + items)[1..] == items;
    if n: nat :| Run(c, text, n) && Here(items, text[n..]) {
      assert Splits([Star(c)] + items, text, n);
    }
    if n: nat :| Splits([Star(c)] + items, text, n) && Here(items, text[n..]) {
      assert forall i :: 0 <= i < n ==> text[i] == text[..n][i];
      assert Run(c, text, n);
    }
  }

  // ---- the code ----

  method Match(re: string, text: string) returns (found: bool)
    ensures found <==> Matches(re, text)
  {
    if re != [] && re[0] == '^' {
      found := MatchHere(re, 1, text, 0);
      assert text[0..] == text;
      return;
    }
    assert re[0..] == re;
    var p := 0;
    while true
      invariant 0 <= p <= |text|
      invariant forall q :: 0 <= q < p ==> !Here(Items(re), text[q..])
      decreases |text| - p
    {
      var here := MatchHere(re, 0, text, p);
      if here {
        return true;
      }
      if p == |text| {
        return false;
      }
      p := p + 1;
    }
  }

  /** Search for re[i..] at the beginning of text[p..]. */
  method MatchHere(re: string, i: nat, text: string, p: nat) returns (found: bool)
    requires i <= |re| && p <= |text|
    ensures found <==> Here(Items(re[i..]), text[p..])
    decreases |re| - i, 1
  {
    ghost var r, t := re[i..], text[p..];
    if i == |re| {
      HereNil(t);
      return true;
    }
    if i + 1 < |re| && re[i + 1] == '*' {
      assert r[2..] == re[i + 2..];
      HereStar(re[i], Items(re[i + 2..]), t);
      found := MatchStar(re[i], re, i + 2, text, p);
      return;
    }
    if re[i] == '$' && i + 1 == |re| {
      assert r == "$";
      HereEnd(t);
      return p == |text|;
    }
    assert r != "$" && r[1..] == re[i + 1..];
    HereOne(re[i], Items(re[i + 1..]), t);
    if p < |text| && (re[i] == '.' || re[i] == text[p]) {
      assert t[1..] == text[p + 1..];
      found := MatchHere(re, i + 1, text, p + 1);
      return;
    }
    return false;
  }

  /** Search for c*re[i..] at the beginning of text[p..]. */
  method MatchStar(c: char, re: string, i: nat, text: string, p: nat) returns (found: bool)
    requires i <= |re| && p <= |text|
    ensures found <==> exists n: nat :: Run(c, text[p..], n) && Here(Items(re[i..]), text[p..][n..])
    decreases |re| - i, 2
  {
    ghost var t, items := text[p..], Items(re[i..]);
    var q := p;
    while true
      invariant p <= q <= |text| && Run(c, t, q - p)
      invariant forall n :: 0 <= n < q - p ==> !Here(items, t[n..])
      decreases |text| - q
    {
      assert t[q - p..] == text[q..];
      var here := MatchHere(re, i, text, q);
      if here {
        assert Run(c, t, q - p) && Here(items, t[q - p..]);
        return true;
      }
      if q == |text| || !(text[q] == c || c == '.') {
        assert forall n: nat :: Run(c, t, n) ==> n <= q - p by {
          if q < |text| {
            assert t[q - p] == text[q];
          }
        }
        return false;
      }
      q := q + 1;
    }
  }

  /** A star takes the empty run too, so it never makes a match fail that the rest would give. */
  lemma StarOfNothing(c: char, re: string, text: string)
    requires Here(Items(re), text)
    ensures Here(Items([c, '*'] + re), text)
  {
    var r := [c, '*'] + re;
    assert r[2..] == re;
    HereStar(c, Items(re), text);
    assert text[0..] == text;
    var n: nat := 0;
    assert Run(c, text, n) && Here(Items(re), text[n..]);
  }
}
