/** The regular-expression matcher of grep (user/grep.c). Patterns and texts are strings
    without the terminating NUL; running off the end plays its part. */
module GrepMatch {

  // ---- what patterns mean ----

  datatype Item = One(c: char) | Many(c: char) | End

  /** A star binds to the character before it, a dollar sign counts only at the very end. */
  function Parse(re: string): seq<Item>
    decreases |re|
  {
    if re == [] then []
    else if |re| >= 2 && re[1] == '*' then [Many(re[0])] + Parse(re[2..])
    else if re == "$" then [End]
    else [One(re[0])] + Parse(re[1..])
  }

  /** How an item is written. */
  function Written(item: Item): (s: string)
    ensures s != []
  {
    match item
    case One(c) => [c]
    case Many(c) => [c, '*']
    case End => "$"
  }

  function Print(items: seq<Item>): string {
    if items == [] then [] else Written(items[0]) + Print(items[1..])
  }

  /** What may follow an item. */
  predicate Before(item: Item, rest: seq<Item>) {
    match item
    case One(c) => if rest != [] then Written(rest[0])[0] != '*' else c != '$'
    case Many(c) => true
    case End => rest == []
  }

  /** No single character stands before a star, none at the end is a dollar sign, and the end is last. */
  predicate Proper(items: seq<Item>) {
    items == [] || (Before(items[0], items[1..]) && Proper(items[1..]))
  }

  lemma PrintFirst(item: Item, items: seq<Item>)
    ensures Print([item] + items) == Written(item) + Print(items)
    ensures Proper([item] + items) <==> Before(item, items) && Proper(items)
  {
    assert ([item] + items)[1..] == items;
  }

  /** A pattern is read as a proper sequence of items that is written like it. */
  lemma {:induction false} ParsePrints(re: string)
    ensures Print(Parse(re)) == re && Proper(Parse(re))
    ensures re != [] ==> Parse(re) != [] && Written(Parse(re)[0])[0] == re[0]
    decreases |re|
  {
    if re == [] {
    } else if |re| >= 2 && re[1] == '*' {
      ParsePrints(re[2..]);
      PrintFirst(Many(re[0]), Parse(re[2..]));
      assert re == [re[0], '*'] + re[2..];
    } else if re == "$" {
      PrintFirst(End, []);
    } else {
      ParsePrints(re[1..]);
      PrintFirst(One(re[0]), Parse(re[1..]));
      assert re == [re[0]] + re[1..];
    }
  }

  /** There is only one such sequence. */
  lemma {:induction false} ParseUnique(items: seq<Item>)
    requires Proper(items)
    ensures Parse(Print(items)) == items
    decreases |items|
  {
    if items != [] {
      var rest, re := items[1..], Print(items);
      ParseUnique(rest);
      assert items == [items[0]] + rest;
      match items[0]
      case One(c) => assert re[1..] == Print(rest);
      case Many(c) => assert re[2..] == Print(rest);
      case End => assert re == "$";
    }
  }

  predicate Fits(c: char, x: char) {
    c == '.' || c == x
  }

  ghost predicate AllFit(c: char, w: string) {
    forall j :: 0 <= j < |w| ==> Fits(c, w[j])
  }

  /** w belongs to the language of the items. */
  ghost predicate InLanguage(items: seq<Item>, w: string)
    decreases |items|
  {
    if items == [] then w == []
    else match items[0]
      case One(c) => w != [] && Fits(c, w[0]) && InLanguage(items[1..], w[1..])
      case Many(c) => exists k :: 0 <= k <= |w| && AllFit(c, w[..k]) && InLanguage(items[1..], w[k..])
      case End => w == [] && InLanguage(items[1..], w)
  }

  predicate Anchored(items: seq<Item>) {
    items != [] && items[|items| - 1] == End
  }

  /** Some word of the language is a prefix of the text, and is the whole text for a pattern
      that ends in a dollar sign. */
  ghost predicate Begins(items: seq<Item>, text: string) {
    exists n :: 0 <= n <= |text| && (Anchored(items) ==> n == |text|) && InLanguage(items, text[..n])
  }

  // ---- patterns, item by item ----

  lemma BeginsNone(text: string)
    ensures Begins([], text)
  {
    assert InLanguage([], text[..0]);
  }

  lemma BeginsEnd(text: string)
    ensures Begins([End], text) <==> text == []
  {
    assert [End][1..] == [];
    if text == [] { assert InLanguage([End], text[..0]); }
  }

  lemma BeginsOne(c: char, items: seq<Item>, text: string)
    ensures Begins([One(c)] + items, text) <==> text != [] && Fits(c, text[0]) && Begins(items, text[1..])
  {
    var all := [One(c)] + items;
    assert all[1..] == items;
    if Begins(all, text) {
      var n :| 0 <= n <= |text| && (Anchored(all) ==> n == |text|) && InLanguage(all, text[..n]);
      assert text[..n][1..] == text[1..][..n - 1];
    }
    if text != [] && Fits(c, text[0]) && Begins(items, text[1..]) {
      var n :| 0 <= n <= |text[1..]| && (Anchored(items) ==> n == |text[1..]|) && InLanguage(items, text[1..][..n]);
      assert text[..n + 1][1..] == text[1..][..n];
      assert InLanguage(all, text[..n + 1]);
    }
  }

  lemma AnchoredTail(item: Item, items: seq<Item>)
    requires item != End
    ensures Anchored([item] + items) <==> Anchored(items)
  {
    var all := [item] + items;
    assert items != [] ==> all[|all| - 1] == items[|items| - 1];
  }

  /** The first k characters fit a starred c, and the rest of the pattern begins behind them. */
  ghost predicate BeginsBehind(c: char, items: seq<Item>, text: string, k: nat) {
    k <= |text| && AllFit(c, text[..k]) && Begins(items, text[k..])
  }

  ghost predicate StarBegins(c: char, items: seq<Item>, text: string) {
    exists k: nat :: BeginsBehind(c, items, text, k)
  }

  lemma BeginsMany(c: char, items: seq<Item>, text: string)
    ensures Begins([Many(c)] + items, text) <==> StarBegins(c, items, text)
  {
    var all := [Many(c)] + items;
    assert all[1..] == items;
    assert Anchored(all) <==> Anchored(items) by { AnchoredTail(Many(c), items); }
    if Begins(all, text) {
      var n :| 0 <= n <= |text| && (Anchored(all) ==> n == |text|) && InLanguage(all, text[..n]);
      var w := text[..n];
      var k :| 0 <= k <= |w| && AllFit(c, w[..k]) && InLanguage(items, w[k..]);
      assert w[k..] == text[k..][..n - k] && w[..k] == text[..k];
      assert BeginsBehind(c, items, text, k);
    }
    if StarBegins(c, items, text) {
      var k: nat :| BeginsBehind(c, items, text, k);
      var n :| 0 <= n <= |text[k..]| && (Anchored(items) ==> n == |text[k..]|) && InLanguage(items, text[k..][..n]);
      var w := text[..k + n];
      assert w[k..] == text[k..][..n] && w[..k] == text[..k];
      assert InLanguage(all, w);
    }
  }

  // ---- the matcher ----

  /** matchhere: does the text begin with a match? */
  method MatchHere(re: string, text: string) returns (r: bool)
    ensures r <==> Begins(Parse(re), text)
    decreases |re|, 0
  {
    if re == [] {
      BeginsNone(text);
      return true;
    }
    if |re| >= 2 && re[1] == '*' {
      assert Parse(re) == [Many(re[0])] + Parse(re[2..]);
      BeginsMany(re[0], Parse(re[2..]), text);
      r := MatchStar(re[0], re[2..], text);
      return;
    }
    if re[0] == '$' && |re| == 1 {
      BeginsEnd(text);
      return text == [];
    }
    assert Parse(re) == [One(re[0])] + Parse(re[1..]);
    BeginsOne(re[0], Parse(re[1..]), text);
    if text != [] && (re[0] == '.' || re[0] == text[0]) {
      r := MatchHere(re[1..], text[1..]);
      return;
    }
    return false;
  }

  /** matchstar: any number of characters that fit c, then a match. */
  method MatchStar(c: char, re: string, text: string) returns (r: bool)
    ensures r <==> StarBegins(c, Parse(re), text)
    decreases |re|, 1
  {
    var i := 0;
    while true
      invariant i <= |text| && AllFit(c, text[..i])
      invariant forall k: nat :: k < i ==> !Begins(Parse(re), text[k..])
      decreases |text| - i
    {
      var m := MatchHere(re, text[i..]);
      if m {
        assert BeginsBehind(c, Parse(re), text, i);
        return true;
      }
      if i == |text| || !(text[i] == c || c == '.') {
        forall k: nat ensures !BeginsBehind(c, Parse(re), text, k) {
          if k > i && k <= |text| { assert text[..k][i] == text[i]; }
        }
        return false;
      }
      i := i + 1;
    }
  }

  /** match: somewhere in the text, or right at its start for a leading caret. */
  method Match(re: string, text: string) returns (r: bool)
    ensures r <==> if re != [] && re[0] == '^' then Begins(Parse(re[1..]), text)
                   else exists i :: 0 <= i <= |text| && Begins(Parse(re), text[i..])
  {
    if re != [] && re[0] == '^' {
      r := MatchHere(re[1..], text);
      return;
    }
    var i := 0;
    while true
      invariant i <= |text|
      invariant forall k: nat :: k < i ==> !Begins(Parse(re), text[k..])
      decreases |text| - i
    {
      var m := MatchHere(re, text[i..]);
      if m { return true; }
      if i == |text| { return false; }
      i := i + 1;
    }
  }
}
