/**
 The regexp matcher of user/grep.c.  Strings are their characters before the NUL, so
 reading one past the end is the test against '\0'.
*/
module GrepMatch {

  // What a pattern says, read left to right.
  datatype Item = One(c: char) | Many(c: char) | AtEnd

  function Parse(re: string): seq<Item> {
    if re == "" then []
    else if |re| >= 2 && re[1] == '*' then [Many(re[0])] + Parse(re[2..])
    else if re == "$" then [AtEnd]
    else [One(re[0])] + Parse(re[1..])
  }

  predicate Fits(c: char, x: char) { c == '.' || c == x }

  // The item accounts for the first n characters of text.
  ghost predicate Takes(item: Item, text: string, n: nat) {
    && n <= |text|
    && match item
       case One(c) => n == 1 && Fits(c, text[0])
       case Many(c) => forall i :: 0 <= i < n ==> Fits(c, text[i])
       case AtEnd => n == 0 && text == ""
  }

  // Consecutive pieces of text of the given lengths match the items one by one.
  ghost predicate Spells(items: seq<Item>, text: string, lens: seq<nat>) {
    && |lens| == |items|
    && (items != [] ==>
        Takes(items[0], text, lens[0]) && Spells(items[1..], text[lens[0]..], lens[1..]))
  }

  // Some prefix of text is in the language of the pattern.
  ghost predicate Prefix(items: seq<Item>, text: string) {
    exists lens :: Spells(items, text, lens)
  }

  lemma PrefixEmpty(text: string)
    ensures Prefix([], text)
  {
    assert Spells([], text, []);
  }

  lemma PrefixCons(item: Item, items: seq<Item>, text: string)
    ensures Prefix([item] + items, text) <==>
      exists n: nat :: Takes(item, text, n) && Prefix(items, text[n..])
  {
    var all := [item] + items;
    assert all[1..] == items;
    if Prefix(all, text) {
      var lens :| Spells(all, text, lens);
      assert Takes(item, text, lens[0]) && Spells(items, text[lens[0]..], lens[1..]);
    }
    if n: nat :| Takes(item, text, n) && Prefix(items, text[n..]) {
      var lens :| Spells(items, text[n..], lens);
      assert ([n] + lens)[1..] == lens;
      assert Spells(all, text, [n] + lens);
    }
  }

  lemma PrefixOne(item: Item, items: seq<Item>, text: string)
    requires item.One?
    ensures Prefix([item] + items, text) <==>
      text != "" && Fits(item.c, text[0]) && Prefix(items, text[1..])
  {
    PrefixCons(item, items, text);
    if text != "" && Fits(item.c, text[0]) { assert Takes(item, text, 1); }
  }

  lemma PrefixAtEnd(text: string)
    ensures Prefix([AtEnd], text) <==> text == ""
  {
    PrefixCons(AtEnd, [], text);
    assert [AtEnd] + [] == [AtEnd];
    if text == "" {
      PrefixEmpty("");
      assert Takes(AtEnd, text, 0) && text[0..] == "";
    }
  }

  /** matchhere: true exactly when a prefix of text is in the pattern's language. */
  method MatchHere(re: string, text: string) returns (r: bool)
    ensures r <==> Prefix(Parse(re), text)
    decreases |re|, 0
  {
    if re == "" {
      PrefixEmpty(text);
      return true;
    }
    if |re| >= 2 && re[1] == '*' {
      r := MatchStar(re[0], re[2..], text);
      return;
    }
    if re == "$" {
      PrefixAtEnd(text);
      return text == "";
    }
    PrefixOne(One(re[0]), Parse(re[1..]), text);
    if text != "" && (re[0] == '.' || re[0] == text[0]) {
      r := MatchHere(re[1..], text[1..]);
      return;
    }
    return false;
  }

  /** matchstar: any number of characters that fit c, then the rest of the pattern. */
  method MatchStar(c: char, re: string, text: string) returns (r: bool)
    ensures r <==> Prefix([Many(c)] + Parse(re), text)
    decreases |re|, 1
  {
    PrefixCons(Many(c), Parse(re), text);
    var t := 0;
    while true
      invariant t <= |text| && (forall i :: 0 <= i < t ==> Fits(c, text[i]))
      invariant forall n :: 0 <= n < t ==> !Prefix(Parse(re), text[n..])
      decreases |text| - t
    {
      var here := MatchHere(re, text[t..]);
      if here {
        assert Takes(Many(c), text, t);
        return true;
      }
      if t == |text| || !(text[t] == c || c == '.') {
        forall n: nat | n > t ensures !Takes(Many(c), text, n) {
          assert n <= |text| ==> !Fits(c, text[t]);
        }
        return false;
      }
      t := t + 1;
    }
  }

  /** match: a pattern that begins with ^ must match at the start, any other anywhere. */
  method Match(re: string, text: string) returns (r: bool)
    ensures r <==>
      if re != "" && re[0] == '^' then Prefix(Parse(re[1..]), text)
      else exists i :: 0 <= i <= |text| && Prefix(Parse(re), text[i..])
  {
    if re != "" && re[0] == '^' {
      r := MatchHere(re[1..], text);
      return;
    }
    var t := 0;
    while true
      invariant t <= |text| && forall i :: 0 <= i < t ==> !Prefix(Parse(re), text[i..])
      decreases |text| - t
    {
      var here := MatchHere(re, text[t..]);
      if here {
        return true;
      }
      if t == |text| {
        return false;
      }
      t := t + 1;
    }
  }
}
