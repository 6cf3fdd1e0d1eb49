/** user/grep.c: the matcher of Kernighan and Pike, against the language of its patterns. */
module Grep {
  type Text = seq<char>

  const NUL := '\0'

  /** A C string: no NUL inside, one after the end. */
  predicate CString(s: Text) {
    NUL !in s
  }

  function At(s: Text, i: nat): char {
    if i < |s| then s[i] else NUL
  }

  // ----- Patterns -----

  datatype Item = Lit(c: char) | Any | Star(c: char) | End

  /** A pattern read from left to right: `c*` before anything else, `$` only at the end. */
  function Parse(re: Text): (items: seq<Item>)
    ensures forall k :: 0 <= k < |items| && items[k].End? ==> k == |items| - 1
  {
    if re == [] then []
    else if At(re, 1) == '*' && |re| >= 2 then [Star(re[0])] + Parse(re[2..])
    else if re == ['$'] then [End]
    else [if re[0] == '.' then Any else Lit(re[0])] + Parse(re[1..])
  }

  function Form(item: Item): Text {
    match item
    case Lit(c) => [c]
    case Any => ['.']
    case Star(c) => [c, '*']
    case End => ['$']
  }

  /** The pattern of a list of items. */
  function Spelled(items: seq<Item>): Text {
    if items == [] then [] else Form(items[0]) + Spelled(items[1..])
  }

  /** The items that a pattern can ask for: `.` is no literal, nor is `$` at the end, and a `*`
      directly after a single character belongs to it. */
  predicate Askable(items: seq<Item>) {
    items != [] ==>
      && Askable(items[1..])
      && (items[0].Lit? ==> items[0].c != '.' && (items[0].c == '$' ==> |items| > 1))
      && (items[0].End? ==> |items| == 1)
      && ((items[0].Lit? || items[0].Any?) && |items| > 1 ==> items[1] != Lit('*') && items[1] != Star('*'))
  }

  /** Every list of items that a pattern can ask for is read back from its pattern. */
  lemma {:induction false} ParseSpelled(items: seq<Item>)
    requires Askable(items)
    ensures Parse(Spelled(items)) == items
  {
    if items != [] {
      var re, rest := Spelled(items), Spelled(items[1..]);
      ParseSpelled(items[1..]);
      assert re[|Form(items[0])|..] == rest;
      if |items| > 1 {
        assert rest == Form(items[1]) + Spelled(items[1..][1..]);
        assert !items[0].Star? ==> re[1] == Form(items[1])[0];
      } else {
        assert rest == [];
      }
    }
  }

  /** And every pattern is the one of the items that are read from it. */
  lemma {:induction false} SpelledParse(re: Text)
    ensures Askable(Parse(re)) && Spelled(Parse(re)) == re
  {
    if re == [] || re == ['$'] {
      assert Spelled([]) == [];
      if re == ['$'] { assert [End][1..] == []; }
    } else {
      var n := if |re| >= 2 && re[1] == '*' then 2 else 1;
      var items := Parse(re);
      SpelledParse(re[n..]);
      assert items[1..] == Parse(re[n..]);
      assert re == re[..n] + re[n..];
      assert Form(items[0]) == re[..n];
      if n == 1 && |items| > 1 { assert re[1] == re[n..][0] == Form(items[1])[0]; }
    }
  }

  predicate Repeats(c: char, w: Text) {
    c == '.' || forall k :: 0 <= k < |w| ==> w[k] == c
  }

  /** What one item can spell. */
  predicate Spells(item: Item, w: Text) {
    match item
    case Lit(c) => w == [c]
    case Any => |w| == 1
    case Star(c) => Repeats(c, w)
    case End => w == []
  }

  function Joined(ws: seq<Text>): Text {
    if ws == [] then [] else ws[0] + Joined(ws[1..])
  }

  /** `ws` cuts a beginning of `t` into one piece for each item; all of `t`, if `$` says so. */
  predicate Cut(items: seq<Item>, t: Text, ws: seq<Text>) {
    && |ws| == |items| && (forall k :: 0 <= k < |items| ==> Spells(items[k], ws[k]))
    && Joined(ws) <= t && (End in items ==> Joined(ws) == t)
  }

  /** The language: texts that begin with what the items spell. */
  ghost predicate Begins(items: seq<Item>, t: Text) {
    exists ws :: Cut(items, t, ws)
  }

  /** Where match may start: at the beginning after `^`, anywhere otherwise. */
  ghost predicate InLanguage(re: Text, text: Text) {
    if At(re, 0) == '^' && re != [] then Begins(Parse(re[1..]), text)
    else exists i :: 0 <= i <= |text| && BeginsAt(re, text, i)
  }

  ghost predicate BeginsAt(re: Text, text: Text, i: int) {
    0 <= i <= |text| && Begins(Parse(re), text[i..])
  }

  // ----- The language, item by item -----

  lemma BeginsEmpty(t: Text)
    ensures Begins([], t)
  {
    assert Cut([], t, []);
  }

  lemma BeginsEnd(t: Text)
    ensures Begins([End], t) <==> t == []
  {
    if t == [] {
      assert Cut([End], t, [[]]);
    }
    if Begins([End], t) {
      var ws :| Cut([End], t, ws);
      assert ws == [ws[0]] && [End][0] == End;
      assert Joined(ws[1..]) == [];
    }
  }

  lemma BeginsOne(item: Item, rest: seq<Item>, t: Text)
    requires item.Lit? || item.Any?
    ensures Begins([item] + rest, t) <==> t != [] && Spells(item, t[..1]) && Begins(rest, t[1..])
  {
    var items := [item] + rest;
    assert items[1..] == rest;
    if Begins(items, t) {
      var ws :| Cut(items, t, ws);
      TailCut(items, t, ws);
      assert t[..1] == ws[0];
    }
    if t != [] && Spells(item, t[..1]) && Begins(rest, t[1..]) {
      var ws :| Cut(rest, t[1..], ws);
      HeadCut(item, rest, t, t[..1], ws);
    }
  }

  lemma BeginsStar(c: char, rest: seq<Item>, t: Text)
    ensures Begins([Star(c)] + rest, t) <==>
            exists k :: 0 <= k <= |t| && StarTakes(c, rest, t, k)
  {
    var items := [Star(c)] + rest;
    assert items[1..] == rest;
    if Begins(items, t) {
      var ws :| Cut(items, t, ws);
      TailCut(items, t, ws);
      assert ws[0] == t[..|ws[0]|];
      assert StarTakes(c, rest, t, |ws[0]|);
    }
    if k :| 0 <= k <= |t| && StarTakes(c, rest, t, k) {
      var ws :| Cut(rest, t[k..], ws);
      HeadCut(Star(c), rest, t, t[..k], ws);
    }
  }

  /** The star takes `k` characters and the rest follows. */
  ghost predicate StarTakes(c: char, rest: seq<Item>, t: Text, k: int) {
    0 <= k <= |t| && Repeats(c, t[..k]) && Begins(rest, t[k..])
  }

  lemma TailCut(items: seq<Item>, t: Text, ws: seq<Text>)
    requires items != [] && Cut(items, t, ws) && !items[0].End?
    ensures ws[0] <= t && Spells(items[0], ws[0]) && Cut(items[1..], t[|ws[0]|..], ws[1..])
  {
    assert Joined(ws) == ws[0] + Joined(ws[1..]);
    assert ws[0] == t[..|ws[0]|];
    assert t == ws[0] + t[|ws[0]|..];
    forall k | 0 <= k < |items[1..]| ensures Spells(items[1..][k], ws[1..][k]) {
      assert Spells(items[k + 1], ws[k + 1]);
    }
  }

  lemma HeadCut(item: Item, rest: seq<Item>, t: Text, w: Text, ws: seq<Text>)
    requires w <= t && Spells(item, w) && !item.End? && Cut(rest, t[|w|..], ws)
    ensures Begins([item] + rest, t)
  {
    var all := [w] + ws;
    assert all[1..] == ws && t == w + t[|w|..];
    assert Cut([item] + rest, t, all);
  }

  // ----- The matcher -----

  /** grep.c:84-95. */
  method Matchhere(re: Text, text: Text) returns (r: bool)
    requires CString(re) && CString(text)
    ensures r <==> Begins(Parse(re), text)
    decreases |re|, |text|, 0
  {
    if At(re, 0) == NUL {
      BeginsEmpty(text);
      return true;
    }
    if At(re, 1) == '*' {
      r := Matchstar(re[0], re[2..], text);
      return;
    }
    if At(re, 0) == '$' && At(re, 1) == NUL {
      assert re == ['$'];
      BeginsEnd(text);
      return At(text, 0) == NUL;
    }
    assert re != ['$'];
    BeginsOne(if re[0] == '.' then Any else Lit(re[0]), Parse(re[1..]), text);
    if At(text, 0) != NUL && (re[0] == '.' || re[0] == text[0]) {
      r := Matchhere(re[1..], text[1..]);
      return;
    }
    return false;
  }

  /** grep.c:98-105: `c*re` at the beginning of the text. */
  method Matchstar(c: char, re: Text, text: Text) returns (r: bool)
    requires CString(re) && CString(text)
    ensures r <==> Begins([Star(c)] + Parse(re), text)
    decreases |re|, |text|, 1
  {
    BeginsStar(c, Parse(re), text);
    var i := 0;
    while true
      invariant 0 <= i <= |text| && Repeats(c, text[..i])
      invariant forall k :: 0 <= k < i ==> !StarTakes(c, Parse(re), text, k)
      decreases |text| - i
    {
      var here := Matchhere(re, text[i..]);
      if here {
        assert StarTakes(c, Parse(re), text, i);
        return true;
      }
      if At(text, i) == NUL || !(text[i] == c || c == '.') {
        forall k | i < k <= |text| ensures !StarTakes(c, Parse(re), text, k) {
          assert k > i ==> text[..k][i] == text[i];
        }
        return false;
      }
      i := i + 1;
    }
  }

  /** grep.c:71-81: some start of the text, or only its beginning after `^`, is in the language. */
  method Match(re: Text, text: Text) returns (r: bool)
    requires CString(re) && CString(text)
    ensures r <==> InLanguage(re, text)
  {
    if At(re, 0) == '^' {
      r := Matchhere(re[1..], text);
      return;
    }
    var i := 0;
    while true
      invariant 0 <= i <= |text|
      invariant forall k :: 0 <= k < i ==> !BeginsAt(re, text, k)
      decreases |text| - i
    {
      var here := Matchhere(re, text[i..]);
      if here {
        assert BeginsAt(re, text, i);
        return true;
      }
      if At(text, i) == NUL {
        return false;
      }
      i := i + 1;
    }
  }
}
