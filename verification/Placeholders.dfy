/**
 * Placeholders: while a paragraph is processed, what has been recognized is replaced by
 * `\x01@ref@kind\x01`, where `ref` is an index into a table of replacements or, after a number
 * sign, an index into the escaped characters.  Two readers turn placeholders back.
 */
module Placeholders {
  import opened Numbers
  import opened Options
  import opened Sequences

  const MARK := '\U{0001}'

  const ESCAPED := "\\`*_{}[]()#+-.!>"

  function IndexOf(s: string, c: char): (n: nat)
    ensures n <= |s| && (forall i :: 0 <= i < n ==> s[i] != c) && (n < |s| ==> s[n] == c)
  {
    if s == "" || s[0] == c then 0 else 1 + IndexOf(s[1..], c)
  }

  function IsEscapedCharacter(c: char): (r: Option<nat>)
    ensures r.Some? ==> r.value < |ESCAPED| && ESCAPED[r.value] == c
  {
    if IndexOf(ESCAPED, c) < |ESCAPED| then Some(IndexOf(ESCAPED, c)) else None
  }

  function Placeholder(ref: string, kind: string): string {
    [MARK] + "@" + ref + "@" + kind + [MARK]
  }

  // ---------------------------------------------------------------------------------------
  // Finding placeholders
  // ---------------------------------------------------------------------------------------

  datatype Match = Match(ref: string, length: nat)

  /** The length of `#?[0-9]*` at the front of `s`. */
  function RefLength(s: string): (n: nat)
    ensures n <= |s|
  {
    if s != "" && s[0] == '#' then 1 + DigitsIn(s[1..], 10) else DigitsIn(s, 10)
  }

  /** `\x01@(#?[0-9]*)@.+?\x01` at the front of `s`. */
  function MatchAt(s: string): (r: Option<Match>)
    ensures r.Some? ==> s != "" && s[0] == MARK && 4 < r.value.length <= |s|
  {
    if |s| < 2 || s[0] != MARK || s[1] != '@' then None
    else
      var ref := s[2..2 + RefLength(s[2..])];
      var rest := s[2 + |ref|..];
      if |rest| < 2 || rest[0] != '@' then None
      else
        var k := IndexOf(rest[2..], MARK);
        if k == |rest[2..]| then None else Some(Match(ref, 2 + |ref| + 2 + k + 1))
  }

  /** The first position where a placeholder starts, or the length. */
  function Search(s: string): (n: nat)
    ensures n <= |s| && (n < |s| ==> MatchAt(s[n..]).Some?)
  {
    if s == "" || MatchAt(s).Some? then
      assert s[0..] == s;
      0
    else
      assert forall n :: 0 <= n <= |s| - 1 ==> s[1..][n..] == s[n + 1..];
      1 + Search(s[1..])
  }

  // ---------------------------------------------------------------------------------------
  // The two readers
  // ---------------------------------------------------------------------------------------

  /** What a reference stands for.  Other references make the program throw, or read outside a table. */
  datatype Item = Plain(text: string) | EscapedCharacter(c: char) | Replacement(n: nat)

  function Resolve(ref: string, tableSize: nat): Option<seq<Item>> {
    if ref == "" then Some([])
    else if ref[0] == '#' then
      if ref[1..] != "" && Value(ref[1..], 10) < |ESCAPED| then
        Some([EscapedCharacter(ESCAPED[Value(ref[1..], 10)])])
      else None
    else if Value(ref, 10) < tableSize then Some([Replacement(Value(ref, 10))])
    else None
  }

  /** An item as it was in the source. */
  function Original(item: Item, table: seq<string>): string
    requires item.Replacement? ==> item.n < |table|
  {
    match item
    case Plain(text) => text
    case EscapedCharacter(c) => ['\\', c]
    case Replacement(n) => table[n]
  }

  function Cat(a: Option<string>, b: Option<string>): Option<string> {
    if a.Some? && b.Some? then Some(a.value + b.value) else None
  }

  function RefText(ref: string, table: seq<string>): Option<string> {
    match Resolve(ref, |table|)
    case None => None
    case Some(items) => Some(if items == [] then "" else Original(items[0], table))
  }

  /** The text with every placeholder put back; `table` holds the replacements as they were. */
  function Restore(s: string, table: seq<string>): Option<string>
    decreases |s|
  {
    if s == "" then Some("")
    else match MatchAt(s)
      case Some(m) => Cat(RefText(m.ref, table), Restore(s[m.length..], table))
      case None => Cat(Some([s[0]]), Restore(s[1..], table))
  }

  lemma {:induction false} CatAssociates(a: Option<string>, b: Option<string>, c: Option<string>)
    ensures Cat(Cat(a, b), c) == Cat(a, Cat(b, c))
    ensures Cat(Some(""), a) == a && Cat(a, Some("")) == a
  {
    if a.Some? {
      assert "" + a.value == a.value && a.value + "" == a.value;
      if b.Some? && c.Some? {
        assert a.value + b.value + c.value == a.value + (b.value + c.value);
      }
    }
  }

  /** The text up to a position, then the placeholder there, then the rest. */
  function RestoredAt(s: string, n: nat, table: seq<string>): Option<string>
    requires n <= |s| && (n < |s| ==> MatchAt(s[n..]).Some?)
  {
    if n == |s| then Some(s)
    else
      var m := MatchAt(s[n..]).value;
      Cat(Some(s[..n]), Cat(RefText(m.ref, table), Restore(s[n + m.length..], table)))
  }

  lemma {:induction false} OneMoreBefore(s: string, n: nat, table: seq<string>)
    requires 0 < n <= |s| && (n < |s| ==> MatchAt(s[n..]).Some?)
    ensures n < |s| ==> MatchAt(s[1..][n - 1..]).Some?
    ensures RestoredAt(s, n, table) == Cat(Some([s[0]]), RestoredAt(s[1..], n - 1, table))
  {
    hide MatchAt, RefText, Restore;
    assert s[1..][n - 1..] == s[n..];
    if n < |s| {
      var m := MatchAt(s[n..]).value;
      assert s[1..][n - 1 + m.length..] == s[n + m.length..];
      var rest := Cat(RefText(m.ref, table), Restore(s[n + m.length..], table));
      CatAssociates(Some([s[0]]), Some(s[1..][..n - 1]), rest);
      assert s[..n] == [s[0]] + s[1..][..n - 1];
    } else {
      assert s == [s[0]] + s[1..];
    }
  }

  /** Restoring, one placeholder at a time. */
  lemma {:induction false} RestoreFromSearch(s: string, table: seq<string>)
    ensures Restore(s, table) == RestoredAt(s, Search(s), table)
    decreases |s|
  {
    hide MatchAt, RefText, Cat;
    if s != "" && MatchAt(s).None? {
      RestoreFromSearch(s[1..], table);
      OneMoreBefore(s, Search(s), table);
    } else if s != "" {
      assert s[0..] == s && s[..0] == "";
      CatAssociates(Restore(s, table), None, None);
    }
  }

  /** The tokens that the other reader makes. */
  function Items(s: string, tableSize: nat): Option<seq<Item>>
    decreases |s|
  {
    var n := Search(s);
    if n == |s| then Some(if s == "" then [] else [Plain(s)])
    else
      var m := MatchAt(s[n..]).value;
      var here, rest := Resolve(m.ref, tableSize), Items(s[n + m.length..], tableSize);
      if here.None? || rest.None? then None
      else Some((if n == 0 then [] else [Plain(s[..n])]) + here.value + rest.value)
  }

  predicate InTable(items: seq<Item>, tableSize: nat) {
    forall i :: 0 <= i < |items| && items[i].Replacement? ==> items[i].n < tableSize
  }

  function Originals(items: seq<Item>, table: seq<string>): string
    requires InTable(items, |table|)
  {
    if items == [] then "" else Original(items[0], table) + Originals(items[1..], table)
  }

  lemma {:induction false} OriginalsConcat(a: seq<Item>, b: seq<Item>, table: seq<string>)
    requires InTable(a, |table|) && InTable(b, |table|)
    ensures InTable(a + b, |table|) && Originals(a + b, table) == Originals(a, table) + Originals(b, table)
  {
    hide Original;
    if a == [] {
      assert a + b == b;
    } else {
      var x, rest := Original(a[0], table), a[1..];
      assert InTable(rest, |table|);
      OriginalsConcat(rest, b, table);
      assert a + b == [a[0]] + (rest + b) && (a + b)[1..] == rest + b;
      Regroup(x, Originals(rest, table), Originals(b, table));
    }
  }

  /**
   * The two readers agree on every text: one fails where the other does, and else the tokens read
   * back as the restored text.
   */
  lemma {:induction false} ReadersAgree(s: string, table: seq<string>)
    ensures match Items(s, |table|)
      case None => Restore(s, table) == None
      case Some(items) => InTable(items, |table|) && Restore(s, table) == Some(Originals(items, table))
    decreases |s|
  {
    hide MatchAt, Search, Restore, Resolve, Originals, InTable, Items;
    var n := Search(s);
    RestoreFromSearch(s, table);
    ItemsStep(s, |table|);
    if n == |s| {
      PlainText(s, table);
    } else {
      var m := MatchAt(s[n..]).value;
      ReadersAgree(s[n + m.length..], table);
      PlainText(s[..n], table);
      RefOriginal(m.ref, table);
      var here, rest := Resolve(m.ref, |table|), Items(s[n + m.length..], |table|);
      if here.Some? && rest.Some? {
        var pre := if n == 0 then [] else [Plain(s[..n])];
        assert n == 0 ==> s[..n] == "";
        OriginalsConcat(pre, here.value, table);
        OriginalsConcat(pre + here.value, rest.value, table);
        CatAssociates(Some(s[..n]), RefText(m.ref, table), Restore(s[n + m.length..], table));
      }
    }
  }

  lemma {:induction false} ItemsStep(s: string, tableSize: nat)
    ensures var n := Search(s);
      if n == |s| then Items(s, tableSize) == Some(if s == "" then [] else [Plain(s)])
      else
        var m := MatchAt(s[n..]).value;
        var here, rest := Resolve(m.ref, tableSize), Items(s[n + m.length..], tableSize);
        Items(s, tableSize) ==
          if here.None? || rest.None? then None
          else Some((if n == 0 then [] else [Plain(s[..n])]) + here.value + rest.value)
  {
    hide MatchAt, Search, Resolve;
  }

  /** The token for text that has no placeholder, if there is any text. */
  lemma {:induction false} PlainText(s: string, table: seq<string>)
    ensures var items := if s == "" then [] else [Plain(s)];
      InTable(items, |table|) && Originals(items, table) == s
  {
    OneOriginal(Plain(s), table);
  }

  lemma {:induction false} OneOriginal(item: Item, table: seq<string>)
    requires item.Replacement? ==> item.n < |table|
    ensures Originals([], table) == "" && Originals([item], table) == Original(item, table)
  {
    assert [item][1..] == [];
    assert Original(item, table) + "" == Original(item, table);
  }

  lemma {:induction false} RefOriginal(ref: string, table: seq<string>)
    ensures match Resolve(ref, |table|)
      case None => RefText(ref, table) == None
      case Some(items) => InTable(items, |table|) && RefText(ref, table) == Some(Originals(items, table))
  {
    var r := Resolve(ref, |table|);
    if r.Some? && r.value != [] {
      assert r.value[1..] == [];
      OneOriginal(r.value[0], table);
    }
  }

  // ---------------------------------------------------------------------------------------
  // The two readers, as loops
  // ---------------------------------------------------------------------------------------

  method RestoreProcessedItems(src: string, table: seq<string>) returns (r: Option<string>)
    ensures r == Restore(src, table)
  {
    hide Restore, Search, MatchAt, Resolve;
    var out, prev := "", 0;
    assert src[0..] == src;
    CatAssociates(Restore(src, table), None, None);
    while true
      invariant prev <= |src|
      invariant Restore(src, table) == Cat(Some(out), Restore(src[prev..], table))
      decreases |src| - prev
    {
      var rest := src[prev..];
      RestoreFromSearch(rest, table);
      var n := Search(rest);
      if n == |rest| {
        return Some(out + rest);
      }
      var m := MatchAt(rest[n..]).value;
      var pre := rest[..n];
      assert rest[n + m.length..] == src[prev + n + m.length..];
      var restored := RefText(m.ref, table);
      if restored.None? {
        return None;
      }
      CatAssociates(Some(out), Some(pre), Cat(restored, Restore(rest[n + m.length..], table)));
      CatAssociates(Some(out + pre), restored, Restore(rest[n + m.length..], table));
      out := out + pre + restored.value;
      prev := prev + n + m.length;
    }
  }

  method EncodeProcessedItems(src: string, tableSize: nat) returns (r: Option<seq<Item>>)
    ensures r == Items(src, tableSize)
  {
    hide Items, Search, MatchAt, Resolve;
    var out, prev := [], 0;
    assert src[0..] == src;
    AfterNothing(Items(src, tableSize));
    while true
      invariant prev <= |src|
      invariant Items(src, tableSize) == After(out, Items(src[prev..], tableSize))
      decreases |src| - prev
    {
      var rest := src[prev..];
      ItemsFromSearch(rest, tableSize);
      var n := Search(rest);
      if n == |rest| {
        if rest != "" {
          out := out + [Plain(rest)];
        } else {
          assert out + [] == out;
        }
        return Some(out);
      }
      var m := MatchAt(rest[n..]).value;
      assert rest[n + m.length..] == src[prev + n + m.length..];
      var here := Resolve(m.ref, tableSize);
      if here.None? {
        return None;
      }
      ghost var pre := if n == 0 then [] else [Plain(rest[..n])];
      AfterBoth(out, pre + here.value, Items(rest[n + m.length..], tableSize));
      assert out + (pre + here.value) == out + pre + here.value;
      if n > 0 {
        out := out + [Plain(rest[..n])];
      } else {
        assert out + [] == out;
      }
      out := out + here.value;
      prev := prev + n + m.length;
    }
  }

  function After(out: seq<Item>, rest: Option<seq<Item>>): Option<seq<Item>> {
    if rest.Some? then Some(out + rest.value) else None
  }

  lemma {:induction false} AfterNothing(rest: Option<seq<Item>>)
    ensures After([], rest) == rest
  {
    assert rest.Some? ==> [] + rest.value == rest.value;
  }

  lemma {:induction false} AfterBoth(a: seq<Item>, b: seq<Item>, rest: Option<seq<Item>>)
    ensures After(a, After(b, rest)) == After(a + b, rest)
  {
    assert rest.Some? ==> a + (b + rest.value) == a + b + rest.value;
  }

  lemma {:induction false} ItemsFromSearch(s: string, tableSize: nat)
    ensures var n := Search(s);
      Items(s, tableSize) ==
        if n == |s| then Some(if s == "" then [] else [Plain(s)])
        else
          var m := MatchAt(s[n..]).value;
          var here := Resolve(m.ref, tableSize);
          if here.None? then None
          else After((if n == 0 then [] else [Plain(s[..n])]) + here.value, Items(s[n + m.length..], tableSize))
  {
    hide Search, MatchAt, Resolve;
  }
}
