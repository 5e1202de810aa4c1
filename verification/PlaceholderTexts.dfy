/**
 * Texts with placeholders in them: which ones both readers can read, how they can be put
 * together and cut, and what passes that replace parts of them keep.
 */
module PlaceholderTexts {
  import opened Numbers
  import opened Options
  import opened Placeholders

  // ---------------------------------------------------------------------------------------
  // Texts with placeholders
  // ---------------------------------------------------------------------------------------

  /** What is never written into a placeholder. */
  predicate Foreign(c: char) {
    c == '\\' || c == '`' || c == ' '
  }

  predicate NothingForeign(s: string) {
    forall i :: 0 <= i < |s| ==> !Foreign(s[i])
  }

  predicate NoMark(s: string) {
    forall i :: 0 <= i < |s| ==> s[i] != MARK
  }

  /** What the program writes between two marks. */
  predicate Tidy(p: string) {
    NothingForeign(p) && |p| >= 2 && NoMark(p[1..|p| - 1])
  }

  predicate GoodKind(kind: string) {
    kind != "" && NoMark(kind) && NothingForeign(kind)
  }

  /** Every mark belongs to a tidy placeholder whose reference is good for a table of this size. */
  predicate Valid(s: string, tableSize: nat)
    decreases |s|
  {
    if s == "" then true
    else if s[0] != MARK then Valid(s[1..], tableSize)
    else
      && MatchAt(s).Some?
      && var m := MatchAt(s).value;
         Tidy(s[..m.length]) && Resolve(m.ref, tableSize).Some? && Valid(s[m.length..], tableSize)
  }

  /** On a valid text neither reader fails: no index is out of range. */
  lemma {:induction false} ValidIsReadable(s: string, table: seq<string>)
    requires Valid(s, |table|)
    ensures Restore(s, table).Some? && Items(s, |table|).Some?
    decreases |s|
  {
    ValidRestores(s, table);
    ReadersAgree(s, table);
  }

  lemma {:induction false} ValidRestores(s: string, table: seq<string>)
    requires Valid(s, |table|)
    ensures Restore(s, table).Some?
    decreases |s|
  {
    hide Resolve, Tidy;
    if s != "" {
      if s[0] == MARK {
        ValidRestores(s[MatchAt(s).value.length..], table);
      } else {
        ValidRestores(s[1..], table);
      }
    }
  }

  /** A larger table with the same beginning restores the same. */
  lemma {:induction false} LargerTable(s: string, table: seq<string>, more: seq<string>)
    requires Valid(s, |table|)
    ensures Valid(s, |table + more|) && Restore(s, table + more) == Restore(s, table)
    decreases |s|
  {
    hide Tidy;
    if s != "" {
      if s[0] == MARK {
        LargerTable(s[MatchAt(s).value.length..], table, more);
      } else {
        LargerTable(s[1..], table, more);
      }
    }
  }

  lemma {:induction false} IndexOfConcat(a: string, b: string, c: char)
    requires IndexOf(a, c) < |a|
    ensures IndexOf(a + b, c) == IndexOf(a, c)
  {
    if a[0] != c {
      assert (a + b)[1..] == a[1..] + b;
      IndexOfConcat(a[1..], b, c);
    }
  }

  lemma {:induction false} DigitsConcat(a: string, b: string)
    requires DigitsIn(a, 10) < |a|
    ensures DigitsIn(a + b, 10) == DigitsIn(a, 10)
  {
    hide DigitValue;
    if DigitValue(a[0]) < 10 {
      assert (a + b)[1..] == a[1..] + b;
      DigitsConcat(a[1..], b);
    }
  }

  lemma {:induction false} RefConcat(a: string, b: string)
    requires RefLength(a) < |a|
    ensures RefLength(a + b) == RefLength(a)
  {
    if a[0] == '#' {
      assert (a + b)[1..] == a[1..] + b;
      DigitsConcat(a[1..], b);
    } else {
      DigitsConcat(a, b);
    }
  }

  /** A placeholder is found whatever follows it. */
  lemma {:induction false} MatchConcat(a: string, b: string)
    requires MatchAt(a).Some?
    ensures MatchAt(a + b) == MatchAt(a)
  {
    hide RefLength, IndexOf;
    var s := a + b;
    assert s[2..] == a[2..] + b;
    RefConcat(a[2..], b);
    var k := 2 + RefLength(a[2..]);
    assert s[2..k] == a[2..k] && s[k..] == a[k..] + b && s[k..][2..] == a[k..][2..] + b;
    IndexOfConcat(a[k..][2..], b, MARK);
  }

  lemma {:induction false} IndexOfIs(s: string, c: char, n: nat)
    requires n < |s| && s[n] == c && forall i :: 0 <= i < n ==> s[i] != c
    ensures IndexOf(s, c) == n
  {
  }

  /** And its length is the length of what was put in. */
  lemma {:induction false} PlaceholderMatches(ref: string, kind: string)
    requires RefLength(ref + "@") == |ref| && kind != "" && NoMark(kind)
    ensures MatchAt(Placeholder(ref, kind)) == Some(Match(ref, |Placeholder(ref, kind)|))
  {
    hide RefLength, IndexOf;
    var s := Placeholder(ref, kind);
    assert s[2..] == (ref + "@") + (kind + [MARK]);
    RefConcat(ref + "@", kind + [MARK]);
    var rest := s[2 + |ref|..];
    assert rest == "@" + kind + [MARK] && s[2..2 + |ref|] == ref;
    assert rest[2..] == kind[1..] + [MARK];
    IndexOfIs(rest[2..], MARK, |kind| - 1);
  }

  /** Cutting a text right behind a placeholder. */
  lemma {:induction false} MatchCut(s: string)
    requires MatchAt(s).Some?
    ensures MatchAt(s[..MatchAt(s).value.length]) == MatchAt(s)
  {
    hide RefLength, IndexOf;
    var m := MatchAt(s).value;
    var p := s[..m.length];
    var k := 2 + |m.ref|;
    RefCut(s[2..], m.length - 2);
    assert p[2..] == s[2..][..m.length - 2];
    assert p[2..k] == s[2..k] && p[k..][2..] == s[k..][2..][..m.length - k - 2];
    IndexOfIs(p[k..][2..], MARK, m.length - k - 3);
  }

  lemma {:induction false} DigitsCut(s: string, n: nat)
    requires DigitsIn(s, 10) < n <= |s|
    ensures DigitsIn(s[..n], 10) == DigitsIn(s, 10)
  {
    hide DigitValue;
    if DigitValue(s[0]) < 10 {
      assert s[..n][1..] == s[1..][..n - 1];
      DigitsCut(s[1..], n - 1);
    }
  }

  lemma {:induction false} RefCut(s: string, n: nat)
    requires RefLength(s) < n <= |s|
    ensures RefLength(s[..n]) == RefLength(s)
  {
    if s[0] == '#' {
      assert s[..n][1..] == s[1..][..n - 1];
      DigitsCut(s[1..], n - 1);
    } else {
      DigitsCut(s, n);
    }
  }

  /** Valid texts can be put together, and are restored one after the other. */
  lemma {:induction false} ValidConcat(a: string, b: string, table: seq<string>)
    requires Valid(a, |table|) && Valid(b, |table|)
    ensures Valid(a + b, |table|) && Restore(a + b, table) == Cat(Restore(a, table), Restore(b, table))
    decreases |a|
  {
    hide MatchAt, Tidy, Resolve, RefText;
    if a == "" {
      assert a + b == b;
      CatAssociates(Restore(b, table), None, None);
    } else if a[0] == MARK {
      var m := MatchAt(a).value;
      MatchConcat(a, b);
      ValidConcat(a[m.length..], b, table);
      assert (a + b)[m.length..] == a[m.length..] + b && (a + b)[..m.length] == a[..m.length];
      CatAssociates(RefText(m.ref, table), Restore(a[m.length..], table), Restore(b, table));
    } else {
      ValidConcat(a[1..], b, table);
      assert (a + b)[1..] == a[1..] + b;
      NoMatch(a);
      NoMatch(a + b);
      CatAssociates(Some([a[0]]), Restore(a[1..], table), Restore(b, table));
    }
  }

  /** The placeholder at the front of one valid text in front of another. */
  lemma {:induction false} PlaceholderInFront(s: string, rest: string, tableSize: nat)
    requires Valid(s, tableSize) && Valid(rest, tableSize) && s != "" && s[0] == MARK
    ensures Valid(s[..MatchAt(s).value.length] + rest, tableSize)
  {
    hide MatchAt, Resolve, Tidy;
    var m := MatchAt(s).value;
    var p := s[..m.length];
    MatchCut(s);
    MatchConcat(p, rest);
    assert (p + rest)[m.length..] == rest && (p + rest)[..m.length] == p;
  }

  lemma {:induction false} NothingForeignInFront(s: string, tableSize: nat, k: nat)
    requires Valid(s, tableSize) && s != "" && s[0] == MARK && k < |s| && Foreign(s[k])
    ensures MatchAt(s).value.length <= k
  {
    hide MatchAt, Resolve, Foreign;
    var p := s[..MatchAt(s).value.length];
    forall i | 0 <= i < |p| ensures !Foreign(s[i]) {
      assert p[i] == s[i];
    }
  }

  /** A text can be cut in front of a character that no placeholder has in it. */
  lemma {:induction false} ValidCut(s: string, k: nat, tableSize: nat)
    requires Valid(s, tableSize) && k < |s| && Foreign(s[k])
    ensures Valid(s[..k], tableSize) && Valid(s[k..], tableSize)
    decreases |s|
  {
    hide MatchAt, Resolve, Tidy, Foreign;
    if k == 0 {
      assert s[..0] == "" && s[0..] == s;
    } else if s[0] == MARK {
      NothingForeignInFront(s, tableSize, k);
      var n := MatchAt(s).value.length;
      var rest := s[n..];
      ValidCut(rest, k - n, tableSize);
      PlaceholderInFront(s, rest[..k - n], tableSize);
      assert rest[k - n..] == s[k..] && s[..k] == s[..n] + rest[..k - n];
    } else {
      ValidCut(s[1..], k - 1, tableSize);
      assert s[1..][k - 1..] == s[k..] && s[..k][1..] == s[1..][..k - 1];
    }
  }

  lemma {:induction false} ValidDrop(s: string, k: nat, tableSize: nat)
    requires Valid(s, tableSize) && k <= |s| && NoMark(s[..k])
    ensures Valid(s[k..], tableSize)
  {
    if k == 0 {
      assert s[0..] == s;
    } else {
      assert s[0] == s[..k][0] && s[1..][..k - 1] == s[..k][1..] && s[1..][k - 1..] == s[k..];
      ValidDrop(s[1..], k - 1, tableSize);
    }
  }

  lemma {:induction false} NoMatch(s: string)
    requires s != "" && s[0] != MARK
    ensures MatchAt(s) == None
  {
  }

  /** A text without marks is valid, and restored as it is. */
  lemma {:induction false} UnmarkedIsItself(s: string, table: seq<string>)
    requires NoMark(s)
    ensures Valid(s, |table|) && Restore(s, table) == Some(s)
  {
    if s != "" {
      UnmarkedIsItself(s[1..], table);
      assert [s[0]] + s[1..] == s;
    }
  }

  lemma {:induction false} OnePlaceholder(ref: string, kind: string, table: seq<string>)
    requires RefLength(ref + "@") == |ref| && Resolve(ref, |table|).Some?
    requires GoodKind(kind) && NoMark(ref) && NothingForeign(ref)
    ensures Valid(Placeholder(ref, kind), |table|)
    ensures Restore(Placeholder(ref, kind), table) == RefText(ref, table)
  {
    hide MatchAt, Resolve, RefText, RefLength;
    var p := Placeholder(ref, kind);
    PlaceholderMatches(ref, kind);
    assert p[|p|..] == "" && p[..|p|] == p;
    CatAssociates(RefText(ref, table), None, None);
  }

  lemma {:induction false} RefOfNumber(d: string)
    requires IsNumber(d, 10)
    ensures RefLength(d + "@") == |d| && RefLength("#" + d + "@") == |d| + 1
  {
    DigitsBefore(d, "@", 10);
    assert ("#" + d + "@")[1..] == d + "@";
    assert (d + "@")[0] == d[0] && DigitValue(d[0]) < 10;
  }

  lemma {:induction false} NumberIsClean(d: string)
    requires IsNumber(d, 10)
    ensures NoMark(d) && NothingForeign(d) && d[0] != '#'
  {
    forall i | 0 <= i < |d| ensures d[i] != MARK && d[i] != '#' && !Foreign(d[i]) {
      assert DigitValue(d[i]) < 10;
    }
  }

  // ---------------------------------------------------------------------------------------
  // The passes that push replacements
  // ---------------------------------------------------------------------------------------

  /** A source cut into what a pass keeps and what it replaces. */
  datatype Part = Keep(text: string) | Replace(text: string, kind: string)

  function Source(parts: seq<Part>): string {
    if parts == [] then "" else parts[0].text + Source(parts[1..])
  }

  function Pushes(parts: seq<Part>): nat {
    if parts == [] then 0 else (if parts[0].Replace? then 1 else 0) + Pushes(parts[1..])
  }

  /** Every replacement is pushed as the placeholder with its index is written. */
  function Replaced(parts: seq<Part>, tableSize: nat): string {
    if parts == [] then ""
    else match parts[0]
      case Keep(text) => text + Replaced(parts[1..], tableSize)
      case Replace(_, kind) => Placeholder(Digits(tableSize, 10), kind) + Replaced(parts[1..], tableSize + 1)
  }

  /** The parts are not cut inside a placeholder. */
  predicate ValidParts(parts: seq<Part>, tableSize: nat) {
    forall k :: 0 <= k < |parts| ==> Valid(parts[k].text, tableSize) && (parts[k].Replace? ==> GoodKind(parts[k].kind))
  }

  /** `pushed` holds, for each part replaced, what it restores to. */
  predicate Faithful(parts: seq<Part>, table: seq<string>, pushed: seq<string>) {
    if parts == [] then pushed == []
    else if parts[0].Keep? then Faithful(parts[1..], table, pushed)
    else pushed != [] && Restore(parts[0].text, table) == Some(pushed[0]) && Faithful(parts[1..], table, pushed[1..])
  }

  lemma {:induction false} FreshPlaceholder(kind: string, n: nat, table: seq<string>)
    requires GoodKind(kind) && n < |table|
    ensures var p := Placeholder(Digits(n, 10), kind);
      Valid(p, |table|) && Restore(p, table) == Some(table[n])
  {
    hide Digits, Value, MatchAt, Restore, Valid, Placeholder, DigitValue;
    var d := Digits(n, 10);
    DigitsAreDigits(n, 10);
    DigitsReadBack(n, 10);
    RefOfNumber(d);
    NumberIsClean(d);
    OnePlaceholder(d, kind, table);
  }

  /**
   * A pass over a valid text: every index written is good for the table as it is when the pass
   * ends, and fresh.  If each replacement stands for what it replaced, restoring the new text
   * gives what restoring the old one gave.
   */
  lemma {:induction false} PassKeepsText(parts: seq<Part>, base: seq<string>, table: seq<string>, pushed: seq<string>)
    requires base <= table && ValidParts(parts, |base|) && |pushed| == Pushes(parts)
    ensures var all := table + pushed;
      && Valid(Source(parts), |base|) && Valid(Replaced(parts, |table|), |all|)
      && (Faithful(parts, base, pushed) ==> Restore(Replaced(parts, |table|), all) == Restore(Source(parts), base))
    decreases |parts|
  {
    hide Valid, Restore, Placeholder, GoodKind, Digits;
    var all := table + pushed;
    if parts == [] {
      assert all == table;
      UnmarkedIsItself("", all);
      UnmarkedIsItself("", base);
    } else {
      var part, rest := parts[0], parts[1..];
      assert forall k :: 0 <= k < |rest| ==> rest[k] == parts[k + 1];
      if part.Keep? {
        PassKeepsText(rest, base, table, pushed);
        KeepPart(part.text, Replaced(rest, |table|), Source(rest), base, all);
      } else {
        var first := [pushed[0]];
        assert table + pushed == (table + first) + pushed[1..];
        PassKeepsText(rest, base, table + first, pushed[1..]);
        ReplacePart(part, |table|, Replaced(rest, |table| + 1), Source(rest), base, all);
      }
    }
  }

  lemma {:induction false} KeepPart(text: string, after: string, before: string, base: seq<string>, all: seq<string>)
    requires base <= all && Valid(text, |base|) && Valid(before, |base|) && Valid(after, |all|)
    ensures Valid(text + before, |base|) && Valid(text + after, |all|)
    ensures Restore(after, all) == Restore(before, base) ==> Restore(text + after, all) == Restore(text + before, base)
  {
    hide Valid, Restore;
    LargerTable(text, base, all[|base|..]);
    assert base + all[|base|..] == all;
    ValidConcat(text, before, base);
    ValidConcat(text, after, all);
  }

  lemma {:induction false} ReplacePart(part: Part, n: nat, after: string, before: string, base: seq<string>,
                                       all: seq<string>)
    requires base <= all && part.Replace? && Valid(part.text, |base|) && GoodKind(part.kind)
    requires Valid(before, |base|) && Valid(after, |all|) && n < |all|
    ensures Valid(part.text + before, |base|) && Valid(Placeholder(Digits(n, 10), part.kind) + after, |all|)
    ensures Restore(after, all) == Restore(before, base) && Restore(part.text, base) == Some(all[n]) ==>
              Restore(Placeholder(Digits(n, 10), part.kind) + after, all) == Restore(part.text + before, base)
  {
    hide Valid, Restore, Placeholder, GoodKind, Digits;
    FreshPlaceholder(part.kind, n, all);
    ValidConcat(part.text, before, base);
    ValidConcat(Placeholder(Digits(n, 10), part.kind), after, all);
  }
}
