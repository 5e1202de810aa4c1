/** Backslash escapes: a placeholder for each, and back. */
module Escapes {
  import opened Numbers
  import opened Options
  import opened PlaceholderTexts
  import opened Placeholders
  import opened Sequences

  function EscapeCode(e: nat): string {
    Placeholder("#" + Digits(e, 10), "escaped")
  }

  /** A backslash and a character that can be escaped become a placeholder; others stay. */
  function Escape(s: string): string {
    if s == "" then ""
    else if s[0] != '\\' then [s[0]] + Escape(s[1..])
    else if |s| == 1 then "\\"
    else match IsEscapedCharacter(s[1])
      case Some(e) => EscapeCode(e) + Escape(s[2..])
      case None => ['\\', s[1]] + Escape(s[2..])
  }

  lemma {:induction false} UpToBackslash(s: string)
    ensures var n := IndexOf(s, '\\'); Escape(s) == s[..n] + Escape(s[n..])
  {
    hide Escape;
    var n := IndexOf(s, '\\');
    if n == 0 {
      assert s[..0] == "" && s[0..] == s && "" + Escape(s) == Escape(s);
    } else {
      UpToBackslash(s[1..]);
      NoBackslash(s);
      assert s[1..][n - 1..] == s[n..] && s[..n] == [s[0]] + s[1..][..n - 1];
    }
  }

  lemma {:induction false} NoBackslash(s: string)
    requires s != "" && s[0] != '\\'
    ensures Escape(s) == [s[0]] + Escape(s[1..])
  {
  }

  method ProcessEscapedCharacters(src: string) returns (tgt: string)
    ensures tgt == Escape(src)
  {
    hide Escape, EscapeCode, IsEscapedCharacter, IndexOf;
    tgt := "";
    var prev := 0;
    assert src[0..] == src;
    while true
      invariant prev <= |src|
      invariant Escape(src) == tgt + Escape(src[prev..])
      decreases |src| - prev
    {
      var rest := src[prev..];
      var i := IndexOf(rest, '\\');
      EscapeFrom(tgt, rest);
      tgt := tgt + rest[..i];
      if i == |rest| {
        return;
      }
      if i + 1 == |rest| {
        return tgt + "\\";
      }
      var e := IsEscapedCharacter(rest[i + 1]);
      if e.Some? {
        tgt := tgt + EscapeCode(e.value);
      } else {
        tgt := tgt + ['\\', rest[i + 1]];
      }
      assert rest[i + 2..] == src[prev + i + 2..];
      prev := prev + i + 2;
    }
  }

  lemma {:induction false} EscapeAt(s: string)
    requires s == "" || s[0] == '\\'
    ensures |s| < 2 ==> Escape(s) == s
    ensures |s| >= 2 ==> Escape(s) == EscapePair(s[1]) + Escape(s[2..])
  {
  }

  /** The text up to the first backslash, then what it and the character behind it become. */
  lemma {:induction false} EscapeFrom(tgt: string, s: string)
    ensures var n := IndexOf(s, '\\');
      && (n == |s| ==> tgt + Escape(s) == tgt + s[..n])
      && (n + 1 == |s| ==> tgt + Escape(s) == tgt + s[..n] + "\\")
      && (n + 2 <= |s| ==> tgt + Escape(s) == tgt + s[..n] + EscapePair(s[n + 1]) + Escape(s[n + 2..]))
  {
    hide Escape, EscapePair, IndexOf;
    var n := IndexOf(s, '\\');
    UpToBackslash(s);
    EscapeAt(s[n..]);
    if n == |s| {
      assert s[n..] == "" && s[..n] + "" == s[..n];
    } else if n + 1 == |s| {
      assert s[n..] == "\\";
      Regroup(tgt, s[..n], "\\");
    } else {
      assert s[n..][1] == s[n + 1] && s[n..][2..] == s[n + 2..];
      var pair, rest := EscapePair(s[n + 1]), Escape(s[n + 2..]);
      Regroup(tgt, s[..n], pair + rest);
      Regroup(tgt + s[..n], pair, rest);
    }
  }

  /** What a backslash and `c` become. */
  function EscapePair(c: char): string {
    match IsEscapedCharacter(c)
    case Some(e) => EscapeCode(e)
    case None => ['\\', c]
  }

  // ---------------------------------------------------------------------------------------
  // Escaping keeps what will be restored
  // ---------------------------------------------------------------------------------------

  lemma {:induction false} CodeOfEscape(c: char, table: seq<string>)
    requires IsEscapedCharacter(c).Some?
    ensures var p := EscapeCode(IsEscapedCharacter(c).value);
      Valid(p, |table|) && Restore(p, table) == Some(['\\', c])
  {
    hide Digits, Resolve, RefText, Restore, Valid, Placeholder, RefLength, IsEscapedCharacter, IsNumber;
    var e := IsEscapedCharacter(c).value;
    var d := Digits(e, 10);
    DigitsAreDigits(e, 10);
    RefOfNumber(d);
    NumberIsClean(d);
    RefOfEscape(e, table);
    OnePlaceholder("#" + d, "escaped", table);
  }

  lemma {:induction false} RefOfEscape(e: nat, table: seq<string>)
    requires e < |ESCAPED|
    ensures var ref := "#" + Digits(e, 10);
      Resolve(ref, |table|).Some? && RefText(ref, table) == Some(['\\', ESCAPED[e]])
  {
    hide Digits, Value;
    DigitsReadBack(e, 10);
    var ref := "#" + Digits(e, 10);
    assert ref[1..] == Digits(e, 10) && ref[0] == '#';
    var item := EscapedCharacter(ESCAPED[e]);
    assert Resolve(ref, |table|) == Some([item]) && [item][0] == item;
  }

  lemma {:induction false} NoBackslashStays(p: string, s: string)
    requires NothingForeign(p)
    ensures Escape(p + s) == p + Escape(s)
  {
    hide EscapeCode, IsEscapedCharacter;
    if p == "" {
      assert p + s == s && p + Escape(s) == Escape(s);
    } else {
      assert p == [p[0]] + p[1..] && (p + s)[1..] == p[1..] + s;
      NoBackslashStays(p[1..], s);
    }
  }

  /** Where no pair is replaced, one character goes over. */
  lemma {:induction false} EscapeStep(s: string)
    requires s != "" && (s[0] == '\\' && |s| > 1 ==> IsEscapedCharacter(s[1]).None?)
    ensures Escape(s) == [s[0]] + Escape(s[1..])
  {
    hide EscapeCode;
    if s[0] == '\\' && |s| > 1 {
      BackslashCanBeEscaped();
      assert s[1..][0] != '\\' && s[1..][1..] == s[2..];
    }
  }

  lemma {:induction false} BackslashCanBeEscaped()
    ensures IsEscapedCharacter('\\').Some?
  {
  }

  lemma {:induction false} MarkIsNotEscaped()
    ensures IsEscapedCharacter(MARK).None?
  {
    hide IndexOf;
    assert forall i :: 0 <= i < |ESCAPED| ==> ESCAPED[i] != MARK;
  }

  /** Escapes can be put in front of placeholders and behind them: the text restored is the same. */
  lemma {:induction false} EscapingKeepsText(s: string, table: seq<string>)
    requires Valid(s, |table|)
    ensures Valid(Escape(s), |table|) && Restore(Escape(s), table) == Restore(s, table)
    decreases |s|
  {
    hide MatchAt, Resolve, RefText, Tidy, EscapeCode, IsEscapedCharacter, Escape;
    if s == "" {
      EscapeAt(s);
    } else if s[0] == MARK {
      EscapingKeepsPlaceholder(s, table);
    } else if s[0] == '\\' && |s| > 1 && IsEscapedCharacter(s[1]).Some? {
      EscapingKeepsPair(s, table);
    } else {
      EscapeStep(s);
      EscapingKeepsText(s[1..], table);
      var t := Escape(s);
      assert t[1..] == Escape(s[1..]);
      NoMatch(s);
      NoMatch(t);
    }
  }

  lemma {:induction false} EscapingKeepsPlaceholder(s: string, table: seq<string>)
    requires Valid(s, |table|) && s != "" && s[0] == MARK
    ensures Valid(Escape(s), |table|) && Restore(Escape(s), table) == Restore(s, table)
    decreases |s|, 0
  {
    hide MatchAt, Resolve, RefText, Escape;
    var m := MatchAt(s).value;
    var p, rest := s[..m.length], s[m.length..];
    assert s == p + rest;
    NoBackslashStays(p, rest);
    EscapingKeepsText(rest, table);
    MatchCut(s);
    MatchConcat(p, Escape(rest));
    var t := p + Escape(rest);
    assert t[m.length..] == Escape(rest) && t[..m.length] == p;
  }

  lemma {:induction false} EscapingKeepsPair(s: string, table: seq<string>)
    requires Valid(s, |table|) && |s| > 1 && s[0] == '\\' && IsEscapedCharacter(s[1]).Some?
    ensures Valid(Escape(s), |table|) && Restore(Escape(s), table) == Restore(s, table)
    decreases |s|, 0
  {
    hide MatchAt, Resolve, RefText, Tidy, EscapeCode, IsEscapedCharacter, Escape;
    var rest := s[2..];
    MarkIsNotEscaped();
    assert s[1..][1..] == rest;
    assert Valid(s[1..], |table|) && Valid(rest, |table|);
    EscapeAt(s);
    CodeOfEscape(s[1], table);
    EscapingKeepsText(rest, table);
    ValidConcat(EscapeCode(IsEscapedCharacter(s[1]).value), Escape(rest), table);
    NoMatch(s);
    NoMatch(s[1..]);
    CatAssociates(Some([s[0]]), Some([s[1]]), Restore(rest, table));
    assert [s[0]] + [s[1]] == ['\\', s[1]];
  }

  /** On a text without marks, restoring undoes escaping, and the tokens read back as the text. */
  lemma {:induction false} RestoreUndoesEscape(s: string, table: seq<string>)
    requires NoMark(s)
    ensures Restore(Escape(s), table) == Some(s)
    ensures match Items(Escape(s), |table|)
      case None => false
      case Some(items) => InTable(items, |table|) && Originals(items, table) == s
  {
    UnmarkedIsItself(s, table);
    EscapingKeepsText(s, table);
    ReadersAgree(Escape(s), table);
  }

  // ---------------------------------------------------------------------------------------
  // Which characters can be escaped
  // ---------------------------------------------------------------------------------------

  const ESCAPABLE := {'\\', '`', '*', '_', '{', '}', '[', ']', '(', ')', '#', '+', '-', '.', '!', '>'}

  lemma {:induction false} EscapableExactly(c: char)
    ensures IsEscapedCharacter(c).Some? <==> c in ESCAPABLE
  {
    assert forall i :: 0 <= i < |ESCAPED| ==> ESCAPED[i] in ESCAPABLE;
    if c in ESCAPABLE {
      assert c in ESCAPED;
    }
  }

  /** A backslash and a character that is not in this set stay as they are. */
  lemma {:induction false} EscapesExactly(c: char, s: string)
    ensures Escape(['\\', c] + s) == ['\\', c] + Escape(s) <==> c !in ESCAPABLE
    ensures c in ESCAPABLE ==>
      exists n: nat :: Escape(['\\', c] + s) == Placeholder("#" + Digits(n, 10), "escaped") + Escape(s)
  {
    hide IsEscapedCharacter, Digits;
    EscapableExactly(c);
    assert (['\\', c] + s)[2..] == s;
    var e := IsEscapedCharacter(c);
    if e.Some? {
      assert EscapeCode(e.value)[0] == MARK;
    }
  }
}
