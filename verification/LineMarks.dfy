/**
 * What blocks take off the front of their lines: exactly, block by block, and what all of it has
 * in common.
 */
module LineMarks {
  import opened BlockLines
  import opened Options

  /** `t` is `s` without some of its leading spaces. */
  predicate SpacesOff(t: string, s: string) {
    |t| <= |s| && t == s[|s| - |t|..] && |s| - |t| <= LeadingSpaces(s)
  }

  /** `t` is `s` without `level` quote marks and the space behind them, if there is one. */
  predicate QuoteOff(t: string, s: string, level: nat) {
    var rest := AfterMarks(s, level);
    rest.Some? && t == if " " <= rest.value then rest.value[1..] else rest.value
  }

  /** A bullet, or a number and a dot. */
  predicate IsMarker(m: string) {
    || (|m| == 1 && IsBullet(m[0]))
    || (|m| >= 2 && m[|m| - 1] == '.' && forall i :: 0 <= i < |m| - 1 ==> IsDigit(m[i]))
  }

  /** The length of the marker that a line starts with, if a space follows it, or 0. */
  function MarkerAt(s: string): (n: nat)
    ensures n > 0 ==> n < |s| && IsMarker(s[..n]) && s[n] == ' '
  {
    var d := DigitRun(s);
    if |s| > 1 && IsBullet(s[0]) && s[1] == ' ' then 1
    else if d >= 1 && d + 1 < |s| && s[d] == '.' && s[d + 1] == ' ' then d + 1
    else 0
  }

  lemma {:induction false} MarkerIs(s: string, n: nat)
    requires n < |s| && IsMarker(s[..n]) && s[n] == ' '
    ensures MarkerAt(s) == n
  {
    assert s[..n][0] == s[0] && s[..n][n - 1] == s[n - 1];
    assert forall i :: 0 <= i < n ==> s[..n][i] == s[i];
  }

  /** `t` is `s` without its leading spaces, one marker, and some spaces behind it. */
  predicate ItemOff(t: string, s: string) {
    var u := s[LeadingSpaces(s)..];
    MarkerAt(u) > 0 && SpacesOff(t, u[MarkerAt(u)..])
  }

  /** What a block may take off: indentation, the marks of a quote, or an item marker. */
  datatype Front = Indent | QuoteMarks(level: nat) | ItemMarker

  predicate TakesOff(f: Front, t: string, s: string) {
    match f
    case Indent => SpacesOff(t, s)
    case QuoteMarks(level) => QuoteOff(t, s, level)
    case ItemMarker => SpacesOff(t, s) || ItemOff(t, s)
  }

  // ---------------------------------------------------------------------------------------
  // What the parsers take off
  // ---------------------------------------------------------------------------------------

  lemma {:induction false} SpacesAreOff(s: string, n: nat)
    requires n <= LeadingSpaces(s)
    ensures SpacesOff(s[n..], s)
  {
  }

  lemma {:induction false} DeepLineIsOff(s: string, n: nat)
    ensures AfterSpaces(s, n).Some? ==> SpacesOff(AfterSpaces(s, n).value, s)
  {
  }

  /** A continuation of a quote is the line less the marks of the quote. */
  lemma {:induction false} ContinuationTakesMarks(s: string, level: nat)
    ensures MatchContinuation(s, level).Some? <==> AfterMarks(s, level).Some?
    ensures MatchContinuation(s, level).Some? ==> QuoteOff(MatchContinuation(s, level).value, s, level)
  {
    var rest := AfterQuoteMark(s);
    if level > 0 && rest.Some? {
      ContinuationTakesMarks(rest.value, level - 1);
    }
  }

  /** So is the first line of a quote. */
  lemma {:induction false} QuoteTakesMarks(s: string)
    ensures MatchQuote(s).Some? ==> QuoteOff(MatchQuote(s).value.content, s, MatchQuote(s).value.level)
  {
    hide QuoteOff, MatchQuote;
    if MatchQuote(s).Some? {
      StartIsContinuation(s);
      ContinuationTakesMarks(s, MatchQuote(s).value.level);
    }
  }

  lemma {:induction false} BulletIsOff(s: string)
    ensures BulletContent(s).Some? ==> s != "" && s[0] == ' ' && SpacesOff(BulletContent(s).value, s)
  {
    hide SpacesOff, LeadingSpaces;
    var k := LeadingSpaces(s);
    SpacesAreOff(s, k);
    if k >= 1 {
      SpacesAreOff(s, k - 1);
    }
  }

  lemma {:induction false} NumberIsOff(s: string)
    ensures NumberContent(s).Some? ==> s != "" && s[0] == ' ' && SpacesOff(NumberContent(s).value, s)
  {
    hide SpacesOff, LeadingSpaces;
    var k := LeadingSpaces(s);
    if k >= 1 {
      SpacesAreOff(s, k);
      assert NumberContent(s) == Some(s[k..]);
    }
  }

  /** The text of an item is its line less one marker and the spaces around it. */
  lemma {:induction false} ItemTakesMarker(s: string, n: nat, kind: ListKind)
    ensures MatchItem(s, n, kind).Some? ==> ItemOff(MatchItem(s, n, kind).value, s)
  {
    hide SpacesOff, BulletContent, NumberContent, MarkerAt;
    if MatchItem(s, n, kind).Some? {
      var u := s[n..];
      match kind {
        case Bullets(mark) =>
          BulletIsOff(u[1..]);
          assert u[1..] == s[n + 1..] && u[1] == u[1..][0];
          MarkerIs(u, 1);
        case Numbers =>
          var d := DigitRun(u);
          NumberIsOff(u[d + 1..]);
          assert u[d + 1..] == s[n + d + 1..] && u[d + 1] == u[d + 1..][0];
          MarkerIs(u, d + 1);
      }
    }
  }

  // ---------------------------------------------------------------------------------------
  // Markup at the front of a line, whatever block it belongs to
  // ---------------------------------------------------------------------------------------

  /** The length of the mark that a line starts with: a space, a quote mark, or a marker. */
  function MarkAt(s: string): (n: nat)
    ensures n <= |s|
  {
    if s != "" && (s[0] == ' ' || s[0] == '>') then 1 else MarkerAt(s)
  }

  /** `t` is what is left of `s` after some marks at its front. */
  predicate LessMarks(t: string, s: string)
    decreases |s|
  {
    t == s || (MarkAt(s) > 0 && LessMarks(t, s[MarkAt(s)..]))
  }

  lemma {:induction false} LessIsSuffix(t: string, s: string)
    requires LessMarks(t, s)
    ensures |t| <= |s| && t == s[|s| - |t|..]
    decreases |s|
  {
    hide MarkAt;
    if t != s {
      LessIsSuffix(t, s[MarkAt(s)..]);
    }
  }

  lemma {:induction false} LessAndLess(a: string, b: string, s: string)
    requires LessMarks(a, b) && LessMarks(b, s)
    ensures LessMarks(a, s)
    decreases |s|
  {
    hide MarkAt;
    if b != s {
      LessAndLess(a, b, s[MarkAt(s)..]);
    }
  }

  lemma {:induction false} LessOne(t: string, s: string)
    requires MarkAt(s) > 0 && LessMarks(t, s[MarkAt(s)..])
    ensures LessMarks(t, s)
  {
  }

  lemma {:induction false} NextLeading(s: string)
    requires LeadingSpaces(s) > 0
    ensures LeadingSpaces(s[1..]) == LeadingSpaces(s) - 1 && MarkAt(s) == 1
  {
  }

  lemma {:induction false} LessLeading(s: string, n: nat)
    requires n <= LeadingSpaces(s)
    ensures LessMarks(s[n..], s)
  {
    hide LessMarks, LeadingSpaces, MarkAt;
    if n == 0 {
      assert s[0..] == s;
      LessNothing(s);
    } else {
      NextLeading(s);
      LessLeading(s[1..], n - 1);
      assert s[1..][n - 1..] == s[n..];
      LessOne(s[n..], s);
    }
  }

  lemma {:induction false} LessNothing(s: string)
    ensures LessMarks(s, s)
  {
  }

  lemma {:induction false} LessSpaces(t: string, s: string)
    requires SpacesOff(t, s)
    ensures LessMarks(t, s)
  {
    hide LessMarks;
    LessLeading(s, |s| - |t|);
  }

  lemma {:induction false} LessQuoteMark(s: string)
    requires AfterQuoteMark(s).Some?
    ensures LessMarks(AfterQuoteMark(s).value, s)
  {
    var n := LeadingSpaces(s);
    var u := s[n..];
    assert u[1..] == s[n + 1..] && MarkAt(u) == 1;
    LessOne(u[1..], u);
    LessLeading(s, n);
    LessAndLess(u[1..], u, s);
  }

  lemma {:induction false} LessQuote(s: string, level: nat)
    requires AfterMarks(s, level).Some?
    ensures LessMarks(AfterMarks(s, level).value, s)
    decreases level
  {
    hide LessMarks, AfterQuoteMark;
    if level == 0 {
      LessLeading(s, 0);
      assert s[0..] == s;
    } else {
      var rest := AfterQuoteMark(s).value;
      LessQuoteMark(s);
      LessQuote(rest, level - 1);
      LessAndLess(AfterMarks(s, level).value, rest, s);
    }
  }

  lemma {:induction false} LessItem(t: string, s: string)
    requires ItemOff(t, s)
    ensures LessMarks(t, s)
  {
    hide LessMarks, MarkerAt, SpacesOff;
    var u := s[LeadingSpaces(s)..];
    LessLeading(s, LeadingSpaces(s));
    LessSpaces(t, u[MarkerAt(u)..]);
    MarkerComesFirst(u);
    LessOne(t, u);
    LessAndLess(t, u, s);
  }

  lemma {:induction false} MarkerComesFirst(s: string)
    requires MarkerAt(s) > 0
    ensures MarkAt(s) == MarkerAt(s)
  {
    assert s[..MarkerAt(s)][0] == s[0];
  }

  /** Whatever a block takes off is made of marks. */
  lemma {:induction false} TakenIsMarks(f: Front, t: string, s: string)
    requires TakesOff(f, t, s)
    ensures LessMarks(t, s)
  {
    hide LessMarks, SpacesOff, ItemOff, AfterMarks;
    match f {
      case Indent => LessSpaces(t, s);
      case QuoteMarks(level) =>
        var rest := AfterMarks(s, level).value;
        LessQuote(s, level);
        if t != rest {
          OneSpace(rest);
          LessAndLess(t, rest, s);
        }
      case ItemMarker =>
        if SpacesOff(t, s) {
          LessSpaces(t, s);
        } else {
          LessItem(t, s);
        }
    }
  }

  lemma {:induction false} OneSpace(s: string)
    requires " " <= s
    ensures LessMarks(s[1..], s)
  {
    assert " "[0] == s[0];
    LessLeading(s, 1);
  }
}
