/** What a quote is made of: one token for each of its lines, blank lines included. */
module QuoteLayout {
  import opened BlockLines
  import opened Blocks
  import opened LineMarks
  import opened Options

  /** A blank line of the quote that starts at `i`; the line behind it is text whatever it looks like. */
  predicate Gap(ts: seq<Tok>, i: nat, k: nat)
    requires i <= k < |ts|
    decreases k - i
  {
    k > i && ts[k].Blank? && !Gap(ts, i, k - 1)
  }

  /**
   * The token for the line at `k`: an empty line for a gap, and else what is left of the line,
   * which is blank when it looks so, but not right behind a gap.
   */
  predicate IsLine(ts: seq<Tok>, i: nat, k: nat, level: nat, t: Tok)
    requires i < k < |ts|
  {
    if Gap(ts, i, k) then t == Blank("")
    else
      && HasText(ts[k]) && (t.Raw? || t.Blank?) && QuoteOff(t.text, TextOf(ts[k]), level)
      && (t.Blank? <==> !Gap(ts, i, k - 1) && IsBlankLine(t.text))
  }

  /** The text at `k`, or behind the blank line at `k`, has fewer marks than the quote. */
  predicate EndsAt(ts: seq<Tok>, k: nat, level: nat)
    requires k < |ts|
  {
    var line := if ts[k].Blank? then k + 1 else k;
    line < |ts| ==> HasText(ts[line]) && AfterMarks(TextOf(ts[line]), level).None?
  }

  /** Only a blank line at the very end is taken along without a token. */
  predicate QuoteEnds(ts: seq<Tok>, n: nat, level: nat, next: nat) {
    if n < |ts| then EndsAt(ts, n, level) && next == (if ts[n].Blank? && n + 1 == |ts| then n + 1 else n)
    else n == |ts| == next
  }

  /** One token for each line from `j` on. */
  predicate AreLines(ts: seq<Tok>, i: nat, j: nat, level: nat, subs: seq<Tok>)
    requires i < j
  {
    j + |subs| <= |ts| && forall m :: 0 <= m < |subs| ==> IsLine(ts, i, j + m, level, subs[m])
  }

  lemma {:induction false} OneLine(ts: seq<Tok>, i: nat, k: nat, level: nat)
    requires i < k < |ts| && !Gap(ts, i, k) && HasText(ts[k]) && MatchContinuation(TextOf(ts[k]), level).Some?
    ensures var c := MatchContinuation(TextOf(ts[k]), level).value;
      IsLine(ts, i, k, level, if Gap(ts, i, k - 1) then Raw(c) else QuoteLine(c))
  {
    hide MatchContinuation, QuoteOff, IsBlankLine, Gap;
    ContinuationTakesMarks(TextOf(ts[k]), level);
  }

  lemma {:induction false} LinesJoin(ts: seq<Tok>, i: nat, j: nat, level: nat, a: seq<Tok>, b: seq<Tok>)
    requires i < j && AreLines(ts, i, j, level, a) && AreLines(ts, i, j + |a|, level, b)
    ensures AreLines(ts, i, j, level, a + b)
  {
    hide IsLine;
    forall m | 0 <= m < |a + b| ensures IsLine(ts, i, j + m, level, (a + b)[m]) {
      if m >= |a| {
        assert (a + b)[m] == b[m - |a|];
      }
    }
  }

  lemma {:induction false} RunIsLaidOut(ts: seq<Tok>, i: nat, j: nat, level: nat)
    requires i < j <= |ts| && !Gap(ts, i, j - 1)
    ensures var r := QuoteRun(ts, j, level);
      r.Block? ==>
        && AreLines(ts, i, j, level, r.value)
        && j + |r.value| <= |ts|
        && !Gap(ts, i, j + |r.value| - 1) && QuoteEnds(ts, j + |r.value|, level, r.next)
    decreases |ts| - j
  {
    hide MatchContinuation, AfterMarks, AreLines, TextOf, QuoteLine, Gap;
    var r := QuoteRun(ts, j, level);
    NoLines(ts, i, j, level);
    if j < |ts| && r.Block? {
      var line := if ts[j].Blank? then j + 1 else j;
      if line < |ts| {
        ContinuationTakesMarks(TextOf(ts[line]), level);
        if MatchContinuation(TextOf(ts[line]), level).Some? {
          TakenLines(ts, i, j, level);
          RunIsLaidOut(ts, i, line + 1, level);
          var c := MatchContinuation(TextOf(ts[line]), level).value;
          var rest := QuoteRun(ts, line + 1, level).value;
          LinesJoin(ts, i, j, level, if line > j then [Blank(""), Raw(c)] else [QuoteLine(c)], rest);
        }
      }
    }
  }

  lemma {:induction false} NoLines(ts: seq<Tok>, i: nat, j: nat, level: nat)
    requires i < j <= |ts|
    ensures AreLines(ts, i, j, level, [])
  {
  }

  /** The line or the two lines that one turn of the loop takes. */
  lemma {:induction false} TakenLines(ts: seq<Tok>, i: nat, j: nat, level: nat)
    requires i < j < |ts| && !Gap(ts, i, j - 1)
    requires var line := if ts[j].Blank? then j + 1 else j;
      line < |ts| && HasText(ts[line]) && MatchContinuation(TextOf(ts[line]), level).Some?
    ensures var line := if ts[j].Blank? then j + 1 else j;
      && !Gap(ts, i, line)
      && var c := MatchContinuation(TextOf(ts[line]), level).value;
         AreLines(ts, i, j, level, if line > j then [Blank(""), Raw(c)] else [QuoteLine(c)])
  {
    hide MatchContinuation, TextOf, QuoteLine, QuoteOff;
    OneLine(ts, i, if ts[j].Blank? then j + 1 else j, level);
  }

  ghost predicate IsQuote(ts: seq<Tok>, i: nat, t: Tok, next: nat)
    requires i < |ts|
  {
    && t.Quote? && t.subs != [] && i + |t.subs| <= |ts| && CanContainMarkup(ts[i])
    && t.subs[0].Raw? && MatchQuote(ts[i].text) == Some(QuoteStart(t.level, t.subs[0].text))
    && AreLines(ts, i, i + 1, t.level, t.subs[1..])
    && !Gap(ts, i, i + |t.subs| - 1) && QuoteEnds(ts, i + |t.subs|, t.level, next)
  }

  /**
   * A quote has its own first line, and then one token for each line it takes, less only a blank
   * line at the very end; and it goes on as far as the marks go.
   */
  lemma {:induction false} QuoteIsLaidOut(ts: seq<Tok>, i: nat)
    requires i < |ts|
    ensures var p := ParseQuote(ts, i);
      p.Block? ==> IsQuote(ts, i, p.value, p.next)
  {
    hide MatchQuote, QuoteRun, Gap, AreLines, QuoteEnds;
    var p := ParseQuote(ts, i);
    if p.Block? {
      var m := MatchQuote(ts[i].text).value;
      FirstIsNoGap(ts, i);
      RunIsLaidOut(ts, i, i + 1, m.level);
      assert p.value.subs[1..] == QuoteRun(ts, i + 1, m.level).value;
    }
  }

  lemma {:induction false} FirstIsNoGap(ts: seq<Tok>, i: nat)
    requires i < |ts|
    ensures !Gap(ts, i, i)
  {
  }
}
