/**
 * When the block pass fails, exactly: at some depth, a list comes to trouble, or a quote comes to
 * a container and asks it for its text.
 */
module BlockTrouble {
  import opened BlockDriver
  import opened BlockLines
  import opened BlockProofs
  import opened Blocks
  import opened ListTrouble
  import opened Options

  // ---------------------------------------------------------------------------------------
  // Quotes
  // ---------------------------------------------------------------------------------------

  /** A line of text that continues a quote of this level. */
  predicate Goes(t: Tok, level: nat) {
    HasText(t) && MatchContinuation(TextOf(t), level).Some?
  }

  /** From `i` to `k` there are only continuations, and blank lines with a continuation behind. */
  predicate QuoteUpTo(ts: seq<Tok>, i: nat, k: nat, level: nat)
    requires i <= k <= |ts|
    decreases k - i
  {
    if i == k then true
    else if ts[i].Blank? then i + 2 <= k && Goes(ts[i + 1], level) && QuoteUpTo(ts, i + 2, k, level)
    else Goes(ts[i], level) && QuoteUpTo(ts, i + 1, k, level)
  }

  /** A container, or a blank line with a container behind it. */
  predicate AsksContainer(ts: seq<Tok>, k: nat) {
    k < |ts| && LineAt(ts, k) < |ts| && IsContainer(ts[LineAt(ts, k)])
  }

  /** The quote from `i` on comes to a container. */
  ghost predicate QuoteTrouble(ts: seq<Tok>, i: nat, level: nat)
    requires i <= |ts|
  {
    exists k :: i <= k <= |ts| && QuoteUpTo(ts, i, k, level) && AsksContainer(ts, k)
  }

  /** The loop of a quote asks a token that has none for its text exactly in this case. */
  lemma {:induction false} QuoteFailsExactly(ts: seq<Tok>, i: nat, level: nat)
    requires i <= |ts|
    ensures QuoteRun(ts, i, level).Undefined? <==> QuoteTrouble(ts, i, level)
    decreases |ts| - i
  {
    hide MatchContinuation, TextOf, QuoteLine;
    if i < |ts| && AsksContainer(ts, i) {
      assert QuoteUpTo(ts, i, i, level);
    } else if i < |ts| {
      var n := LineAt(ts, i);
      if n < |ts| && Goes(ts[n], level) {
        QuoteFailsExactly(ts, n + 1, level);
        if QuoteTrouble(ts, n + 1, level) {
          var k :| n + 1 <= k <= |ts| && QuoteUpTo(ts, n + 1, k, level) && AsksContainer(ts, k);
          assert QuoteUpTo(ts, i, k, level);
        }
      }
    }
  }

  // ---------------------------------------------------------------------------------------
  // One block
  // ---------------------------------------------------------------------------------------

  /** The line is a heading, by hashes or by the line under it. */
  predicate IsHeading(ts: seq<Tok>, i: nat)
    requires i < |ts| && CanContainMarkup(ts[i])
  {
    MatchHash(ts[i].text).Some? || (i + 1 < |ts| && CanContainMarkup(ts[i + 1]) && IsUnderline(ts[i + 1].text))
  }

  /** The line starts a list, less than four spaces in, and the loop of the list comes to trouble. */
  ghost predicate ListInTrouble(ts: seq<Tok>, i: nat)
    requires i < |ts|
  {
    IsListLine(ts[i]) && MatchList(ts[i].text).value.indent < 4 && InTrouble(ts, FirstHead(ts, i))
  }

  /** The line starts a quote that comes to a container. */
  ghost predicate QuoteInTrouble(ts: seq<Tok>, i: nat)
    requires i < |ts| && CanContainMarkup(ts[i])
  {
    MatchQuote(ts[i].text).Some? && QuoteTrouble(ts, i + 1, MatchQuote(ts[i].text).value.level)
  }

  ghost predicate TroubleAt(ts: seq<Tok>, i: nat)
    requires i < |ts|
  {
    && CanContainMarkup(ts[i]) && !IsHeading(ts, i) && !IsRule(ts[i].text)
    && (ListInTrouble(ts, i) || QuoteInTrouble(ts, i))
  }

  /** A line does not start a quote and a list. */
  lemma {:induction false} QuoteIsNoList(s: string)
    requires MatchQuote(s).Some?
    ensures MatchList(s).None?
  {
    var n := LeadingSpaces(s);
    assert n < |s| && s[n] == '>' && s[n..][0] == '>';
  }

  lemma {:induction false} HeadingsAnswer(ts: seq<Tok>, i: nat)
    requires i < |ts| && CanContainMarkup(ts[i])
    ensures ParseHeader(ts, i).NoBlock? <==> !IsHeading(ts, i)
    ensures ParseRule(ts, i).NoBlock? <==> !IsRule(ts[i].text)
  {
    hide MatchHash, IsUnderline, IsRule;
  }

  lemma {:induction false} QuoteAnswers(ts: seq<Tok>, i: nat)
    requires i < |ts| && CanContainMarkup(ts[i])
    ensures ParseQuote(ts, i).Undefined? <==> QuoteInTrouble(ts, i)
    ensures MatchQuote(ts[i].text).Some? ==> ParseList(ts, i, false) == NoBlock
  {
    hide QuoteRun, MatchQuote, QuoteTrouble, MatchList, ListRun;
    if MatchQuote(ts[i].text).Some? {
      QuoteFailsExactly(ts, i + 1, MatchQuote(ts[i].text).value.level);
      QuoteIsNoList(ts[i].text);
    }
  }

  /** A parser fails at position `i` if and only if there is trouble of one of the two kinds. */
  lemma {:induction false} RecognizeFailsExactly(ts: seq<Tok>, i: nat)
    requires i < |ts|
    ensures Recognize(ts, i).Undefined? <==> TroubleAt(ts, i)
  {
    hide ParseHeader, ParseRule, ParseList, ParseQuote, MatchList, MatchQuote, IsRule, InTrouble, QuoteTrouble,
         IsHeading, CodeRun;
    if CanContainMarkup(ts[i]) {
      HeadingsAnswer(ts, i);
      ListFailsExactly(ts, i, false);
      QuoteAnswers(ts, i);
    } else {
      NoMarkup(ts, i);
    }
  }

  lemma {:induction false} NoMarkup(ts: seq<Tok>, i: nat)
    requires i < |ts| && !CanContainMarkup(ts[i])
    ensures ParseHeader(ts, i) == NoBlock && ParseRule(ts, i) == NoBlock && ParseList(ts, i, false) == NoBlock
    ensures ParseQuote(ts, i) == NoBlock
  {
  }

  // ---------------------------------------------------------------------------------------
  // All depths
  // ---------------------------------------------------------------------------------------

  /** From position `i` on, or inside a block from there on, there is trouble. */
  ghost predicate DriverTrouble(ts: seq<Tok>, i: nat)
    requires i <= |ts|
    decreases CharsOf(ts), SizeOf(ts), |ts| - i
  {
    if i == |ts| then false
    else if TroubleAt(ts, i) then true
    else
      NoTroubleIsDefined(ts, i);
      var s := SpanAt(ts, i);
      || (IsContainer(s.block) && (InsideMeasure(ts, i); DriverTrouble(s.block.subs, 0)))
      || DriverTrouble(ts, GoesOn(s))
  }

  lemma {:induction false} NoTroubleIsDefined(ts: seq<Tok>, i: nat)
    requires i < |ts| && !TroubleAt(ts, i)
    ensures Defined(ts, i) && i < GoesOn(SpanAt(ts, i)) <= |ts|
  {
    hide Recognize, TroubleAt;
    RecognizeFailsExactly(ts, i);
    SpanAdvances(ts, i);
  }

  /** The driver, one span at a time. */
  lemma {:induction false} DriveBySpan(ts: seq<Tok>, i: nat)
    requires i < |ts| && Defined(ts, i)
    ensures var s := SpanAt(ts, i);
      && i < GoesOn(s) <= |ts|
      && (DriveFrom(ts, i).Some? <==> Processed(s.block).Some? && DriveFrom(ts, GoesOn(s)).Some?)
  {
    hide Recognize;
    SpanAdvances(ts, i);
  }

  lemma {:induction false} InsideProcessed(t: Tok)
    ensures Processed(t).Some? <==> !IsContainer(t) || DriveFrom(t.subs, 0).Some?
  {
  }

  lemma {:induction false} TroubleIsUndefined(ts: seq<Tok>, i: nat)
    requires i < |ts| && TroubleAt(ts, i)
    ensures DriveFrom(ts, i) == None
  {
    hide Recognize, ListInTrouble, QuoteInTrouble, IsHeading, IsRule;
    RecognizeFailsExactly(ts, i);
  }

  lemma {:induction false} DrivenAtEnd(ts: seq<Tok>)
    ensures DriveFrom(ts, |ts|) == Some([])
  {
  }

  /**
   * The block pass fails if and only if, at some depth, a line that is no heading and no rule
   * starts a list that comes to trouble, or a quote that comes to a container.
   */
  lemma {:induction false} DriverFailsExactly(ts: seq<Tok>, i: nat)
    requires i <= |ts|
    ensures DriveFrom(ts, i).None? <==> DriverTrouble(ts, i)
    decreases CharsOf(ts), SizeOf(ts), |ts| - i
  {
    hide SpanAt, Defined, DriveFrom, Processed, TroubleAt, CharsOf, SizeOf;
    if i == |ts| {
      DrivenAtEnd(ts);
    } else if TroubleAt(ts, i) {
      TroubleIsUndefined(ts, i);
    } else {
      NoTroubleIsDefined(ts, i);
      DriveBySpan(ts, i);
      var s := SpanAt(ts, i);
      DriverFailsExactly(ts, GoesOn(s));
      InsideProcessed(s.block);
      if IsContainer(s.block) {
        InsideMeasure(ts, i);
        DriverFailsExactly(s.block.subs, 0);
      }
    }
  }
}
