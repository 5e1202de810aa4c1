/**
 * The driver, in terms of lines: which lines become which block, what the block holds of each of
 * them, and what stays as it is.
 */
module BlockLayout {
  import opened BlockDriver
  import opened BlockKinds
  import opened BlockLines
  import opened BlockProofs
  import opened Blocks
  import opened LineReader
  import opened ListLayout
  import opened ListStarts
  import opened ListTrouble
  import opened Options
  import opened QuoteLayout

  /** Code lines and blank lines, one entry each, from the first to the last code line. */
  ghost predicate IsCode(ts: seq<Tok>, i: nat, j: nat, t: Tok)
    requires i <= j <= |ts|
  {
    && t.Code? && |t.lines| == j - i && t.lines != []
    && t.lines[0].Some? && t.lines[|t.lines| - 1].Some?
    && (forall k :: 0 <= k < |t.lines| ==>
          t.lines[k] == CodeLine(ts[i + k]) && (t.lines[k].None? ==> ts[i + k].Blank?))
    && forall k :: j <= k < |ts| && CodeLine(ts[k]).Some? ==> exists b :: j <= b < k && !BlankOrCode(ts[b])
  }

  ghost predicate IsHeader(ts: seq<Tok>, i: nat, j: nat, t: Tok)
    requires i <= j <= |ts|
  {
    && t.Header? && i < j && CanContainMarkup(ts[i])
    && (|| (IsHashLine(ts[i].text, t.level, t.text) && j == i + 1)
        || (!HasHashes(ts, i) && IsUnderlined(ts, i, t.level) && t.text == ts[i].text && j == i + 2))
  }

  /** A list, and not a false alarm. */
  ghost predicate AtRealList(ts: seq<Tok>, i: nat) {
    && AtList(ts, i)
    && var m := MatchList(ts[i].text).value;
       m.indent > 0 || SomeGrows(ts, Head(i + 1, m.indent, m.kind))
  }

  ghost predicate IsList(ts: seq<Tok>, i: nat, j: nat, t: Tok) {
    && t.List? && StartsAt(t.subs, i) && (t.paragraphs <==> i < |ts| && SomeParts(ts, ListHead(i, t)))
    && exists n :: 0 <= n && LaidOut(ts, i, n, StyleOfList(t), t.subs, j)
                   && AreOrdered(ts, i, n, StyleOfList(t), t.subs)
  }

  /** The kind of the block, the lines it is made of, and whether the next line is skipped. */
  ghost predicate IsBlock(ts: seq<Tok>, s: Span)
    requires s.from <= s.to <= |ts| && s.from < |ts|
  {
    if IsContainer(ts[s.from]) then s == Span(s.from, s.from + 1, ts[s.from], false)
    else if AtHeading(ts, s.from) then IsHeader(ts, s.from, s.to, s.block) && !s.skips
    else if AtRule(ts, s.from) then s == Span(s.from, s.from + 1, Rule, false)
    else if AtQuote(ts, s.from) then IsQuote(ts, s.from, s.block, s.to) && (s.skips <==> s.to < |ts|)
    else if AtCode(ts, s.from) then IsCode(ts, s.from, s.to, s.block) && (s.skips <==> s.to < |ts|)
    else if AtRealList(ts, s.from) then IsList(ts, s.from, s.to, s.block) && (s.skips <==> s.to < |ts|)
    else s == Span(s.from, s.from + 1, ts[s.from], false)
  }

  lemma {:induction false} CodeIsLaidOut(ts: seq<Tok>, i: nat)
    requires i < |ts|
    ensures var p := ParseCode(ts, i); p.Block? ==> i < p.next <= |ts| && IsCode(ts, i, p.next, p.value)
  {
    hide CodeLine, BlankOrCode;
    CodeRunLines(ts, i);
    var p := ParseCode(ts, i);
    if p.Block? {
      var r := CodeRun(ts, i);
      forall k | 0 <= k < |r| ensures r[k] == CodeLine(ts[i + k]) && (r[k].None? ==> ts[i + k].Blank?) {
        assert r[i + k - i] == CodeLine(ts[i + k]);
        IsOneOfBoth(ts[i + k]);
      }
      FirstIsCode(ts, i);
      forall k | p.next <= k < |ts| && CodeLine(ts[k]).Some?
        ensures exists b :: p.next <= b < k && !BlankOrCode(ts[b])
      {
        CodeRunIsLongest(ts, i, k);
      }
    }
  }

  lemma {:induction false} IsOneOfBoth(t: Tok)
    ensures BlankOrCode(t) <==> t.Blank? || CodeLine(t).Some?
  {
  }

  lemma {:induction false} FirstIsCode(ts: seq<Tok>, i: nat)
    requires i < |ts| && CodeRun(ts, i) != [] && !ts[i].Blank?
    ensures CodeRun(ts, i)[0].Some?
  {
    hide CodeLine;
  }

  lemma {:induction false} HeaderIsLaidOut(ts: seq<Tok>, i: nat)
    requires i < |ts|
    ensures var p := ParseHeader(ts, i);
      p.Block? ==> p.value.Header? && p.next < |ts| && IsHeader(ts, i, p.next + 1, p.value)
  {
    hide MatchHash, IsUnderline, IsHashLine, IsUnderlined, HasHashes, AtHeading;
    HeadingExactly(ts, i);
    var p := ParseHeader(ts, i);
    if p.Block? {
      HeaderExactly(ts, i, p.value.level, p.value.text, p.next);
    }
  }

  lemma {:induction false} ListIsWhole(ts: seq<Tok>, i: nat)
    requires i < |ts|
    ensures var p := ParseList(ts, i, false);
      && (p.Block? ==> AtRealList(ts, i) && p.next <= |ts| && IsList(ts, i, p.next, p.value))
      && (p.NoBlock? ==> !AtRealList(ts, i))
  {
    hide ParseList, SomeGrows, SomeParts, LaidOut, AreOrdered, StartsAt, MatchList, LeadingSpaces;
    ListNeedsLine(ts, i);
    ListIsLaidOut(ts, i, false);
    ItemsStartExactly(ts, i, false, i);
    ParagraphsExactly(ts, i, false);
    if AtList(ts, i) {
      ListLineStarts(ts[i].text);
      if !ParseList(ts, i, false).Undefined? {
        FalseAlarmExactly(ts, i, false);
      }
    }
  }

  /** What the first parser that answers has recognized. */
  lemma {:induction false} RecognizedIs(ts: seq<Tok>, i: nat)
    requires i < |ts|
    ensures var r := Recognize(ts, i);
      && (r.Block? && r.value.Header? ==> r.next < |ts| && IsHeader(ts, i, r.next + 1, r.value))
      && (r.Block? && r.value.Rule? ==> r.next == i)
      && (r.Block? && r.value.Quote? ==> IsQuote(ts, i, r.value, r.next))
      && (r.Block? && r.value.Code? ==> i <= r.next <= |ts| && IsCode(ts, i, r.next, r.value))
      && (r.Block? && r.value.List? ==> AtRealList(ts, i) && IsList(ts, i, r.next, r.value))
      && (r.NoBlock? ==> !AtRealList(ts, i))
  {
    hide ParseHeader, ParseList, ParseQuote, ParseCode, AtRealList, IsRule, IsHeader, IsQuote, IsCode, IsList;
    HeaderIsLaidOut(ts, i);
    QuoteIsLaidOut(ts, i);
    CodeIsLaidOut(ts, i);
    ListIsWhole(ts, i);
    KindsOfAnswers(ts, i);
  }

  lemma {:induction false} KindsOfAnswers(ts: seq<Tok>, i: nat)
    requires i < |ts|
    ensures ParseHeader(ts, i).Block? ==> ParseHeader(ts, i).value.Header?
    ensures ParseList(ts, i, false).Block? ==> ParseList(ts, i, false).value.List?
    ensures ParseQuote(ts, i).Block? ==> ParseQuote(ts, i).value.Quote?
    ensures ParseCode(ts, i).Block? ==> ParseCode(ts, i).value.Code?
  {
    ListNeedsLine(ts, i);
  }

  /** Every span of the driver is such a block. */
  lemma {:induction false} SpanIsLaidOut(ts: seq<Tok>, i: nat)
    requires i < |ts| && Defined(ts, i)
    ensures IsBlock(ts, SpanAt(ts, i))
  {
    hide Recognize, AtHeading, AtRealList, AtRule, AtQuote, AtCode, IsHeader, IsQuote, IsCode, IsList;
    KindExactly(ts, i);
    RecognizedIs(ts, i);
  }

  /** So are all spans of a run, and the driver returns one token for each of them. */
  lemma {:induction false} DriverIsLaidOut(ts: seq<Tok>, i: nat)
    requires i <= |ts| && DriveFrom(ts, i).Some?
    ensures var out, ss := DriveFrom(ts, i).value, Spans(ts, i);
      && |out| == |ss|
      && forall j :: 0 <= j < |ss| ==>
           ss[j].from < |ts| && ss[j].from <= ss[j].to <= |ts| && IsBlock(ts, ss[j])
           && Processed(ss[j].block) == Some(out[j])
    decreases |ts| - i
  {
    hide IsBlock, SpanAt, Processed, DriveFrom;
    DriverFollowsSpans(ts, i);
    if i < |ts| {
      DriveStep(ts, i);
      SpanIsLaidOut(ts, i);
      DriverIsLaidOut(ts, GoesOn(SpanAt(ts, i)));
    }
  }

  /** Working on the inside of a container leaves everything else of it alone. */
  lemma {:induction false} ProcessedKeeps(t: Tok)
    requires Processed(t).Some?
    ensures var p := Processed(t).value;
      match t
      case Quote(level, subs) => p == Quote(level, DriveFrom(subs, 0).value)
      case List(kind, paragraphs, indent, subs) => p == List(kind, paragraphs, indent, DriveFrom(subs, 0).value)
      case Item(at, subs) => p == Item(at, DriveFrom(subs, 0).value)
      case _ => p == t
  {
    hide DriveFrom;
  }

  /** The tokens of a document are its lines, and those that look blank are blank. */
  lemma {:induction false} TokensAreLines(lines: seq<string>, k: nat)
    requires k < |lines|
    ensures var t := LineTokens(lines)[k];
      |LineTokens(lines)| == |lines| && HasText(t) && TextOf(t) == lines[k]
      && (t.Blank? <==> IsBlankLine(lines[k])) && (t.Raw? <==> !IsBlankLine(lines[k]))
  {
    hide IsBlankLine;
  }
}
