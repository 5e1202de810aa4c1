/**
 * The driver that turns the lines of a container into blocks, and the blocks' own lines into
 * blocks in turn.  It is total because every quote and list holds fewer characters than the
 * lines it came from.  What it does to the lines of one container is stated exactly.
 */
module BlockDriver {
  import opened BlockLines
  import opened Blocks
  import opened BlockProofs
  import opened BlockText
  import opened Options

  function Size(t: Tok): nat
    decreases t, 0
  {
    match t
    case Quote(_, subs) => 1 + SizeOf(subs)
    case List(_, _, _, subs) => 1 + SizeOf(subs)
    case Item(_, subs) => 1 + SizeOf(subs)
    case _ => 1
  }

  function SizeOf(ts: seq<Tok>): nat
    decreases ts, 0
  {
    if ts == [] then 0 else Size(ts[0]) + SizeOf(ts[1..])
  }

  lemma {:induction false} MemberMeasure(ts: seq<Tok>, i: nat)
    requires i < |ts|
    ensures Chars(ts[i]) <= CharsOf(ts) && Size(ts[i]) <= SizeOf(ts)
    ensures CharsFrom(ts, i) <= CharsOf(ts)
  {
    if i > 0 {
      MemberMeasure(ts[1..], i - 1);
      CharsFromStart(ts[1..], i - 1);
      assert ts[1..][i - 1..] == ts[i..];
    }
    CharsFromStart(ts, i);
    assert i == 0 ==> ts[i..] == ts;
  }

  lemma {:induction false} RecognizedShrinks(ts: seq<Tok>, i: nat)
    requires i < |ts|
    ensures var p := Recognize(ts, i); p.Block? && IsContainer(p.value) ==> Chars(p.value) < CharsOf(ts)
  {
    MemberMeasure(ts, i);
    ListLosesChars(ts, i, false);
    QuoteLosesChars(ts, i);
  }

  function Prefix(t: Option<Tok>, rest: Option<seq<Tok>>): Option<seq<Tok>> {
    if t.None? || rest.None? then None else Some([t.value] + rest.value)
  }

  /** The blocks of the tokens from position `i` on; `None` if a parser is undefined. */
  function DriveFrom(ts: seq<Tok>, i: nat): Option<seq<Tok>>
    requires i <= |ts|
    decreases CharsOf(ts), SizeOf(ts), |ts| - i
  {
    if i == |ts| then Some([])
    else if IsContainer(ts[i]) then
      MemberMeasure(ts, i);
      Prefix(DriveInside(ts[i]), DriveFrom(ts, i + 1))
    else match Recognize(ts, i)
      case Undefined => None
      case NoBlock => Prefix(Some(ts[i]), DriveFrom(ts, i + 1))
      case Block(t, next) =>
        RecognizedShrinks(ts, i);
        Prefix(if IsContainer(t) then DriveInside(t) else Some(t),
               if next == |ts| then Some([]) else DriveFrom(ts, next + 1))
  }

  /** A container whose tokens have become blocks. */
  function DriveInside(t: Tok): (r: Option<Tok>)
    requires IsContainer(t)
    decreases Chars(t), Size(t), 0
  {
    match DriveFrom(t.subs, 0)
    case None => None
    case Some(subs) => Some(t.(subs := subs))
  }

  /** The token that a block becomes. */
  function Processed(t: Tok): Option<Tok> {
    if IsContainer(t) then DriveInside(t) else Some(t)
  }

  // ---------------------------------------------------------------------------------------
  // Which lines go where
  // ---------------------------------------------------------------------------------------

  /** No parser is undefined here. */
  predicate Defined(ts: seq<Tok>, i: nat)
    requires i < |ts|
  {
    IsContainer(ts[i]) || !Recognize(ts, i).Undefined?
  }

  /** Headers and rules leave the iterator on their last line; the other parsers leave it past theirs. */
  predicate LeavesOnLastLine(t: Tok) {
    t.Header? || t.Rule?
  }

  /**
   * The positions from `from` up to `to` become the one token `block`.  `skips` is set when the
   * increment of the driver's loop then passes over position `to` as well.
   */
  datatype Span = Span(from: nat, to: nat, block: Tok, skips: bool)

  function SpanAt(ts: seq<Tok>, i: nat): (s: Span)
    requires i < |ts| && Defined(ts, i)
    ensures s.from == i && i <= s.to <= |ts| && (s.skips ==> s.to < |ts|)
  {
    if IsContainer(ts[i]) then Span(i, i + 1, ts[i], false)
    else
      var p := Recognize(ts, i);
      if !p.Block? then Span(i, i + 1, ts[i], false)
      else if LeavesOnLastLine(p.value) && p.next < |ts| then Span(i, p.next + 1, p.value, false)
      else Span(i, p.next, p.value, p.next < |ts|)
  }

  function GoesOn(s: Span): nat {
    if s.skips then s.to + 1 else s.to
  }

  lemma {:induction false} SpanAdvances(ts: seq<Tok>, i: nat)
    requires i < |ts| && Defined(ts, i)
    ensures i < SpanAt(ts, i).to
  {
    if HasText(ts[i]) {
      CodeRunLines(ts, i);
    }
  }

  lemma {:induction false} DriveStep(ts: seq<Tok>, i: nat)
    requires i < |ts| && DriveFrom(ts, i).Some?
    ensures Defined(ts, i)
    ensures var g := GoesOn(SpanAt(ts, i));
      i < g <= |ts| && DriveFrom(ts, i) == Prefix(Processed(SpanAt(ts, i).block), DriveFrom(ts, g))
  {
    hide Recognize;
    SpanAdvances(ts, i);
  }

  lemma {:induction false} InsideMeasure(ts: seq<Tok>, i: nat)
    requires i < |ts| && Defined(ts, i) && IsContainer(SpanAt(ts, i).block)
    ensures var subs := SpanAt(ts, i).block.subs;
      CharsOf(subs) <= CharsOf(ts) && (CharsOf(subs) == CharsOf(ts) ==> SizeOf(subs) < SizeOf(ts))
  {
    hide Recognize;
    MemberMeasure(ts, i);
    RecognizedShrinks(ts, i);
  }

  /** The spans of the tokens from position `i` on. */
  function Spans(ts: seq<Tok>, i: nat): seq<Span>
    requires i <= |ts| && DriveFrom(ts, i).Some?
    decreases |ts| - i
  {
    if i == |ts| then []
    else
      DriveStep(ts, i);
      [SpanAt(ts, i)] + Spans(ts, GoesOn(SpanAt(ts, i)))
  }

  /** What the driver returns: one token for each span, in order. */
  lemma {:induction false} DriverFollowsSpans(ts: seq<Tok>, i: nat)
    requires i <= |ts| && DriveFrom(ts, i).Some?
    ensures var out, ss := DriveFrom(ts, i).value, Spans(ts, i);
      |out| == |ss| && forall j :: 0 <= j < |ss| ==> Some(out[j]) == Processed(ss[j].block)
    decreases |ts| - i
  {
    hide SpanAt, Processed;
    if i < |ts| {
      DriveStep(ts, i);
      DriverFollowsSpans(ts, GoesOn(SpanAt(ts, i)));
    }
  }

  /** What follows a block at position `k` is no part of it: a line of this kind breaks it off. */
  predicate Interrupts(block: Tok, line: Tok) {
    match block
    case Code(_) => CodeLine(line).None?
    case Quote(level, _) => HasText(line) && MatchContinuation(TextOf(line), level).None?
    case List(kind, _, indent, _) =>
      HasText(line) ==>
        && !StartsSublist(TextOf(line), indent) && MatchItem(TextOf(line), indent, kind).None?
        && MatchList(TextOf(line)).Some?
    case _ => false
  }

  lemma {:induction false} CodeStops(ts: seq<Tok>, i: nat)
    requires i <= |ts|
    ensures var k := i + |CodeRun(ts, i)|; k < |ts| && !ts[k].Blank? ==> CodeLine(ts[k]).None?
    decreases |ts| - i
  {
    hide CodeLine;
    if i < |ts| && BlankOrCode(ts[i]) {
      CodeStops(ts, i + 1);
    }
  }

  lemma {:induction false} QuoteStops(ts: seq<Tok>, i: nat, level: nat)
    requires i <= |ts|
    ensures var r := QuoteRun(ts, i, level);
      r.Block? && r.next < |ts| && !ts[r.next].Blank? ==>
        HasText(ts[r.next]) && MatchContinuation(TextOf(ts[r.next]), level).None?
    decreases |ts| - i
  {
    hide MatchContinuation, TextOf, HasText;
    if i < |ts| {
      if ts[i].Blank? {
        if i + 1 < |ts| && HasText(ts[i + 1]) && MatchContinuation(TextOf(ts[i + 1]), level).Some? {
          QuoteStops(ts, i + 2, level);
        }
      } else if HasText(ts[i]) && MatchContinuation(TextOf(ts[i]), level).Some? {
        QuoteStops(ts, i + 1, level);
      }
    }
  }

  lemma {:induction false} TurnStops(ts: seq<Tok>, i: nat, indent: nat, kind: ListKind, s: Items)
    requires i < |ts|
    ensures var t := ListTurn(ts, i, indent, kind, s);
      t.Stop? && t.next < |ts| && !ts[t.next].Blank? ==>
        (HasText(ts[t.next]) ==>
          && !StartsSublist(TextOf(ts[t.next]), indent) && MatchItem(TextOf(ts[t.next]), indent, kind).None?
          && MatchList(TextOf(ts[t.next])).Some?)
  {
    hide TakeSublist, NestedCode, StartsSublist, MatchItem, MatchList, AfterSpaces, ContinuedAfterBlank,
         AllSpaces, TextOf;
  }

  lemma {:induction false} ListStops(ts: seq<Tok>, i: nat, indent: nat, kind: ListKind, s: Items)
    requires i <= |ts|
    ensures var r := ListRun(ts, i, indent, kind, s);
      r.Block? && r.next < |ts| && !ts[r.next].Blank? ==>
        (HasText(ts[r.next]) ==>
          && !StartsSublist(TextOf(ts[r.next]), indent) && MatchItem(TextOf(ts[r.next]), indent, kind).None?
          && MatchList(TextOf(ts[r.next])).Some?)
    decreases |ts| - i
  {
    hide ListTurn, StartsSublist, MatchItem, MatchList, TextOf;
    if i < |ts| {
      TurnStops(ts, i, indent, kind, s);
      var t := ListTurn(ts, i, indent, kind, s);
      if t.Go? {
        ListStops(ts, t.next, indent, kind, t.items);
      }
    }
  }

  /** A line that is skipped and not blank breaks off the block before it. */
  lemma {:induction false} SkippedInterrupts(ts: seq<Tok>, i: nat)
    requires i < |ts| && Defined(ts, i) && SpanAt(ts, i).skips && !ts[SpanAt(ts, i).to].Blank?
    ensures Interrupts(SpanAt(ts, i).block, ts[SpanAt(ts, i).to])
  {
    hide ListRun, QuoteRun, CodeRun, StartsSublist, MatchItem, MatchList, MatchHash, MatchQuote,
         MatchContinuation, TextOf;
    CodeStops(ts, i);
    if CanContainMarkup(ts[i]) {
      if MatchQuote(ts[i].text).Some? {
        QuoteStops(ts, i + 1, MatchQuote(ts[i].text).value.level);
      }
      if MatchList(ts[i].text).Some? {
        var m := MatchList(ts[i].text).value;
        ListStops(ts, i + 1, m.indent, m.kind, Items([], i, [Raw(m.content)], 1, false));
      }
    }
  }

  /** A line that breaks off a block made of lines is skipped. */
  lemma {:induction false} InterruptingIsSkipped(ts: seq<Tok>, i: nat)
    requires i < |ts| && Defined(ts, i) && CanContainMarkup(ts[i])
    requires var s := SpanAt(ts, i); s.to < |ts| && Interrupts(s.block, ts[s.to])
    ensures SpanAt(ts, i).skips
  {
    hide Recognize, CodeLine, StartsSublist, MatchItem, MatchList, MatchContinuation, TextOf;
  }

  lemma {:induction false} OnlyLinesSkip(ts: seq<Tok>, i: nat)
    requires i < |ts| && Defined(ts, i) && SpanAt(ts, i).skips
    ensures CanContainMarkup(ts[i])
  {
    hide ListRun, QuoteRun, MatchList, MatchHash, MatchQuote;
  }

  /** How many spans hold position `k`, and how many skip it. */
  function Covers(ss: seq<Span>, k: nat): nat {
    if ss == [] then 0 else (if ss[0].from <= k < ss[0].to then 1 else 0) + Covers(ss[1..], k)
  }

  function Skips(ss: seq<Span>, k: nat): nat {
    if ss == [] then 0 else (if ss[0].skips && ss[0].to == k then 1 else 0) + Skips(ss[1..], k)
  }

  lemma {:induction false} NothingBefore(ts: seq<Tok>, i: nat, k: nat)
    requires k < i <= |ts| && DriveFrom(ts, i).Some?
    ensures Covers(Spans(ts, i), k) == 0 && Skips(Spans(ts, i), k) == 0
    decreases |ts| - i
  {
    hide SpanAt, DriveFrom;
    if i < |ts| {
      DriveStep(ts, i);
      NothingBefore(ts, GoesOn(SpanAt(ts, i)), k);
    }
  }

  /** A block made of lines, right in front of position `k`, that the token at `k` breaks off. */
  predicate BrokenAt(ts: seq<Tok>, s: Span, k: nat)
    requires k < |ts|
  {
    s.from < |ts| && CanContainMarkup(ts[s.from]) && s.to == k && Interrupts(s.block, ts[k])
  }

  predicate BreaksOff(ts: seq<Tok>, ss: seq<Span>, k: nat)
    requires k < |ts|
  {
    exists j :: 0 <= j < |ss| && BrokenAt(ts, ss[j], k)
  }

  lemma {:induction false} BreaksFirstOrLater(ts: seq<Tok>, ss: seq<Span>, k: nat)
    requires k < |ts| && ss != []
    ensures BreaksOff(ts, ss, k) <==> BrokenAt(ts, ss[0], k) || BreaksOff(ts, ss[1..], k)
  {
    hide BrokenAt;
    if BreaksOff(ts, ss[1..], k) {
      var j :| 0 <= j < |ss[1..]| && BrokenAt(ts, ss[1..][j], k);
      assert BrokenAt(ts, ss[j + 1], k);
    }
    if BreaksOff(ts, ss, k) && !BrokenAt(ts, ss[0], k) {
      var j :| 0 <= j < |ss| && BrokenAt(ts, ss[j], k);
      assert ss[1..][j - 1] == ss[j];
    }
  }

  /** The first span skips a line that is not blank exactly if that line breaks it off. */
  lemma {:induction false} FirstSkips(ts: seq<Tok>, i: nat, k: nat)
    requires i < |ts| && k < |ts| && !ts[k].Blank? && Defined(ts, i)
    ensures var s := SpanAt(ts, i); s.skips && s.to == k <==> BrokenAt(ts, s, k)
  {
    hide SpanAt, Interrupts;
    var s := SpanAt(ts, i);
    if s.skips && s.to == k {
      SkippedInterrupts(ts, i);
      OnlyLinesSkip(ts, i);
    }
    if BrokenAt(ts, s, k) {
      InterruptingIsSkipped(ts, i);
    }
  }

  lemma {:induction false} SpansStep(ts: seq<Tok>, i: nat)
    requires i < |ts| && DriveFrom(ts, i).Some?
    ensures Defined(ts, i) && i < SpanAt(ts, i).to
    ensures var g := GoesOn(SpanAt(ts, i));
      i < g <= |ts| && DriveFrom(ts, g).Some? && Spans(ts, i) == [SpanAt(ts, i)] + Spans(ts, g)
  {
    hide DriveFrom, SpanAt;
    DriveStep(ts, i);
    SpanAdvances(ts, i);
  }

  /**
   * Every position belongs to one block, or is skipped once; and of the lines that are not blank
   * exactly those are skipped that break off a block.
   */
  lemma {:induction false} EveryLineAccounted(ts: seq<Tok>, i: nat, k: nat)
    requires i <= k < |ts| && DriveFrom(ts, i).Some?
    ensures Covers(Spans(ts, i), k) + Skips(Spans(ts, i), k) == 1
    ensures !ts[k].Blank? ==> (Skips(Spans(ts, i), k) == 1 <==> BreaksOff(ts, Spans(ts, i), k))
    decreases |ts| - i
  {
    hide SpanAt, DriveFrom, BrokenAt, BreaksOff, Spans;
    SpansStep(ts, i);
    var s := SpanAt(ts, i);
    var g, ss := GoesOn(s), Spans(ts, i);
    assert ss[1..] == Spans(ts, g);
    BreaksFirstOrLater(ts, ss, k);
    if !ts[k].Blank? {
      FirstSkips(ts, i, k);
    }
    if k < g {
      NothingBefore(ts, g, k);
      NothingBrokenBefore(ts, g, k);
    } else {
      EveryLineAccounted(ts, g, k);
    }
  }

  lemma {:induction false} NothingBrokenBefore(ts: seq<Tok>, i: nat, k: nat)
    requires k < i <= |ts| && DriveFrom(ts, i).Some?
    ensures !BreaksOff(ts, Spans(ts, i), k)
  {
    hide DriveFrom, Spans;
    LaterSpans(ts, i);
  }

  lemma {:induction false} LaterSpans(ts: seq<Tok>, i: nat)
    requires i <= |ts| && DriveFrom(ts, i).Some?
    ensures forall j :: 0 <= j < |Spans(ts, i)| ==> i <= Spans(ts, i)[j].from < Spans(ts, i)[j].to <= |ts|
    decreases |ts| - i
  {
    hide DriveFrom;
    if i < |ts| {
      DriveStep(ts, i);
      SpanAdvances(ts, i);
      LaterSpans(ts, GoesOn(SpanAt(ts, i)));
    }
  }

  /**
   * A line that is not blank is in no block of the output if and only if it breaks off the block
   * in front of it: it is no code line behind code; or no continuation, of its level, behind a
   * quote; or a list line, but neither the next item nor the start of a sub-list, behind a list.
   */
  lemma {:induction false} LostExactly(ts: seq<Tok>, k: nat)
    requires k < |ts| && !ts[k].Blank? && DriveFrom(ts, 0).Some?
    ensures Covers(Spans(ts, 0), k) == 0 <==> BreaksOff(ts, Spans(ts, 0), k)
  {
    EveryLineAccounted(ts, 0, k);
  }
}
