/**
 * Nothing is lost inside a block: the lines a code block, a quote or a list consumed are spelled
 * by its text, each line once, in order, less what a block of its kind takes off the front.
 */
module BlockText {
  import opened BlockLines
  import opened Blocks
  import opened LineMarks
  import opened Options

  function LinesOf(lines: seq<Option<string>>): seq<string> {
    if lines == [] then [] else [if lines[0].Some? then lines[0].value else ""] + LinesOf(lines[1..])
  }

  /** The lines of text in a token, from left to right. */
  function Spelled(t: Tok): seq<string>
    decreases t, 0
  {
    match t
    case Raw(text) => [text]
    case Header(_, text) => [text]
    case Blank(text) => [text]
    case Rule => []
    case Code(lines) => LinesOf(lines)
    case Quote(_, subs) => SpelledAll(subs)
    case List(_, _, _, subs) => SpelledAll(subs)
    case Item(_, subs) => SpelledAll(subs)
  }

  function SpelledAll(ts: seq<Tok>): seq<string>
    decreases ts, 0
  {
    if ts == [] then [] else Spelled(ts[0]) + SpelledAll(ts[1..])
  }

  /** What is left of a token's text: it without what `f` may take off, or nothing of a blank line. */
  predicate IsRest(f: Front, line: string, t: Tok)
    requires HasText(t)
  {
    TakesOff(f, line, TextOf(t)) || (t.Blank? && line == "")
  }

  /**
   * `out` spells the tokens from `i` to `j`: every token is one line of `out`, less what `f` may
   * take off its front; only a blank line may be left out.
   */
  predicate Spells(f: Front, ts: seq<Tok>, i: nat, j: nat, out: seq<string>)
    requires i <= j <= |ts|
    decreases j - i
  {
    if i == j then out == []
    else
      HasText(ts[i]) &&
      (|| (ts[i].Blank? && Spells(f, ts, i + 1, j, out))
       || (out != [] && IsRest(f, out[0], ts[i]) && Spells(f, ts, i + 1, j, out[1..])))
  }

  lemma {:induction false} SpellsConcat(
    f: Front, ts: seq<Tok>, i: nat, j: nat, k: nat, a: seq<string>, b: seq<string>)
    requires i <= j <= k <= |ts| && Spells(f, ts, i, j, a) && Spells(f, ts, j, k, b)
    ensures Spells(f, ts, i, k, a + b)
    decreases j - i
  {
    hide IsRest;
    if i == j {
      assert a + b == b;
    } else if ts[i].Blank? && Spells(f, ts, i + 1, j, a) {
      SpellsConcat(f, ts, i + 1, j, k, a, b);
    } else {
      SpellsConcat(f, ts, i + 1, j, k, a[1..], b);
      assert (a + b)[0] == a[0] && (a + b)[1..] == a[1..] + b;
    }
  }

  lemma {:induction false} SpellsOne(f: Front, ts: seq<Tok>, i: nat, line: string)
    requires i < |ts| && HasText(ts[i]) && IsRest(f, line, ts[i])
    ensures Spells(f, ts, i, i + 1, [line])
  {
    hide IsRest;
    assert [line][1..] == [];
  }

  lemma {:induction false} SpellsNothing(f: Front, ts: seq<Tok>, i: nat, j: nat)
    requires i <= j <= i + 1 && j <= |ts| && (i < j ==> ts[i].Blank?)
    ensures Spells(f, ts, i, j, []) && SpelledAll([]) == []
  {
    if i < j {
      assert Spells(f, ts, i + 1, j, []);
    }
  }

  /** A blank line that is left out, and the line after it. */
  lemma {:induction false} SpellsAfterBlank(f: Front, ts: seq<Tok>, i: nat, line: string)
    requires i + 1 < |ts| && ts[i].Blank? && HasText(ts[i + 1]) && TakesOff(f, line, TextOf(ts[i + 1]))
    ensures Spells(f, ts, i, i + 2, [line])
  {
    hide TakesOff, TextOf;
    SpellsOne(f, ts, i + 1, line);
  }

  /** A blank line that is kept, and the line after it. */
  lemma {:induction false} SpellsBlankAnd(f: Front, ts: seq<Tok>, i: nat, line: string)
    requires i + 1 < |ts| && ts[i].Blank? && HasText(ts[i + 1]) && TakesOff(f, line, TextOf(ts[i + 1]))
    ensures Spells(f, ts, i, i + 2, ["", line])
  {
    hide TakesOff, TextOf;
    SpellsOne(f, ts, i + 1, line);
    assert ["", line][1..] == [line];
  }

  lemma {:induction false} SpelledConcat(a: seq<Tok>, b: seq<Tok>)
    ensures SpelledAll(a + b) == SpelledAll(a) + SpelledAll(b)
  {
    if a == [] {
      assert a + b == b;
    } else {
      assert (a + b)[1..] == a[1..] + b;
      SpelledConcat(a[1..], b);
    }
  }

  lemma {:induction false} SpelledShort(a: Tok, b: Tok)
    ensures SpelledAll([a]) == Spelled(a) && SpelledAll([a, b]) == Spelled(a) + Spelled(b)
  {
    assert [a, b][1..] == [b] && [b][1..] == [] && [a][1..] == [];
    assert SpelledAll([b]) == Spelled(b);
  }

  lemma {:induction false} PartsAreSpelled(subs: seq<Tok>, k: nat)
    requires k < |subs|
    ensures forall x :: x in Spelled(subs[k]) ==> x in SpelledAll(subs)
  {
    hide Spelled;
    if k > 0 {
      PartsAreSpelled(subs[1..], k - 1);
      assert subs[1..][k - 1] == subs[k];
    }
  }

  // ---------------------------------------------------------------------------------------
  // Code blocks and quotes
  // ---------------------------------------------------------------------------------------

  lemma {:induction false} CodeLineIsRest(t: Tok)
    ensures CodeLine(t).Some? ==> HasText(t) && IsRest(Indent, CodeLine(t).value, t)
  {
    hide AfterSpaces, SpacesOff;
    if CanContainMarkup(t) {
      DeepLineIsOff(t.text, 4);
    }
  }

  lemma {:induction false} CodeSpells(ts: seq<Tok>, i: nat)
    requires i <= |ts|
    ensures var r := CodeRun(ts, i); Spells(Indent, ts, i, i + |r|, LinesOf(r))
    decreases |ts| - i
  {
    hide Spells, LinesOf, CodeRun, CodeLine, IsRest;
    var r := CodeRun(ts, i);
    if r == [] {
      NoLines();
      SpellsNothing(Indent, ts, i, i);
    } else {
      CodeStep(ts, i);
      CodeSpells(ts, i + 1);
      var line := if r[0].Some? then r[0].value else "";
      CodeLineIsRest(ts[i]);
      BlankIsRest(Indent, ts[i]);
      SpellsOne(Indent, ts, i, line);
      LinesStep(r);
      SpellsConcat(Indent, ts, i, i + 1, i + |r|, [line], LinesOf(r[1..]));
    }
  }

  lemma {:induction false} BlankIsRest(f: Front, t: Tok)
    ensures t.Blank? ==> IsRest(f, "", t)
  {
    hide TakesOff;
  }

  lemma {:induction false} CodeStep(ts: seq<Tok>, i: nat)
    requires i <= |ts| && CodeRun(ts, i) != []
    ensures i < |ts| && CodeRun(ts, i)[1..] == CodeRun(ts, i + 1)
    ensures if ts[i].Blank? then CodeRun(ts, i)[0] == None
            else CodeLine(ts[i]).Some? && CodeRun(ts, i)[0] == CodeLine(ts[i])
  {
    hide CodeLine;
  }

  lemma {:induction false} NoLines()
    ensures LinesOf([]) == []
  {
  }

  lemma {:induction false} LinesStep(lines: seq<Option<string>>)
    requires lines != []
    ensures LinesOf(lines) == [if lines[0].Some? then lines[0].value else ""] + LinesOf(lines[1..])
  {
  }

  lemma {:induction false} QuoteRunSpells(ts: seq<Tok>, i: nat, level: nat)
    requires i <= |ts|
    ensures var r := QuoteRun(ts, i, level); r.Block? ==> Spells(QuoteMarks(level), ts, i, r.next, SpelledAll(r.value))
    decreases |ts| - i
  {
    hide Spells, SpelledAll, MatchContinuation, TakesOff, TextOf, IsBlankLine;
    var r := QuoteRun(ts, i, level);
    if !r.Block? {
    } else if r.value == [] {
      SpellsNothing(QuoteMarks(level), ts, i, r.next);
    } else if ts[i].Blank? {
      ContinuationIsOff(ts[i + 1], level);
      var raw := Raw(MatchContinuation(TextOf(ts[i + 1]), level).value);
      var rest := QuoteRun(ts, i + 2, level);
      QuoteRunSpells(ts, i + 2, level);
      SpellsBlankAnd(QuoteMarks(level), ts, i, raw.text);
      SpelledShort(Blank(""), raw);
      SpelledConcat([Blank(""), raw], rest.value);
      assert [""] + [raw.text] == ["", raw.text];
      SpellsConcat(QuoteMarks(level), ts, i, i + 2, r.next, ["", raw.text], SpelledAll(rest.value));
    } else {
      ContinuationIsOff(ts[i], level);
      var line := QuoteLine(MatchContinuation(TextOf(ts[i]), level).value);
      var rest := QuoteRun(ts, i + 1, level);
      QuoteRunSpells(ts, i + 1, level);
      SpelledShort(line, line);
      SpelledConcat([line], rest.value);
      SpellsOne(QuoteMarks(level), ts, i, line.text);
      SpellsConcat(QuoteMarks(level), ts, i, i + 1, r.next, [line.text], SpelledAll(rest.value));
    }
  }

  lemma {:induction false} StartIsRest(t: Tok)
    requires CanContainMarkup(t) && MatchQuote(t.text).Some?
    ensures IsRest(QuoteMarks(MatchQuote(t.text).value.level), MatchQuote(t.text).value.content, t)
  {
    hide MatchQuote, QuoteOff;
    QuoteTakesMarks(t.text);
  }

  lemma {:induction false} ContinuationIsOff(t: Tok, level: nat)
    requires HasText(t) && MatchContinuation(TextOf(t), level).Some?
    ensures TakesOff(QuoteMarks(level), MatchContinuation(TextOf(t), level).value, TextOf(t))
  {
    hide MatchContinuation, QuoteOff, TextOf;
    ContinuationTakesMarks(TextOf(t), level);
  }

  /** A quote spells the lines it consumed. */
  lemma {:induction false} QuoteSpells(ts: seq<Tok>, i: nat)
    requires i < |ts|
    ensures var p := ParseQuote(ts, i);
      p.Block? ==>
        p.value.Quote? && i < p.next <= |ts| && Spells(QuoteMarks(p.value.level), ts, i, p.next, Spelled(p.value))
  {
    hide Spells, SpelledAll, QuoteRun, MatchQuote, TakesOff;
    var p := ParseQuote(ts, i);
    if p.Block? {
      var m := MatchQuote(ts[i].text).value;
      var level := m.level;
      StartIsRest(ts[i]);
      var rest := QuoteRun(ts, i + 1, m.level);
      QuoteRunSpells(ts, i + 1, m.level);
      SpelledShort(Raw(m.content), Raw(m.content));
      SpelledConcat([Raw(m.content)], rest.value);
      SpellsOne(QuoteMarks(level), ts, i, m.content);
      SpellsConcat(QuoteMarks(level), ts, i, i + 1, p.next, [m.content], SpelledAll(rest.value));
    }
  }

  // ---------------------------------------------------------------------------------------
  // Lists
  // ---------------------------------------------------------------------------------------

  lemma {:induction false} LinesConcat(a: seq<Option<string>>, b: seq<Option<string>>)
    ensures LinesOf(a + b) == LinesOf(a) + LinesOf(b)
  {
    if a == [] {
      assert a + b == b;
    } else {
      assert (a + b)[1..] == a[1..] + b;
      LinesConcat(a[1..], b);
    }
  }

  lemma {:induction false} LinesShort(m: Option<string>)
    requires m.Some?
    ensures LinesOf([m]) == [m.value] && LinesOf([None, m]) == ["", m.value]
  {
    assert [m][1..] == [] && [None, m][1..] == [m];
    assert LinesOf([m]) == [m.value];
  }

  /** The code lines from `i` on, in terms of those behind the next one. */
  lemma {:induction false} NestedStep(ts: seq<Tok>, i: nat, depth: nat)
    requires i <= |ts| && NestedCode(ts, i, depth).Block? && NestedCode(ts, i, depth).value != []
    ensures i < |ts|
    ensures var n := if ts[i].Blank? then i + 1 else i;
      && n < |ts| && HasText(ts[i]) && HasText(ts[n]) && NestedCode(ts, n + 1, depth).Block?
      && var m, rest := AfterSpaces(TextOf(ts[n]), depth), NestedCode(ts, n + 1, depth);
         m.Some? && NestedCode(ts, i, depth) == Block((if n == i then [m] else [None, m]) + rest.value, rest.next)
  {
    hide AfterSpaces, TextOf;
  }

  lemma {:induction false} NestedEnds(ts: seq<Tok>, i: nat, depth: nat)
    requires i <= |ts| && NestedCode(ts, i, depth).Block? && NestedCode(ts, i, depth).value == []
    ensures NestedCode(ts, i, depth).next == i
  {
    hide AfterSpaces, TextOf;
  }

  lemma {:induction false} NestedCodeSpells(ts: seq<Tok>, i: nat, depth: nat, lines: seq<Option<string>>, next: nat)
    requires i <= |ts| && NestedCode(ts, i, depth) == Block(lines, next)
    ensures i <= next <= |ts| && Spells(ItemMarker, ts, i, next, LinesOf(lines))
    decreases |ts| - i
  {
    hide Spells, LinesOf, NestedCode, TextOf, AfterSpaces, SpacesOff, ItemOff;
    if lines == [] {
      NestedEnds(ts, i, depth);
      SpellsNothing(ItemMarker, ts, i, next);
      NoLines();
    } else {
      NestedStep(ts, i, depth);
      var n := if ts[i].Blank? then i + 1 else i;
      var m, rest := AfterSpaces(TextOf(ts[n]), depth), NestedCode(ts, n + 1, depth).value;
      DeepLineIsOff(TextOf(ts[n]), depth);
      NestedCodeSpells(ts, n + 1, depth, rest, next);
      LinesShort(m);
      if n == i {
        LinesConcat([m], rest);
        SpellsOne(ItemMarker, ts, i, m.value);
        SpellsConcat(ItemMarker, ts, i, i + 1, next, [m.value], LinesOf(rest));
      } else {
        LinesConcat([None, m], rest);
        SpellsBlankAnd(ItemMarker, ts, i, m.value);
        SpellsConcat(ItemMarker, ts, i, i + 2, next, ["", m.value], LinesOf(rest));
      }
    }
  }

  function SpelledItems(s: Items): seq<string> {
    SpelledAll(s.done) + SpelledAll(s.current)
  }

  lemma {:induction false} FinishSpells(s: Items)
    ensures SpelledAll(FinishItem(s).done) == SpelledItems(s) && FinishItem(s).current == []
  {
    var item := Item(s.at, s.current);
    SpelledConcat(s.done, [item]);
    SpelledShort(item, item);
  }

  lemma {:induction false} AddSpells(s: Items, ts: seq<Tok>)
    ensures SpelledItems(Add(s, ts)) == SpelledItems(s) + SpelledAll(ts)
  {
    SpelledConcat(s.current, ts);
  }

  lemma {:induction false} NextItemSpells(s: Items, at: nat, content: string)
    ensures SpelledItems(NextItem(s, at, content)) == SpelledItems(s) + [content]
  {
    FinishSpells(s);
    SpelledShort(Raw(content), Raw(content));
  }

  /** One turn adds the lines `out` and passes the tokens they spell. */
  ghost predicate TurnSpells(ts: seq<Tok>, i: nat, s: Items, t: Turn, out: seq<string>)
    requires i <= |ts|
  {
    && (t.Stop? ==> out == [] && i <= t.next <= |ts| && Spells(ItemMarker, ts, i, t.next, []))
    && (t.Go? ==>
          && i <= t.next <= |ts| && SpelledItems(t.items) == SpelledItems(s) + out
          && Spells(ItemMarker, ts, i, t.next, out))
  }

  lemma {:induction false} SublistSpells(ts: seq<Tok>, k: nat, s: Items, paragraphs: bool) returns (out: seq<string>)
    requires k < |ts|
    ensures TurnSpells(ts, k, s, TakeSublist(ts, k, s, paragraphs), out)
    decreases |ts| - k, 1
  {
    var p := ParseList(ts, k, true);
    out := [];
    if p.Block? {
      ListSpells(ts, k, true);
      AddSpells(s, [p.value]);
      SpelledShort(p.value, p.value);
      out := Spelled(p.value);
    }
  }

  lemma {:induction false} ItemTurnSpells(ts: seq<Tok>, k: nat, indent: nat, kind: ListKind, s: Items)
    returns (out: seq<string>)
    requires k < |ts| && HasText(ts[k]) && MatchItem(TextOf(ts[k]), indent, kind).Some?
    ensures out == [MatchItem(TextOf(ts[k]), indent, kind).value]
    ensures SpelledItems(NextItem(s, k, out[0])) == SpelledItems(s) + out && TakesOff(ItemMarker, out[0], TextOf(ts[k]))
  {
    hide MatchItem, ItemOff, SpacesOff, NextItem, SpelledItems, TextOf;
    ItemTakesMarker(TextOf(ts[k]), indent, kind);
    out := [MatchItem(TextOf(ts[k]), indent, kind).value];
    NextItemSpells(s, k, out[0]);
  }

  lemma {:induction false} RawTurnSpells(ts: seq<Tok>, i: nat, s: Items) returns (out: seq<string>)
    requires i < |ts| && HasText(ts[i])
    ensures var line := TextOf(ts[i]);
      SpelledItems(Add(s, [Raw(line[LeadingSpaces(line)..])])) == SpelledItems(s) + out
    ensures Spells(ItemMarker, ts, i, i + 1, out)
  {
    hide Spells, SpelledAll, SpelledItems, SpacesOff, TextOf;
    var line := TextOf(ts[i]);
    var raw := Raw(line[LeadingSpaces(line)..]);
    AddSpells(s, [raw]);
    SpelledShort(raw, raw);
    out := [raw.text];
    SpacesAreOff(line, LeadingSpaces(line));
    SpellsOne(ItemMarker, ts, i, raw.text);
  }

  lemma {:induction false} LineTurnSpells(ts: seq<Tok>, i: nat, indent: nat, kind: ListKind, s: Items)
    returns (out: seq<string>)
    requires i < |ts| && HasText(ts[i])
    ensures TurnSpells(ts, i, s, TurnOnLine(ts, i, TextOf(ts[i]), indent, kind, s), out)
    decreases |ts| - i, 2
  {
    hide Spells, SpelledAll, SpelledItems, NextItem, Add, MatchItem, MatchList, StartsSublist, TakesOff, LeadingSpaces,
         TakeSublist, TextOf;
    var line := TextOf(ts[i]);
    out := [];
    if StartsSublist(line, indent) {
      out := SublistSpells(ts, i, s, s.paragraphs);
    } else if MatchItem(line, indent, kind).Some? {
      out := ItemTurnSpells(ts, i, indent, kind, s);
      SpellsOne(ItemMarker, ts, i, out[0]);
    } else if MatchList(line).None? && !AllSpaces(line) {
      out := RawTurnSpells(ts, i, s);
    } else {
      SpellsNothing(ItemMarker, ts, i, i);
    }
  }

  lemma {:induction false} BlankTurnSpells(ts: seq<Tok>, i: nat, indent: nat, kind: ListKind, s: Items)
    returns (out: seq<string>)
    requires i + 1 < |ts| && ts[i].Blank? && HasText(ts[i + 1])
    ensures TurnSpells(ts, i, s, TurnAfterBlank(ts, i, TextOf(ts[i + 1]), indent, kind, s), out)
    decreases |ts| - i, 2
  {
    hide Spells, SpelledAll, SpelledItems, NextItem, Add, MatchItem, MatchList, StartsSublist, TakesOff, LeadingSpaces,
         TakeSublist, TextOf, NestedCode, AfterSpaces, ContinuedAfterBlank;
    var line := TextOf(ts[i + 1]);
    out := [];
    if StartsSublist(line, indent) {
      out := SublistSpells(ts, i + 1, s, true);
      BlankThenSpells(ts, i, s, TakeSublist(ts, i + 1, s, true), out);
    } else if MatchItem(line, indent, kind).Some? {
      out := ItemTurnSpells(ts, i + 1, indent, kind, s);
      SpellsAfterBlank(ItemMarker, ts, i, out[0]);
      ModeIsNotSpelled(NextItem(s, i + 1, out[0]), s.count, true);
    } else if ContinuedAfterBlank(line, indent + 4).Some? {
      out := ContinuedTurnSpells(ts, i, indent, s);
    } else if AfterSpaces(line, indent + 8).Some? {
      out := CodeTurnSpells(ts, i, indent, s);
      var n := NestedCode(ts, i + 2, indent + 8);
      if n.Block? {
        var code := Code([AfterSpaces(line, indent + 8)] + n.value);
        ModeIsNotSpelled(Add(s, [Blank(""), code]), s.count + 1, true);
      }
    } else {
      SpellsNothing(ItemMarker, ts, i, i);
    }
  }

  /** The count of items and the paragraph mode have no text. */
  lemma {:induction false} ModeIsNotSpelled(s: Items, count: nat, paragraphs: bool)
    ensures SpelledItems(s.(paragraphs := paragraphs)) == SpelledItems(s)
    ensures SpelledItems(s.(count := count, paragraphs := paragraphs)) == SpelledItems(s)
  {
  }

  lemma {:induction false} BlankThenSpells(ts: seq<Tok>, i: nat, s: Items, t: Turn, out: seq<string>)
    requires i + 1 < |ts| && ts[i].Blank? && !t.Stop? && TurnSpells(ts, i + 1, s, t, out)
    ensures TurnSpells(ts, i, s, t, out)
  {
  }

  lemma {:induction false} ContinuedTurnSpells(ts: seq<Tok>, i: nat, indent: nat, s: Items) returns (out: seq<string>)
    requires i + 1 < |ts| && ts[i].Blank? && HasText(ts[i + 1])
    requires ContinuedAfterBlank(TextOf(ts[i + 1]), indent + 4).Some?
    ensures var raw := Raw(ContinuedAfterBlank(TextOf(ts[i + 1]), indent + 4).value);
      SpelledItems(Add(s, [Blank(""), raw])) == SpelledItems(s) + out
    ensures Spells(ItemMarker, ts, i, i + 2, out)
  {
    hide Spells, SpelledAll, SpelledItems, SpacesOff, TextOf, LeadingSpaces;
    var raw := Raw(TextOf(ts[i + 1])[indent + 4..]);
    SpacesAreOff(TextOf(ts[i + 1]), indent + 4);
    AddSpells(s, [Blank(""), raw]);
    SpelledShort(Blank(""), raw);
    SpellsBlankAnd(ItemMarker, ts, i, raw.text);
    out := ["", raw.text];
  }

  lemma {:induction false} CodeTurnSpells(ts: seq<Tok>, i: nat, indent: nat, s: Items) returns (out: seq<string>)
    requires i + 1 < |ts| && ts[i].Blank? && HasText(ts[i + 1])
    requires AfterSpaces(TextOf(ts[i + 1]), indent + 8).Some?
    ensures var n := NestedCode(ts, i + 2, indent + 8);
      n.Block? ==>
        var code := Code([AfterSpaces(TextOf(ts[i + 1]), indent + 8)] + n.value);
        SpelledItems(Add(s, [Blank(""), code])) == SpelledItems(s) + out && Spells(ItemMarker, ts, i, n.next, out)
  {
    hide Spells, SpelledAll, SpelledItems, NestedCode, LinesOf, AfterSpaces, SpacesOff, TextOf;
    var m := AfterSpaces(TextOf(ts[i + 1]), indent + 8);
    DeepLineIsOff(TextOf(ts[i + 1]), indent + 8);
    var n := NestedCode(ts, i + 2, indent + 8);
    out := [];
    if n.Block? {
      var code := Code([m] + n.value);
      NestedCodeSpells(ts, i + 2, indent + 8, n.value, n.next);
      LinesShort(m);
      LinesConcat([m], n.value);
      SpelledShort(Blank(""), code);
      AddSpells(s, [Blank(""), code]);
      SpellsBlankAnd(ItemMarker, ts, i, m.value);
      SpellsConcat(ItemMarker, ts, i, i + 2, n.next, ["", m.value], LinesOf(n.value));
      out := ["", m.value] + LinesOf(n.value);
      assert [""] + ([m.value] + LinesOf(n.value)) == out;
    }
  }

  lemma {:induction false} TurnIsSpelled(ts: seq<Tok>, i: nat, indent: nat, kind: ListKind, s: Items)
    returns (out: seq<string>)
    requires i < |ts|
    ensures TurnSpells(ts, i, s, ListTurn(ts, i, indent, kind, s), out)
    decreases |ts| - i, 3
  {
    out := [];
    if ts[i].Blank? {
      if i + 1 < |ts| && HasText(ts[i + 1]) {
        out := BlankTurnSpells(ts, i, indent, kind, s);
      }
    } else if HasText(ts[i]) {
      out := LineTurnSpells(ts, i, indent, kind, s);
    }
  }

  lemma {:induction false} ListRunSpells(ts: seq<Tok>, i: nat, indent: nat, kind: ListKind, s: Items)
    returns (out: seq<string>)
    requires i <= |ts|
    ensures var r := ListRun(ts, i, indent, kind, s);
      r.Block? ==> SpelledAll(r.value.done) == SpelledItems(s) + out && Spells(ItemMarker, ts, i, r.next, out)
    decreases |ts| - i, 4
  {
    hide Spells, SpelledAll, SpelledItems, ListTurn, FinishItem;
    FinishSpells(s);
    SpellsNothing(ItemMarker, ts, i, i);
    out := [];
    if i < |ts| {
      out := TurnIsSpelled(ts, i, indent, kind, s);
      var t := ListTurn(ts, i, indent, kind, s);
      if t.Go? {
        var more := ListRunSpells(ts, t.next, indent, kind, t.items);
        var r := ListRun(ts, t.next, indent, kind, t.items);
        if r.Block? {
          SpellsConcat(ItemMarker, ts, i, t.next, r.next, out, more);
          assert SpelledItems(s) + out + more == SpelledItems(s) + (out + more);
        }
        out := out + more;
      }
    }
  }

  lemma {:induction false} StartSpells(at: nat, content: string)
    ensures SpelledItems(Items([], at, [Raw(content)], 1, false)) == [content]
  {
    SpelledShort(Raw(content), Raw(content));
  }

  lemma {:induction false} FirstItemIsRest(t: Tok)
    requires CanContainMarkup(t) && MatchList(t.text).Some?
    ensures IsRest(ItemMarker, MatchList(t.text).value.content, t)
  {
    hide MatchItem, ItemOff, SpacesOff;
    var m := MatchList(t.text).value;
    ItemTakesMarker(t.text, m.indent, m.kind);
  }

  /** The list that the parser returns holds what its loop collects. */
  lemma {:induction false} ListAnswer(ts: seq<Tok>, i: nat, sub: bool)
    requires i < |ts| && ParseList(ts, i, sub).Block?
    ensures CanContainMarkup(ts[i]) && MatchList(ts[i].text).Some?
    ensures var p, m := ParseList(ts, i, sub), MatchList(ts[i].text).value;
      var r := ListRun(ts, i + 1, m.indent, m.kind, Items([], i, [Raw(m.content)], 1, false));
      r.Block? && p == Block(List(m.kind, r.value.paragraphs, m.indent, r.value.done), r.next)
  {
    hide ListRun, MatchList;
  }

  /** A list, with its sub-lists, spells the lines it consumed. */
  lemma {:induction false} ListSpells(ts: seq<Tok>, i: nat, sub: bool)
    requires i < |ts|
    ensures var p := ParseList(ts, i, sub);
      p.Block? ==> Spells(ItemMarker, ts, i, p.next, Spelled(p.value))
    decreases |ts| - i, 0
  {
    hide Spells, SpelledAll, SpelledItems, ListRun, MatchList, MatchItem, TakesOff, ParseList;
    var p := ParseList(ts, i, sub);
    if p.Block? {
      ListAnswer(ts, i, sub);
      var m := MatchList(ts[i].text).value;
      var s := Items([], i, [Raw(m.content)], 1, false);
      FirstItemIsRest(ts[i]);
      StartSpells(i, m.content);
      var out := ListRunSpells(ts, i + 1, m.indent, m.kind, s);
      SpellsOne(ItemMarker, ts, i, m.content);
      SpellsConcat(ItemMarker, ts, i, i + 1, p.next, [m.content], out);
    }
  }
}
