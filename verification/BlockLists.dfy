/** The shape of lists. */
module BlockLists {
  import opened BlockLines
  import opened Blocks
  import opened Options

  // ---------------------------------------------------------------------------------------
  // Indentation
  // ---------------------------------------------------------------------------------------

  /** An item of a list at `indent`: its first line has exactly this many spaces. */
  predicate ItemAt(ts: seq<Tok>, t: Tok, indent: nat) {
    t.Item? && t.at < |ts| && HasText(ts[t.at]) && LeadingSpaces(TextOf(ts[t.at])) == indent
  }

  /** A line that can open a code block inside an item. */
  predicate HasDeepLine(ts: seq<Tok>) {
    exists k :: 0 <= k < |ts| && HasText(ts[k]) && LeadingSpaces(TextOf(ts[k])) >= 8
  }

  /** But for the first token, which is what the marker left of its line, no line of text is only spaces. */
  predicate RestIsText(subs: seq<Tok>) {
    forall j :: 0 < j < |subs| && subs[j].Raw? ==> !AllSpaces(subs[j].text)
  }

  /**
   * A list deeper than `outer`, all of whose items start at its own indentation, and so on for
   * the lists inside its items.  The other tokens in items are text, empty lines and code.
   */
  predicate WellNested(ts: seq<Tok>, t: Tok, outer: int)
    decreases t
  {
    match t
    case List(_, _, indent, items) =>
      outer < indent && forall k :: 0 <= k < |items| ==>
        && ItemAt(ts, items[k], indent) && RestIsText(items[k].subs)
        && forall j :: 0 <= j < |items[k].subs| ==> WellNested(ts, items[k].subs[j], indent)
    case Quote(_, _) => false
    case Item(_, _) => false
    case Blank(text) => text == ""
    case Header(_, _) => false
    case Rule => false
    case Code(_) => HasDeepLine(ts)
    case Raw(_) => true
  }

  predicate AllWellNested(ts: seq<Tok>, subs: seq<Tok>, outer: int) {
    forall j :: 0 <= j < |subs| ==> WellNested(ts, subs[j], outer)
  }

  /** What the loop has collected is in shape. */
  predicate InShape(ts: seq<Tok>, indent: nat, s: Items) {
    && (forall k :: 0 <= k < |s.done| ==>
          ItemAt(ts, s.done[k], indent) && RestIsText(s.done[k].subs) && AllWellNested(ts, s.done[k].subs, indent))
    && AllWellNested(ts, s.current, indent) && RestIsText(s.current)
    && (s.current != [] ==> ItemAt(ts, Item(s.at, s.current), indent))
  }

  lemma {:induction false} AddInShape(ts: seq<Tok>, indent: nat, s: Items, more: seq<Tok>)
    requires InShape(ts, indent, s) && s.current != [] && AllWellNested(ts, more, indent)
    requires forall j :: 0 <= j < |more| && more[j].Raw? ==> !AllSpaces(more[j].text)
    ensures InShape(ts, indent, Add(s, more)) && Add(s, more).current != []
  {
  }

  lemma {:induction false} NextInShape(ts: seq<Tok>, indent: nat, s: Items, at: nat, content: string)
    requires InShape(ts, indent, s) && at < |ts| && HasText(ts[at]) && LeadingSpaces(TextOf(ts[at])) == indent
    ensures InShape(ts, indent, NextItem(s, at, content)) && NextItem(s, at, content).current != []
  {
  }

  lemma {:induction false} SublistInShape(ts: seq<Tok>, k: nat, indent: nat, s: Items, paragraphs: bool)
    requires k < |ts| && HasText(ts[k]) && StartsSublist(TextOf(ts[k]), indent)
    requires InShape(ts, indent, s) && s.current != []
    ensures var t := TakeSublist(ts, k, s, paragraphs); t.Go? ==> InShape(ts, indent, t.items) && t.items.current != []
    decreases |ts| - k, 1
  {
    hide InShape, WellNested, ParseList, StartsSublist, TextOf;
    var p := ParseList(ts, k, true);
    if p.Block? {
      SublistIsDeeper(TextOf(ts[k]), indent);
      ListIsNested(ts, k, true, indent);
      AddInShape(ts, indent, s, [p.value]);
      FlagsDoNotMatter(ts, indent, Add(s, [p.value]));
    }
  }

  lemma {:induction false} SublistIsDeeper(line: string, indent: nat)
    requires StartsSublist(line, indent)
    ensures indent < LeadingSpaces(line)
  {
  }

  lemma {:induction false} FirstIsText(line: string)
    ensures !AllSpaces(line) ==> !AllSpaces(line[LeadingSpaces(line)..])
  {
  }

  lemma {:induction false} BlankTurnInShape(ts: seq<Tok>, i: nat, indent: nat, kind: ListKind, s: Items)
    requires i + 1 < |ts| && HasText(ts[i + 1]) && InShape(ts, indent, s) && s.current != []
    ensures var t := TurnAfterBlank(ts, i, TextOf(ts[i + 1]), indent, kind, s);
      t.Go? ==> InShape(ts, indent, t.items) && t.items.current != []
    decreases |ts| - i, 2
  {
    hide InShape, NestedCode, ParseList, StartsSublist, TakeSublist;
    var line := TextOf(ts[i + 1]);
    if StartsSublist(line, indent) {
      SublistInShape(ts, i + 1, indent, s, true);
    } else if MatchItem(line, indent, kind).Some? {
      NextInShape(ts, indent, s, i + 1, MatchItem(line, indent, kind).value);
      FlagsDoNotMatter(ts, indent, NextItem(s, i + 1, MatchItem(line, indent, kind).value));
    } else if ContinuedAfterBlank(line, indent + 4).Some? {
      FirstIsText(line);
      AddInShape(ts, indent, s, [Blank(""), Raw(ContinuedAfterBlank(line, indent + 4).value)]);
    } else if AfterSpaces(line, indent + 8).Some? && NestedCode(ts, i + 2, indent + 8).Block? {
      assert LeadingSpaces(TextOf(ts[i + 1])) >= 8;
      var code := Code([AfterSpaces(line, indent + 8)] + NestedCode(ts, i + 2, indent + 8).value);
      AddInShape(ts, indent, s, [Blank(""), code]);
      FlagsDoNotMatter(ts, indent, Add(s, [Blank(""), code]));
    }
  }

  lemma {:induction false} LineTurnInShape(ts: seq<Tok>, i: nat, indent: nat, kind: ListKind, s: Items)
    requires i < |ts| && HasText(ts[i]) && InShape(ts, indent, s) && s.current != []
    ensures var t := TurnOnLine(ts, i, TextOf(ts[i]), indent, kind, s);
      t.Go? ==> InShape(ts, indent, t.items) && t.items.current != []
    decreases |ts| - i, 2
  {
    hide InShape, ParseList, StartsSublist, TakeSublist;
    var line := TextOf(ts[i]);
    if StartsSublist(line, indent) {
      SublistInShape(ts, i, indent, s, s.paragraphs);
    } else if MatchItem(line, indent, kind).Some? {
      NextInShape(ts, indent, s, i, MatchItem(line, indent, kind).value);
    } else if MatchList(line).None? && !AllSpaces(line) {
      FirstIsText(line);
      AddInShape(ts, indent, s, [Raw(line[LeadingSpaces(line)..])]);
    }
  }

  lemma {:induction false} TurnInShape(ts: seq<Tok>, i: nat, indent: nat, kind: ListKind, s: Items)
    requires i < |ts| && InShape(ts, indent, s) && s.current != []
    ensures var t := ListTurn(ts, i, indent, kind, s); t.Go? ==> InShape(ts, indent, t.items) && t.items.current != []
    decreases |ts| - i, 3
  {
    hide InShape, TurnAfterBlank, TurnOnLine;
    if ts[i].Blank? {
      if i + 1 < |ts| && HasText(ts[i + 1]) {
        BlankTurnInShape(ts, i, indent, kind, s);
      }
    } else if HasText(ts[i]) {
      LineTurnInShape(ts, i, indent, kind, s);
    }
  }

  lemma {:induction false} FlagsDoNotMatter(ts: seq<Tok>, indent: nat, s: Items)
    requires InShape(ts, indent, s)
    ensures forall n, p :: InShape(ts, indent, s.(count := n, paragraphs := p))
  {
  }

  lemma {:induction false} RunInShape(ts: seq<Tok>, i: nat, indent: nat, kind: ListKind, s: Items)
    requires i <= |ts| && InShape(ts, indent, s) && s.current != []
    ensures var r := ListRun(ts, i, indent, kind, s); r.Block? ==> InShape(ts, indent, r.value)
    decreases |ts| - i, 4
  {
    hide ListTurn;
    if i < |ts| {
      TurnInShape(ts, i, indent, kind, s);
      var t := ListTurn(ts, i, indent, kind, s);
      if t.Go? {
        RunInShape(ts, t.next, indent, kind, t.items);
      }
    }
  }

  lemma {:induction false} StartInShape(ts: seq<Tok>, indent: nat, at: nat, content: string)
    requires at < |ts| && HasText(ts[at]) && LeadingSpaces(TextOf(ts[at])) == indent
    ensures InShape(ts, indent, Items([], at, [Raw(content)], 1, false))
  {
  }

  lemma {:induction false} ShapeIsNested(ts: seq<Tok>, indent: nat, s: Items, outer: int, kind: ListKind)
    requires InShape(ts, indent, s) && outer < indent
    ensures WellNested(ts, List(kind, s.paragraphs, indent, s.done), outer)
  {
  }

  /** A parsed list has one indentation for all its items, deeper than the list around it. */
  lemma {:induction false} ListIsNested(ts: seq<Tok>, i: nat, sub: bool, outer: int)
    requires i < |ts| && HasText(ts[i])
    requires outer < LeadingSpaces(TextOf(ts[i]))
    ensures var p := ParseList(ts, i, sub); p.Block? ==> p.value.List? && WellNested(ts, p.value, outer)
    decreases |ts| - i, 0
  {
    hide ListRun, WellNested, InShape, MatchList, MatchItem;
    var p := ParseList(ts, i, sub);
    if p.Block? {
      var m := MatchList(ts[i].text).value;
      var s := Items([], i, [Raw(m.content)], 1, false);
      StartInShape(ts, m.indent, i, m.content);
      RunInShape(ts, i + 1, m.indent, m.kind, s);
      ShapeIsNested(ts, m.indent, ListRun(ts, i + 1, m.indent, m.kind, s).value, outer, m.kind);
    }
  }
}
