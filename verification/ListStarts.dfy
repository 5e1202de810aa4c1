/**
 * Which lines start the items of a list, when its items are paragraphs, when it is no list after
 * all, and what each item spells.
 */
module ListStarts {
  import opened BlockLines
  import opened Blocks
  import opened BlockText
  import opened LineMarks
  import opened ListLayout
  import opened ListTrouble
  import opened Options

  // ---------------------------------------------------------------------------------------
  // The positions that the loop of a list comes to
  // ---------------------------------------------------------------------------------------

  /** The loop at `h`, which does not enter sub-lists, comes to position `m`. */
  predicate Reaches(ts: seq<Tok>, h: Head, m: nat)
    requires h.at <= |ts|
    decreases |ts| - h.at
  {
    m == h.at || (NextHead(ts, h).Some? && Reaches(ts, NextHead(ts, h).value, m))
  }

  lemma {:induction false} ReachesForward(ts: seq<Tok>, h: Head, m: nat)
    requires h.at <= |ts| && Reaches(ts, h, m)
    ensures h.at <= m <= |ts|
    decreases |ts| - h.at
  {
    hide NextHead;
    if m != h.at {
      ReachesForward(ts, NextHead(ts, h).value, m);
    }
  }

  lemma {:induction false} NextIs(ts: seq<Tok>, h: Head, s: Items)
    requires h.at < |ts|
    ensures var t := ListTurn(ts, h.at, h.indent, h.kind, s);
      NextHead(ts, h) == if t.Go? then Some(h.(at := t.next)) else None
  {
    hide ListTurn;
    ItemsDoNotMatter(ts, h.at, h.indent, h.kind, NOTHING, s);
  }

  function StyleOf(h: Head): Style {
    Style(h.indent, h.kind)
  }

  /** The line that decides at `m` is the one at `k`, and it starts an item. */
  predicate ItemFrom(ts: seq<Tok>, m: nat, k: nat, y: Style) {
    m < |ts| && LineAt(ts, m) == k && IsItemLine(ts, k, y)
  }

  /** Behind a blank line at `m` there is the next item, a sub-list, or code. */
  predicate Parts(ts: seq<Tok>, m: nat, y: Style) {
    m < |ts| && ts[m].Blank? && (IsItemLine(ts, m + 1, y) || IsSublistLine(ts, m + 1, y) || IsDeepLine(ts, m + 1, y))
  }

  /** At `m` there is the next item, a sub-list, or code. */
  predicate Grows(ts: seq<Tok>, m: nat, y: Style) {
    && m < |ts|
    && var k := LineAt(ts, m);
       IsItemLine(ts, k, y) || IsSublistLine(ts, k, y) || (ts[m].Blank? && IsDeepLine(ts, k, y))
  }

  ghost predicate SomeItem(ts: seq<Tok>, h: Head, k: nat)
    requires h.at <= |ts|
  {
    exists m :: Reaches(ts, h, m) && ItemFrom(ts, m, k, StyleOf(h))
  }

  ghost predicate SomeParts(ts: seq<Tok>, h: Head)
    requires h.at <= |ts|
  {
    exists m :: Reaches(ts, h, m) && Parts(ts, m, StyleOf(h))
  }

  ghost predicate SomeGrows(ts: seq<Tok>, h: Head)
    requires h.at <= |ts|
  {
    exists m :: Reaches(ts, h, m) && Grows(ts, m, StyleOf(h))
  }

  lemma {:induction false} SomeSplit(ts: seq<Tok>, h: Head)
    requires h.at <= |ts|
    ensures var next := NextHead(ts, h);
      && (SomeParts(ts, h) <==> Parts(ts, h.at, StyleOf(h)) || (next.Some? && SomeParts(ts, next.value)))
      && (SomeGrows(ts, h) <==> Grows(ts, h.at, StyleOf(h)) || (next.Some? && SomeGrows(ts, next.value)))
  {
    hide NextHead, Parts, Grows;
    assert Reaches(ts, h, h.at);
    NextHasStyle(ts, h);
    var next := NextHead(ts, h);
    if next.Some? {
      assert forall m :: Reaches(ts, next.value, m) ==> Reaches(ts, h, m);
    }
  }

  lemma {:induction false} SomeItemSplits(ts: seq<Tok>, h: Head, k: nat)
    requires h.at <= |ts|
    ensures var next := NextHead(ts, h);
      SomeItem(ts, h, k) <==> ItemFrom(ts, h.at, k, StyleOf(h)) || (next.Some? && SomeItem(ts, next.value, k))
  {
    hide NextHead, ItemFrom;
    assert Reaches(ts, h, h.at);
    NextHasStyle(ts, h);
    var next := NextHead(ts, h);
    if next.Some? {
      assert forall m :: Reaches(ts, next.value, m) ==> Reaches(ts, h, m);
    }
  }

  lemma {:induction false} NextHasStyle(ts: seq<Tok>, h: Head)
    ensures NextHead(ts, h).Some? ==> StyleOf(NextHead(ts, h).value) == StyleOf(h)
  {
    hide ListTurn;
  }

  // ---------------------------------------------------------------------------------------
  // What the loop marks
  // ---------------------------------------------------------------------------------------

  ghost predicate StartsAt(items: seq<Tok>, k: nat) {
    exists q :: 0 <= q < |items| && items[q].Item? && items[q].at == k
  }

  /** The finished items, and the one at work. */
  function AllItems(s: Items): seq<Tok> {
    s.done + [Item(s.at, s.current)]
  }

  lemma {:induction false} StartsConcat(items: seq<Tok>, t: Tok, k: nat)
    ensures StartsAt(items + [t], k) <==> StartsAt(items, k) || (t.Item? && t.at == k)
  {
    var both := items + [t];
    assert both[|items|] == t && forall q :: 0 <= q < |items| ==> both[q] == items[q];
  }

  /** One turn: what it does to the count, to the paragraph mode, and to the items begun. */
  ghost predicate TurnMarks(ts: seq<Tok>, i: nat, y: Style, s: Items, t: Turn, k: nat) {
    && (t.Stop? ==> !Parts(ts, i, y) && !Grows(ts, i, y))
    && (t.Go? ==>
          && t.items.current != []
          && (t.items.paragraphs <==> s.paragraphs || Parts(ts, i, y))
          && t.items.count == s.count + (if Grows(ts, i, y) then 1 else 0)
          && (StartsAt(AllItems(t.items), k) <==> StartsAt(AllItems(s), k) || ItemFrom(ts, i, k, y)))
  }

  lemma {:induction false} AddStarts(s: Items, part: seq<Tok>, n: nat, p: bool, k: nat)
    requires s.current != []
    ensures var t := Add(s, part).(count := n, paragraphs := p);
      t.current != [] && (StartsAt(AllItems(t), k) <==> StartsAt(AllItems(s), k))
  {
    StartsConcat(s.done, Item(s.at, s.current), k);
    StartsConcat(s.done, Item(s.at, s.current + part), k);
  }

  lemma {:induction false} NextStarts(s: Items, at: nat, content: string, p: bool, k: nat)
    requires s.current != []
    ensures var t := NextItem(s, at, content).(paragraphs := p);
      t.current != [] && (StartsAt(AllItems(t), k) <==> StartsAt(AllItems(s), k) || at == k)
  {
    StartsConcat(AllItems(s), Item(at, [Raw(content)]), k);
  }

  lemma {:induction false} LineTurnMarks(ts: seq<Tok>, i: nat, y: Style, s: Items, k: nat)
    requires i < |ts| && !ts[i].Blank? && HasText(ts[i]) && s.current != []
    ensures TurnMarks(ts, i, y, s, TurnOnLine(ts, i, TextOf(ts[i]), y.indent, y.kind, s), k)
  {
    hide ParseList, TextOf, StartsSublist, MatchItem, MatchList, LeadingSpaces, AllItems, StartsAt, IsDeepLine;
    var line := TextOf(ts[i]);
    SublistIsNoItem(line, y);
    if IsSublistLine(ts, i, y) {
      var p := ParseList(ts, i, true);
      if p.Block? {
        AddStarts(s, [p.value], s.count + 1, s.paragraphs, k);
      }
    } else if IsItemLine(ts, i, y) {
      NextStarts(s, i, MatchItem(line, y.indent, y.kind).value, s.paragraphs, k);
      ModeIsKept(NextItem(s, i, MatchItem(line, y.indent, y.kind).value));
    } else {
      AddStarts(s, [Raw(line[LeadingSpaces(line)..])], s.count, s.paragraphs, k);
      ModeIsKept(Add(s, [Raw(line[LeadingSpaces(line)..])]));
    }
  }

  lemma {:induction false} SublistIsNoItem(line: string, y: Style)
    ensures StartsSublist(line, y.indent) ==> MatchItem(line, y.indent, y.kind).None?
  {
    hide BulletContent, NumberContent, DigitRun;
  }

  lemma {:induction false} BlankTurnMarks(ts: seq<Tok>, i: nat, y: Style, s: Items, k: nat)
    requires i + 1 < |ts| && ts[i].Blank? && HasText(ts[i + 1]) && s.current != []
    ensures TurnMarks(ts, i, y, s, TurnAfterBlank(ts, i, TextOf(ts[i + 1]), y.indent, y.kind, s), k)
  {
    hide ParseList, TextOf, StartsSublist, MatchItem, LeadingSpaces, AllItems, StartsAt, NestedCode;
    var line := TextOf(ts[i + 1]);
    SublistIsNoItem(line, y);
    if IsSublistLine(ts, i + 1, y) {
      var p := ParseList(ts, i + 1, true);
      if p.Block? {
        AddStarts(s, [p.value], s.count + 1, true, k);
      }
    } else if IsItemLine(ts, i + 1, y) {
      NextStarts(s, i + 1, MatchItem(line, y.indent, y.kind).value, true, k);
    } else if ContinuedAfterBlank(line, y.indent + 4).Some? {
      AddStarts(s, [Blank(""), Raw(line[y.indent + 4..])], s.count, s.paragraphs, k);
      ModeIsKept(Add(s, [Blank(""), Raw(line[y.indent + 4..])]));
    } else if AfterSpaces(line, y.indent + 8).Some? && NestedCode(ts, i + 2, y.indent + 8).Block? {
      var code := Code([AfterSpaces(line, y.indent + 8)] + NestedCode(ts, i + 2, y.indent + 8).value);
      AddStarts(s, [Blank(""), code], s.count + 1, true, k);
    }
  }

  lemma {:induction false} TurnIsMarked(ts: seq<Tok>, i: nat, y: Style, s: Items, k: nat)
    requires i < |ts| && s.current != []
    ensures TurnMarks(ts, i, y, s, ListTurn(ts, i, y.indent, y.kind, s), k)
  {
    hide TurnAfterBlank, TurnOnLine, TextOf, StartsSublist, MatchItem, LeadingSpaces, AllItems, StartsAt;
    if ts[i].Blank? {
      if i + 1 < |ts| && HasText(ts[i + 1]) {
        BlankTurnMarks(ts, i, y, s, k);
      }
    } else if HasText(ts[i]) {
      LineTurnMarks(ts, i, y, s, k);
    }
  }

  lemma {:induction false} RunIsMarked(ts: seq<Tok>, h: Head, s: Items, k: nat)
    requires h.at <= |ts| && s.current != []
    ensures var r := ListRun(ts, h.at, h.indent, h.kind, s);
      r.Block? ==>
        && (r.value.paragraphs <==> s.paragraphs || SomeParts(ts, h))
        && s.count <= r.value.count && (s.count < r.value.count <==> SomeGrows(ts, h))
        && (StartsAt(r.value.done, k) <==> StartsAt(AllItems(s), k) || SomeItem(ts, h, k))
    decreases |ts| - h.at
  {
    hide ListTurn, SomeParts, SomeGrows, SomeItem, Parts, Grows, StartsAt, NextHead;
    SomeSplit(ts, h);
    SomeItemSplits(ts, h, k);
    if h.at < |ts| {
      var t := ListTurn(ts, h.at, h.indent, h.kind, s);
      NextIs(ts, h, s);
      TurnIsMarked(ts, h.at, StyleOf(h), s, k);
      ItemsGrow(ts, h.at, k, StyleOf(h));
      if t.Go? {
        RunIsMarked(ts, h.(at := t.next), t.items, k);
      }
    } else {
      AtTheEnd(ts, h, k);
    }
  }

  lemma {:induction false} ItemsGrow(ts: seq<Tok>, m: nat, k: nat, y: Style)
    ensures ItemFrom(ts, m, k, y) ==> Grows(ts, m, y)
  {
    hide IsItemLine;
  }

  lemma {:induction false} AtTheEnd(ts: seq<Tok>, h: Head, k: nat)
    requires h.at == |ts|
    ensures NextHead(ts, h).None? && !Parts(ts, h.at, StyleOf(h)) && !Grows(ts, h.at, StyleOf(h))
    ensures !ItemFrom(ts, h.at, k, StyleOf(h))
  {
  }

  // ---------------------------------------------------------------------------------------
  // Whole lists
  // ---------------------------------------------------------------------------------------

  /** The indentation and the marker of a list. */
  function StyleOfList(t: Tok): Style
    requires t.List?
  {
    Style(t.indent, t.kind)
  }

  /** The loop of the list that starts at `i`. */
  function ListHead(i: nat, t: Tok): Head
    requires t.List?
  {
    Head(i + 1, t.indent, t.kind)
  }

  lemma {:induction false} StartIsLaid(ts: seq<Tok>, i: nat)
    requires i < |ts| && IsListLine(ts[i])
    ensures var m := MatchList(ts[i].text).value;
      var y := Style(m.indent, m.kind);
      IsItemLine(ts, i, y) && LaidUpTo(ts, i, i + 1, y, Items([], i, [Raw(m.content)], 1, false))
  {
    hide Holds, AreItems, MatchItem, MatchList;
    var m := MatchList(ts[i].text).value;
    var y := Style(m.indent, m.kind);
    HoldsNothing(ts, i + 1, y);
    assert [Raw(m.content)][1..] == [];
    ItemsEndIn(ts, i, i + 1, y, [], Item(i, [Raw(m.content)]));
  }

  /**
   * The items of a list lie behind each other from its first line to its end; each holds what is
   * on its marker's line and what the lines up to the next item add.
   */
  lemma {:induction false} ListIsLaidOut(ts: seq<Tok>, i: nat, sub: bool)
    requires i < |ts|
    ensures var p := ParseList(ts, i, sub);
      p.Block? ==>
        && p.value.List?
        && exists n :: 0 <= n && LaidOut(ts, i, n, StyleOfList(p.value), p.value.subs, p.next)
                       && AreOrdered(ts, i, n, StyleOfList(p.value), p.value.subs)
  {
    hide ListRun, LaidUpTo, LaidOut, AreOrdered, MatchList, ParseList;
    var p := ParseList(ts, i, sub);
    if p.Block? {
      ListAnswer(ts, i, sub);
      var m := MatchList(ts[i].text).value;
      var y := Style(m.indent, m.kind);
      StartIsLaid(ts, i);
      RunIsLaid(ts, i, i + 1, y, Items([], i, [Raw(m.content)], 1, false));
      var n: nat :| LaidOut(ts, i, n, y, p.value.subs, p.next);
      LaidIsOrdered(ts, i, n, y, p.value.subs, p.next);
      assert StyleOfList(p.value) == y;
    }
  }

  lemma {:induction false} LaidIsOrdered(ts: seq<Tok>, i: nat, n: nat, y: Style, items: seq<Tok>, next: nat)
    requires LaidOut(ts, i, n, y, items, next)
    ensures AreOrdered(ts, i, n, y, items)
  {
    hide AreItems, AreOrdered, ListEnds;
    ItemsAreOrdered(ts, i, n, y, items);
  }

  /** An item starts on the first line, and where the list's own loop meets a line with its marker; nowhere else. */
  lemma {:induction false} ItemsStartExactly(ts: seq<Tok>, i: nat, sub: bool, k: nat)
    requires i < |ts|
    ensures var p := ParseList(ts, i, sub);
      p.Block? ==>
        && p.value.List?
        && (StartsAt(p.value.subs, k) <==> k == i || SomeItem(ts, ListHead(i, p.value), k))
  {
    hide ListRun, MatchList, ParseList, SomeItem, StartsAt, SomeGrows, SomeParts;
    var p := ParseList(ts, i, sub);
    if p.Block? {
      ListAnswer(ts, i, sub);
      var m := MatchList(ts[i].text).value;
      var s := Items([], i, [Raw(m.content)], 1, false);
      RunIsMarked(ts, Head(i + 1, m.indent, m.kind), s, k);
      StartsOnce(i, s.current, k);
    }
  }

  lemma {:induction false} StartsOnce(i: nat, current: seq<Tok>, k: nat)
    ensures StartsAt([] + [Item(i, current)], k) <==> i == k
  {
    StartsConcat([], Item(i, current), k);
  }

  /** So a line that the loop decides on starts an item if and only if it has the marker of the list. */
  lemma {:induction false} OwnLineStartsItem(ts: seq<Tok>, i: nat, sub: bool, m: nat)
    requires i < |ts|
    ensures var p := ParseList(ts, i, sub);
      p.Block? ==>
        && p.value.List?
        && (Reaches(ts, ListHead(i, p.value), m) && m < |ts| ==>
              (StartsAt(p.value.subs, LineAt(ts, m)) <==> IsItemLine(ts, LineAt(ts, m), StyleOfList(p.value))))
  {
    hide ParseList, StartsAt, NextHead, IsItemLine;
    var p := ParseList(ts, i, sub);
    if p.Block? {
      ItemsStartExactly(ts, i, sub, if m < |ts| then LineAt(ts, m) else i);
      if Reaches(ts, ListHead(i, p.value), m) {
        ReachesForward(ts, ListHead(i, p.value), m);
      }
    }
  }

  /** A list is in paragraph mode exactly when its loop meets a blank line in front of an item, a sub-list, or code. */
  lemma {:induction false} ParagraphsExactly(ts: seq<Tok>, i: nat, sub: bool)
    requires i < |ts|
    ensures var p := ParseList(ts, i, sub);
      p.Block? ==> p.value.List? && (p.value.paragraphs <==> SomeParts(ts, ListHead(i, p.value)))
  {
    hide ListRun, MatchList, ParseList, SomeParts, SomeGrows, SomeItem, StartsAt;
    var p := ParseList(ts, i, sub);
    if p.Block? {
      ListAnswer(ts, i, sub);
      var m := MatchList(ts[i].text).value;
      RunIsMarked(ts, Head(i + 1, m.indent, m.kind), Items([], i, [Raw(m.content)], 1, false), 0);
    }
  }

  /**
   * A list line is no list if it is as deep as code; or if it is not indented and there is no
   * other item, no sub-list and no code.
   */
  lemma {:induction false} FalseAlarmExactly(ts: seq<Tok>, i: nat, sub: bool)
    requires i < |ts| && IsListLine(ts[i]) && !ParseList(ts, i, sub).Undefined?
    ensures var m := MatchList(ts[i].text).value;
      ParseList(ts, i, sub).NoBlock? <==>
        (!sub && m.indent >= 4) || (m.indent == 0 && !SomeGrows(ts, Head(i + 1, m.indent, m.kind)))
  {
    hide ListRun, MatchList, SomeParts, SomeGrows, SomeItem, StartsAt;
    var m := MatchList(ts[i].text).value;
    RunIsMarked(ts, Head(i + 1, m.indent, m.kind), Items([], i, [Raw(m.content)], 1, false), 0);
  }

  // ---------------------------------------------------------------------------------------
  // What items spell
  // ---------------------------------------------------------------------------------------

  lemma {:induction false} CodeIsSpelled(ts: seq<Tok>, i: nat, depth: nat, lines: seq<Option<string>>)
    requires AreCode(ts, i, depth, lines) && GapsAreSingle(ts, i, lines)
    ensures i + |lines| <= |ts| && Spells(ItemMarker, ts, i, i + |lines|, LinesOf(lines))
    decreases |lines|
  {
    hide Spells, TextOf, LeadingSpaces, SpacesOff, ItemOff;
    NoLines();
    SpellsNothing(ItemMarker, ts, i, i);
    if lines != [] {
      var line := if lines[0].Some? then lines[0].value else "";
      assert lines[0] != None ==> lines[0] == Some(TextOf(ts[i + 0])[depth..]);
      if lines[0].Some? {
        SpacesAreOff(TextOf(ts[i]), depth);
      }
      SpellsOne(ItemMarker, ts, i, line);
      RestIsCode(ts, i, depth, lines);
      CodeIsSpelled(ts, i + 1, depth, lines[1..]);
      LinesStep(lines);
      SpellsConcat(ItemMarker, ts, i, i + 1, i + |lines|, [line], LinesOf(lines[1..]));
    }
  }

  lemma {:induction false} RestIsCode(ts: seq<Tok>, i: nat, depth: nat, lines: seq<Option<string>>)
    requires lines != [] && AreCode(ts, i, depth, lines) && GapsAreSingle(ts, i, lines)
    ensures AreCode(ts, i + 1, depth, lines[1..]) && GapsAreSingle(ts, i + 1, lines[1..])
  {
    hide TextOf, LeadingSpaces;
    var rest := lines[1..];
    assert forall m :: 0 <= m < |rest| ==> rest[m] == lines[m + 1];
    forall m | 0 <= m < |rest|
      ensures rest[m] != None ==>
        HasText(ts[i + 1 + m]) && LeadingSpaces(TextOf(ts[i + 1 + m])) >= depth
        && rest[m] == Some(TextOf(ts[i + 1 + m])[depth..])
      ensures rest[m] == None ==> ts[i + 1 + m].Blank? && m + 1 < |rest| && rest[m + 1] != None
    {
      assert i + 1 + m == i + (m + 1) && rest[m] == lines[m + 1];
    }
  }

  lemma {:induction false} PartIsSpelled(ts: seq<Tok>, i: nat, j: nat, y: Style, part: seq<Tok>)
    requires i < j <= |ts| && Adds(ts, i, j, y, part)
    ensures Spells(ItemMarker, ts, i, j, SpelledAll(part))
  {
    hide Spells, SpelledAll, ParseList, TextOf, LeadingSpaces, StartsSublist, MatchList, MatchItem, AreCode,
         GapsAreSingle, CodeEnds, SpacesOff, ItemOff;
    var k := LineAt(ts, i);
    var line := TextOf(ts[k]);
    if IsSublistLine(ts, k, y) {
      ListSpells(ts, k, true);
      SpelledShort(part[0], part[0]);
      assert part == [part[0]];
      if k > i {
        SpellsNothing(ItemMarker, ts, i, k);
        SpellsConcat(ItemMarker, ts, i, k, j, [], Spelled(part[0]));
        assert [] + Spelled(part[0]) == Spelled(part[0]);
      }
    } else if !ts[i].Blank? {
      SpacesAreOff(line, LeadingSpaces(line));
      SpelledShort(part[0], part[0]);
      SpellsOne(ItemMarker, ts, i, line[LeadingSpaces(line)..]);
    } else {
      SpelledShort(part[0], part[1]);
      assert part == [part[0], part[1]];
      SpellsOne(ItemMarker, ts, i, "");
      if IsDeepLine(ts, k, y) {
        CodeIsSpelled(ts, i + 1, y.indent + 8, part[1].lines);
      } else {
        SpacesAreOff(line, y.indent + 4);
        SpellsOne(ItemMarker, ts, i + 1, line[y.indent + 4..]);
      }
      SpellsConcat(ItemMarker, ts, i, i + 1, j, [""], Spelled(part[1]));
    }
  }

  lemma {:induction false} HeldIsSpelled(ts: seq<Tok>, i: nat, j: nat, y: Style, subs: seq<Tok>)
    requires i <= j <= |ts| && Holds(ts, i, j, y, subs)
    ensures Spells(ItemMarker, ts, i, j, SpelledAll(subs))
    decreases j
  {
    hide Spells, Adds;
    if i == j {
      SpellsNothing(ItemMarker, ts, i, i);
    } else {
      var m: nat, n: nat :| i <= m < j && LastPart(ts, m, j, y, subs, n) && Holds(ts, i, m, y, subs[..n]);
      HeldIsSpelled(ts, i, m, y, subs[..n]);
      PartIsSpelled(ts, m, j, y, subs[n..]);
      SpelledConcat(subs[..n], subs[n..]);
      assert subs == subs[..n] + subs[n..];
      SpellsConcat(ItemMarker, ts, i, m, j, SpelledAll(subs[..n]), SpelledAll(subs[n..]));
    }
  }

  /** An item spells the lines it covers. */
  lemma {:induction false} ItemSpells(ts: seq<Tok>, i: nat, j: nat, y: Style, t: Tok)
    requires j <= |ts| && IsItem(ts, i, j, y, t)
    ensures Spells(ItemMarker, ts, i, j, Spelled(t))
  {
    hide Spells, Holds, MatchItem, TextOf, SpacesOff, ItemOff, SpelledAll;
    var c := MatchItem(TextOf(ts[i]), y.indent, y.kind).value;
    ItemTakesMarker(TextOf(ts[i]), y.indent, y.kind);
    SpellsOne(ItemMarker, ts, i, c);
    HeldIsSpelled(ts, i + 1, j, y, t.subs[1..]);
    SpelledConcat([Raw(c)], t.subs[1..]);
    SpelledShort(Raw(c), Raw(c));
    assert t.subs == [Raw(c)] + t.subs[1..];
    SpellsConcat(ItemMarker, ts, i, i + 1, j, [c], SpelledAll(t.subs[1..]));
  }
}
