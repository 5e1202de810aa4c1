/** What a list is made of: where its items start, and what each of them holds of which lines. */
module ListLayout {
  import opened BlockLines
  import opened Blocks
  import opened ListTrouble
  import opened Options

  // ---------------------------------------------------------------------------------------
  // The code block inside an item
  // ---------------------------------------------------------------------------------------

  /** One entry for each line: nothing for a blank one, and else the line less its indentation. */
  predicate AreCode(ts: seq<Tok>, i: nat, depth: nat, lines: seq<Option<string>>) {
    && i + |lines| <= |ts|
    && forall m :: 0 <= m < |lines| && lines[m] != None ==>
         HasText(ts[i + m]) && LeadingSpaces(TextOf(ts[i + m])) >= depth
         && lines[m] == Some(TextOf(ts[i + m])[depth..])
  }

  /** Blank lines only between other lines, in front of each of which there is at most one. */
  predicate GapsAreSingle(ts: seq<Tok>, i: nat, lines: seq<Option<string>>) {
    && i + |lines| <= |ts|
    && forall m :: 0 <= m < |lines| && lines[m] == None ==>
         ts[i + m].Blank? && m + 1 < |lines| && lines[m + 1] != None
  }

  predicate CodeEnds(ts: seq<Tok>, n: nat, depth: nat)
    requires n <= |ts|
  {
    n == |ts| || (if ts[n].Blank? then n + 1 < |ts| && !Deep(ts[n + 1], depth) else !Deep(ts[n], depth))
  }

  lemma {:induction false} NestedCodeIs(ts: seq<Tok>, i: nat, depth: nat)
    requires i <= |ts|
    ensures var r := NestedCode(ts, i, depth);
      r.Block? ==>
        && AreCode(ts, i, depth, r.value) && GapsAreSingle(ts, i, r.value)
        && r.next == i + |r.value| && CodeEnds(ts, r.next, depth)
    decreases |ts| - i
  {
    hide AreCode, GapsAreSingle, TextOf, AfterSpaces;
    var r := NestedCode(ts, i, depth);
    NoCode(ts, i, depth);
    if i < |ts| && r.Block? {
      var k := if ts[i].Blank? then i + 1 else i;
      if Deep(ts[k], depth) {
        NestedCodeIs(ts, k + 1, depth);
        MoreCode(ts, i, depth, NestedCode(ts, k + 1, depth).value);
      }
    }
  }

  lemma {:induction false} NoCode(ts: seq<Tok>, i: nat, depth: nat)
    requires i <= |ts|
    ensures AreCode(ts, i, depth, []) && GapsAreSingle(ts, i, [])
  {
  }

  lemma {:induction false} MoreCode(ts: seq<Tok>, i: nat, depth: nat, rest: seq<Option<string>>)
    requires i < |ts|
    requires var k := LineAt(ts, i);
      k < |ts| && Deep(ts[k], depth) && AreCode(ts, k + 1, depth, rest) && GapsAreSingle(ts, k + 1, rest)
    ensures var k := LineAt(ts, i);
      var c := AfterSpaces(TextOf(ts[k]), depth);
      var lines := (if k > i then [None, c] else [c]) + rest;
      AreCode(ts, i, depth, lines) && GapsAreSingle(ts, i, lines)
  {
    hide LeadingSpaces, TextOf;
    var k := LineAt(ts, i);
    var c := AfterSpaces(TextOf(ts[k]), depth);
    var lines := (if k > i then [None, c] else [c]) + rest;
    forall m | 0 <= m < |lines|
      ensures lines[m] != None ==>
        HasText(ts[i + m]) && LeadingSpaces(TextOf(ts[i + m])) >= depth
        && lines[m] == Some(TextOf(ts[i + m])[depth..])
      ensures lines[m] == None ==> ts[i + m].Blank? && m + 1 < |lines| && lines[m + 1] != None
    {
      if m > k - i {
        assert lines[m] == rest[m - (k + 1 - i)];
      }
    }
  }

  // ---------------------------------------------------------------------------------------
  // The lines of an item
  // ---------------------------------------------------------------------------------------

  /** A list with this indentation and marker. */
  datatype Style = Style(indent: nat, kind: ListKind)

  predicate IsItemLine(ts: seq<Tok>, k: nat, y: Style) {
    k < |ts| && HasText(ts[k]) && MatchItem(TextOf(ts[k]), y.indent, y.kind).Some?
  }

  predicate IsSublistLine(ts: seq<Tok>, k: nat, y: Style) {
    k < |ts| && HasText(ts[k]) && StartsSublist(TextOf(ts[k]), y.indent)
  }

  /** A line with room for the text of an item and a code block in it. */
  predicate IsDeepLine(ts: seq<Tok>, k: nat, y: Style) {
    k < |ts| && HasText(ts[k]) && LeadingSpaces(TextOf(ts[k])) >= y.indent + 8
  }

  /**
   * What the lines from `i` to `j` add to the item at work: a sub-list; or a line of text; or, and
   * only behind a blank line, text in line with the item, or code.
   */
  ghost predicate Adds(ts: seq<Tok>, i: nat, j: nat, y: Style, part: seq<Tok>)
    requires i < j <= |ts|
  {
    && Looks(ts, Head(i, y.indent, y.kind))
    && var k := LineAt(ts, i);
       var line := TextOf(ts[k]);
       if IsSublistLine(ts, k, y) then |part| == 1 && ParseList(ts, k, true) == Block(part[0], j)
       else
         && !IsItemLine(ts, k, y)
         && if !ts[i].Blank? then
              MatchList(line).None? && !AllSpaces(line) && part == [Raw(line[LeadingSpaces(line)..])] && j == i + 1
            else if IsDeepLine(ts, k, y) then
              && |part| == 2 && part[0] == Blank("") && part[1].Code?
              && part[1].lines != [] && part[1].lines[0] == Some(line[y.indent + 8..])
              && AreCode(ts, i + 1, y.indent + 8, part[1].lines) && GapsAreSingle(ts, i + 1, part[1].lines)
              && j == i + 1 + |part[1].lines| && CodeEnds(ts, j, y.indent + 8)
            else
              && LeadingSpaces(line) == y.indent + 4 < |line|
              && part == [Blank(""), Raw(line[y.indent + 4..])] && j == i + 2
  }

  ghost predicate LastPart(ts: seq<Tok>, m: nat, j: nat, y: Style, subs: seq<Tok>, n: nat) {
    m < j <= |ts| && n <= |subs| && Adds(ts, m, j, y, subs[n..])
  }

  /** The tokens `subs` are what the lines from `i` to `j` add, part by part. */
  ghost predicate Holds(ts: seq<Tok>, i: nat, j: nat, y: Style, subs: seq<Tok>)
    decreases j
  {
    if j <= i then j == i && subs == []
    else exists m, n :: i <= m < j && 0 <= n && LastPart(ts, m, j, y, subs, n) && Holds(ts, i, m, y, subs[..n])
  }

  /** The item of the lines from `i` to `j`: the text on the marker's line, and what the others add. */
  ghost predicate IsItem(ts: seq<Tok>, i: nat, j: nat, y: Style, t: Tok) {
    && i < j && t.Item? && t.at == i && t.subs != []
    && IsItemLine(ts, i, y) && t.subs[0] == Raw(MatchItem(TextOf(ts[i]), y.indent, y.kind).value)
    && Holds(ts, i + 1, j, y, t.subs[1..])
  }

  /** Items that lie behind each other from `i` to `j`, with at most one blank line between two. */
  ghost predicate AreItems(ts: seq<Tok>, i: nat, j: nat, y: Style, items: seq<Tok>)
    decreases |items|
  {
    && items != []
    && var t, front := items[|items| - 1], items[..|items| - 1];
       && t.Item? && IsItem(ts, t.at, j, y, t)
       && if front == [] then t.at == i
          else
            || AreItems(ts, i, t.at, y, front)
            || (t.at > 0 && ts[t.at - 1].Blank? && AreItems(ts, i, t.at - 1, y, front))
  }

  /** Items that start one after the other, the first one at `i`. */
  predicate AreOrdered(ts: seq<Tok>, i: nat, j: nat, y: Style, items: seq<Tok>) {
    && (forall q :: 0 <= q < |items| ==> items[q].Item? && i <= items[q].at < j && IsItemLine(ts, items[q].at, y))
    && items != [] && items[0].at == i && forall p, q :: 0 <= p < q < |items| ==> items[p].at < items[q].at
  }

  lemma {:induction false} ItemsAreOrdered(ts: seq<Tok>, i: nat, j: nat, y: Style, items: seq<Tok>)
    requires AreItems(ts, i, j, y, items)
    ensures AreOrdered(ts, i, j, y, items)
    decreases |items|
  {
    hide Holds, IsItemLine, AreOrdered, AreItems;
    NotEmpty(ts, i, j, y, items);
    var t, front := items[|items| - 1], items[..|items| - 1];
    assert items == front + [t];
    ItemsEndIn(ts, i, j, y, front, t);
    if front == [] {
      OneIsOrdered(ts, i, j, y, t);
    } else {
      var end := if AreItems(ts, i, t.at, y, front) then t.at else t.at - 1;
      ItemsAreOrdered(ts, i, end, y, front);
      OneMoreIsOrdered(ts, i, end, j, y, front, t);
    }
  }

  lemma {:induction false} NotEmpty(ts: seq<Tok>, i: nat, j: nat, y: Style, items: seq<Tok>)
    requires AreItems(ts, i, j, y, items)
    ensures items != []
  {
  }

  lemma {:induction false} OneIsOrdered(ts: seq<Tok>, i: nat, j: nat, y: Style, t: Tok)
    requires t.Item? && t.at == i && IsItem(ts, i, j, y, t)
    ensures AreOrdered(ts, i, j, y, [t])
  {
    hide Holds, IsItemLine;
  }

  lemma {:induction false} OneMoreIsOrdered(
    ts: seq<Tok>, i: nat, end: nat, j: nat, y: Style, front: seq<Tok>, t: Tok)
    requires AreOrdered(ts, i, end, y, front) && t.Item? && end <= t.at && IsItem(ts, t.at, j, y, t)
    ensures AreOrdered(ts, i, j, y, front + [t])
  {
    hide Holds, IsItemLine;
  }

  // ---------------------------------------------------------------------------------------
  // The loop
  // ---------------------------------------------------------------------------------------

  /** What the loop has at position `i`: the finished items and the one at work lie up to there. */
  ghost predicate LaidUpTo(ts: seq<Tok>, start: nat, i: nat, y: Style, s: Items) {
    s.current != [] && AreItems(ts, start, i, y, s.done + [Item(s.at, s.current)])
  }

  lemma {:induction false} ItemsEndIn(ts: seq<Tok>, start: nat, i: nat, y: Style, done: seq<Tok>, t: Tok)
    ensures AreItems(ts, start, i, y, done + [t]) <==>
      && t.Item? && IsItem(ts, t.at, i, y, t)
      && if done == [] then t.at == start
         else
           || AreItems(ts, start, t.at, y, done)
           || (t.at > 0 && ts[t.at - 1].Blank? && AreItems(ts, start, t.at - 1, y, done))
  {
    hide IsItem;
    assert (done + [t])[..|done|] == done;
  }

  lemma {:induction false} HoldsMore(ts: seq<Tok>, i: nat, m: nat, j: nat, y: Style, subs: seq<Tok>, part: seq<Tok>)
    requires i <= m < j <= |ts| && Holds(ts, i, m, y, subs) && Adds(ts, m, j, y, part)
    ensures Holds(ts, i, j, y, subs + part)
  {
    hide Adds;
    assert (subs + part)[..|subs|] == subs && (subs + part)[|subs|..] == part;
    assert LastPart(ts, m, j, y, subs + part, |subs|);
  }

  lemma {:induction false} HoldsNothing(ts: seq<Tok>, i: nat, y: Style)
    ensures Holds(ts, i, i, y, [])
  {
  }

  lemma {:induction false} AddIsLaid(ts: seq<Tok>, start: nat, i: nat, j: nat, y: Style, s: Items, part: seq<Tok>)
    requires LaidUpTo(ts, start, i, y, s) && i < j <= |ts| && Adds(ts, i, j, y, part)
    ensures forall n, p :: LaidUpTo(ts, start, j, y, Add(s, part).(count := n, paragraphs := p))
  {
    hide Adds, Holds, AreItems, IsItemLine;
    ItemsEndIn(ts, start, i, y, s.done, Item(s.at, s.current));
    ItemsEndIn(ts, start, j, y, s.done, Item(s.at, s.current + part));
    assert (s.current + part)[1..] == s.current[1..] + part;
    HoldsMore(ts, s.at + 1, i, j, y, s.current[1..], part);
  }

  lemma {:induction false} NextIsLaid(ts: seq<Tok>, start: nat, i: nat, k: nat, y: Style, s: Items)
    requires LaidUpTo(ts, start, i, y, s) && i < |ts| && k == LineAt(ts, i) && IsItemLine(ts, k, y)
    ensures var c := MatchItem(TextOf(ts[k]), y.indent, y.kind).value;
      forall p :: LaidUpTo(ts, start, k + 1, y, NextItem(s, k, c).(paragraphs := p))
  {
    hide Holds, AreItems, TextOf, MatchItem;
    var c := MatchItem(TextOf(ts[k]), y.indent, y.kind).value;
    HoldsNothing(ts, k + 1, y);
    assert [Raw(c)][1..] == [];
    ItemsEndIn(ts, start, k + 1, y, s.done + [Item(s.at, s.current)], Item(k, [Raw(c)]));
  }

  lemma {:induction false} TurnIsLaid(ts: seq<Tok>, start: nat, i: nat, y: Style, s: Items)
    requires i < |ts| && LaidUpTo(ts, start, i, y, s)
    ensures var t := ListTurn(ts, i, y.indent, y.kind, s); t.Go? ==> LaidUpTo(ts, start, t.next, y, t.items)
  {
    hide LaidUpTo, Adds, NextItem, Add, TurnAfterBlank, TurnOnLine, TextOf;
    if ts[i].Blank? {
      if i + 1 < |ts| && HasText(ts[i + 1]) {
        BlankTurnIsLaid(ts, start, i, y, s);
      }
    } else if HasText(ts[i]) {
      LineTurnIsLaid(ts, start, i, y, s);
    }
  }

  lemma {:induction false} SublistIsLaid(ts: seq<Tok>, start: nat, i: nat, y: Style, s: Items, paragraphs: bool)
    requires i < |ts| && LaidUpTo(ts, start, i, y, s) && IsSublistLine(ts, LineAt(ts, i), y)
    ensures var t := TakeSublist(ts, LineAt(ts, i), s, paragraphs); t.Go? ==> LaidUpTo(ts, start, t.next, y, t.items)
  {
    hide LaidUpTo, ParseList, TextOf, StartsSublist;
    var p := ParseList(ts, LineAt(ts, i), true);
    if p.Block? {
      AddIsLaid(ts, start, i, p.next, y, s, [p.value]);
    }
  }

  lemma {:induction false} LineTurnIsLaid(ts: seq<Tok>, start: nat, i: nat, y: Style, s: Items)
    requires i < |ts| && LaidUpTo(ts, start, i, y, s) && !ts[i].Blank? && HasText(ts[i])
    ensures var t := TurnOnLine(ts, i, TextOf(ts[i]), y.indent, y.kind, s);
      t.Go? ==> LaidUpTo(ts, start, t.next, y, t.items)
  {
    hide LaidUpTo, TakeSublist, NextItem, Add, ParseList, TextOf, StartsSublist, MatchItem, MatchList, LeadingSpaces;
    var line := TextOf(ts[i]);
    if IsSublistLine(ts, i, y) {
      SublistIsLaid(ts, start, i, y, s, s.paragraphs);
    } else if IsItemLine(ts, i, y) {
      NextIsLaid(ts, start, i, i, y, s);
      ModeIsKept(NextItem(s, i, MatchItem(line, y.indent, y.kind).value));
    } else if MatchList(line).None? && !AllSpaces(line) {
      AddIsLaid(ts, start, i, i + 1, y, s, [Raw(line[LeadingSpaces(line)..])]);
      ModeIsKept(Add(s, [Raw(line[LeadingSpaces(line)..])]));
    }
  }

  lemma {:induction false} ModeIsKept(s: Items)
    ensures s.(paragraphs := s.paragraphs) == s && s.(count := s.count, paragraphs := s.paragraphs) == s
  {
  }

  lemma {:induction false} BlankTurnIsLaid(ts: seq<Tok>, start: nat, i: nat, y: Style, s: Items)
    requires i + 1 < |ts| && LaidUpTo(ts, start, i, y, s) && ts[i].Blank? && HasText(ts[i + 1])
    ensures var t := TurnAfterBlank(ts, i, TextOf(ts[i + 1]), y.indent, y.kind, s);
      t.Go? ==> LaidUpTo(ts, start, t.next, y, t.items)
  {
    hide LaidUpTo, TakeSublist, NextItem, Add, ParseList, TextOf, StartsSublist, MatchItem, LeadingSpaces, NestedCode,
         AreCode, GapsAreSingle, CodeEnds;
    var line := TextOf(ts[i + 1]);
    if IsSublistLine(ts, i + 1, y) {
      SublistIsLaid(ts, start, i, y, s, true);
    } else if IsItemLine(ts, i + 1, y) {
      NextIsLaid(ts, start, i, i + 1, y, s);
    } else if ContinuedAfterBlank(line, y.indent + 4).Some? {
      AddIsLaid(ts, start, i, i + 2, y, s, [Blank(""), Raw(line[y.indent + 4..])]);
      ModeIsKept(Add(s, [Blank(""), Raw(line[y.indent + 4..])]));
    } else if AfterSpaces(line, y.indent + 8).Some? && NestedCode(ts, i + 2, y.indent + 8).Block? {
      CodeIsLaid(ts, i, y);
      var n := NestedCode(ts, i + 2, y.indent + 8);
      AddIsLaid(ts, start, i, n.next, y, s, [Blank(""), Code([AfterSpaces(line, y.indent + 8)] + n.value)]);
    }
  }

  lemma {:induction false} CodeIsLaid(ts: seq<Tok>, i: nat, y: Style)
    requires i + 1 < |ts| && ts[i].Blank? && IsDeepLine(ts, i + 1, y)
    requires !IsSublistLine(ts, i + 1, y) && !IsItemLine(ts, i + 1, y) && NestedCode(ts, i + 2, y.indent + 8).Block?
    ensures var n := NestedCode(ts, i + 2, y.indent + 8);
      && i < n.next <= |ts|
      && Adds(ts, i, n.next, y, [Blank(""), Code([AfterSpaces(TextOf(ts[i + 1]), y.indent + 8)] + n.value)])
  {
    hide TextOf, LeadingSpaces, NestedCode, AreCode, GapsAreSingle, CodeEnds, IsSublistLine, IsItemLine, ParseList,
         MatchList;
    var depth := y.indent + 8;
    var n := NestedCode(ts, i + 2, depth);
    var m := AfterSpaces(TextOf(ts[i + 1]), depth);
    NestedCodeIs(ts, i + 2, depth);
    FirstCode(ts, i + 1, depth, n.value);
  }

  lemma {:induction false} FirstCode(ts: seq<Tok>, k: nat, depth: nat, rest: seq<Option<string>>)
    requires k < |ts| && Deep(ts[k], depth) && AreCode(ts, k + 1, depth, rest) && GapsAreSingle(ts, k + 1, rest)
    ensures var lines := [AfterSpaces(TextOf(ts[k]), depth)] + rest;
      AreCode(ts, k, depth, lines) && GapsAreSingle(ts, k, lines)
  {
    hide LeadingSpaces, TextOf;
    var lines := [AfterSpaces(TextOf(ts[k]), depth)] + rest;
    assert forall m :: 1 <= m < |lines| ==> lines[m] == rest[m - 1];
  }

  /** Why a list ends at `n`. */
  predicate ListEnds(ts: seq<Tok>, n: nat, y: Style)
    requires n <= |ts|
  {
    Looks(ts, Head(n, y.indent, y.kind)) ==>
      && var k := LineAt(ts, n);
         var line := TextOf(ts[k]);
         && !IsSublistLine(ts, k, y) && !IsItemLine(ts, k, y)
         && if ts[n].Blank? then
              LeadingSpaces(line) < y.indent + 8 && (LeadingSpaces(line) == y.indent + 4 ==> AllSpaces(line))
            else MatchList(line).Some?
  }

  lemma {:induction false} TurnEnds(ts: seq<Tok>, i: nat, y: Style, s: Items)
    requires i < |ts|
    ensures var t := ListTurn(ts, i, y.indent, y.kind, s);
      t.Stop? ==> ListEnds(ts, i, y) && t.next == if ts[i].Blank? && i + 1 == |ts| then i + 1 else i
  {
    hide NextItem, Add, ParseList, TextOf, StartsSublist, MatchItem, MatchList, LeadingSpaces, NestedCode;
  }

  lemma {:induction false} RunIsLaid(ts: seq<Tok>, start: nat, i: nat, y: Style, s: Items)
    requires i <= |ts| && LaidUpTo(ts, start, i, y, s)
    ensures var r := ListRun(ts, i, y.indent, y.kind, s);
      r.Block? ==> exists n :: 0 <= n <= |ts| && LaidOut(ts, start, n, y, r.value.done, r.next)
    decreases |ts| - i
  {
    hide AreItems, ListTurn, ListEnds;
    if i < |ts| {
      TurnIsLaid(ts, start, i, y, s);
      TurnEnds(ts, i, y, s);
      var t := ListTurn(ts, i, y.indent, y.kind, s);
      if t.Go? {
        RunIsLaid(ts, start, t.next, y, t.items);
      } else if t.Stop? {
        assert LaidOut(ts, start, i, y, FinishItem(s).done, t.next);
      }
    } else {
      NothingBehind(ts, i, y);
      assert LaidOut(ts, start, i, y, FinishItem(s).done, i);
    }
  }

  lemma {:induction false} NothingBehind(ts: seq<Tok>, i: nat, y: Style)
    requires i == |ts|
    ensures ListEnds(ts, i, y)
  {
  }

  /** The items of a list up to `n`, where it ends; only a blank line at the very end is taken along. */
  ghost predicate LaidOut(ts: seq<Tok>, start: nat, n: nat, y: Style, items: seq<Tok>, next: nat) {
    && n <= |ts| && AreItems(ts, start, n, y, items) && ListEnds(ts, n, y)
    && next == if n < |ts| && ts[n].Blank? && n + 1 == |ts| then n + 1 else n
  }
}
