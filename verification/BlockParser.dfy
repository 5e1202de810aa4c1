/**
 * The block parsers and the driver as the program runs them: loops that move an iterator, look
 * ahead, back out, and collect tokens.  Each is proved to be its function.
 */
module BlockParser {
  import opened BlockDriver
  import opened BlockLines
  import opened BlockProofs
  import opened Blocks
  import opened Options
  import opened Sequences

  /**
   * One code line, with the blank lines before it.  Where there is none the iterator comes back
   * to where it was; `lines` is one entry per line passed.
   */
  method IsCodeBlockLine(ts: seq<Tok>, i: nat) returns (lines: Option<seq<Option<string>>>, next: nat)
    requires i < |ts|
    ensures i <= next <= |ts|
    ensures lines == None <==> CodeRun(ts, i) == []
    ensures lines == None ==> next == i
    ensures lines.Some? ==> next == i + |lines.value| > i && CodeRun(ts, i) == lines.value + CodeRun(ts, next)
    decreases |ts| - i
  {
    lines, next := None, i;
    if ts[i].Blank? {
      next := next + 1;
      if next != |ts| {
        var rest, after := IsCodeBlockLine(ts, next);
        next := after;
        if rest.Some? {
          assert [None] + (rest.value + CodeRun(ts, after)) == [None] + rest.value + CodeRun(ts, after);
          return Some([None] + rest.value), next;
        }
      }
      next := next - 1;
    } else {
      var line := CodeLine(ts[i]);
      if line.Some? {
        lines, next := Some([line]), i + 1;
      }
    }
  }

  /** Where a parser leaves the iterator: behind its block, or where it was if there is none. */
  predicate Leaves(r: Parsed<Tok>, before: nat, after: nat) {
    (r.Block? ==> after == r.next) && (r.NoBlock? ==> after == before)
  }

  method ParseCodeBlock(ts: seq<Tok>, i0: nat) returns (r: Parsed<Tok>, i: nat)
    requires i0 < |ts|
    ensures r == ParseCode(ts, i0) && Leaves(r, i0, i)
  {
    hide CodeRun;
    i := i0;
    if ts[i].Blank? {
      return NoBlock, i;
    }
    var contents;
    contents, i := IsCodeBlockLine(ts, i);
    if contents.None? {
      return NoBlock, i;
    }
    var out := contents.value;
    NothingAtEnd(ts);
    while i != |ts|
      invariant i0 < i <= |ts|
      invariant CodeRun(ts, i0) == out + CodeRun(ts, i) && i == i0 + |out|
      decreases |ts| - i
    {
      var from := i;
      contents, i := IsCodeBlockLine(ts, from);
      if contents.None? { break; }
      Regroup(out, contents.value, CodeRun(ts, i));
      out := out + contents.value;
    }
    assert out + [] == out;
    r := Block(Code(out), i);
  }

  lemma {:induction false} NothingAtEnd(ts: seq<Tok>)
    ensures CodeRun(ts, |ts|) == []
  {
  }

  method ParseBlockQuote(ts: seq<Tok>, i0: nat) returns (r: Parsed<Tok>, i: nat)
    requires i0 < |ts|
    ensures r == ParseQuote(ts, i0) && Leaves(r, i0, i)
  {
    hide MatchQuote, MatchContinuation, QuoteLine, TextOf, HasText;
    i := i0;
    if !CanContainMarkup(ts[i]) || MatchQuote(ts[i].text).None? {
      return NoBlock, i;
    }
    var m := MatchQuote(ts[i].text).value;
    var subTokens := [Raw(m.content)];
    i := i + 1;
    while i != |ts|
      invariant i0 < i <= |ts|
      invariant ParseQuote(ts, i0) == QuoteSoFar(m.level, subTokens, QuoteRun(ts, i, m.level))
      decreases |ts| - i
    {
      if ts[i].Blank? {
        var ii := i + 1;
        if ii == |ts| {
          i := ii;
          break;
        }
        if !HasText(ts[ii]) {
          return Undefined, i;
        }
        var line := MatchContinuation(TextOf(ts[ii]), m.level);
        if line.None? {
          break;
        }
        AppendTwice(m.level, subTokens, [Blank(""), Raw(line.value)], QuoteRun(ts, ii + 1, m.level));
        i := ii + 1;
        subTokens := subTokens + [Blank(""), Raw(line.value)];
      } else {
        if !HasText(ts[i]) {
          return Undefined, i;
        }
        var line := MatchContinuation(TextOf(ts[i]), m.level);
        if line.None? {
          break;
        }
        AppendTwice(m.level, subTokens, [QuoteLine(line.value)], QuoteRun(ts, i + 1, m.level));
        subTokens := subTokens + [QuoteLine(line.value)];
        i := i + 1;
      }
    }
    assert subTokens + [] == subTokens;
    r := Block(Quote(m.level, subTokens), i);
  }

  function QuoteSoFar(level: nat, sofar: seq<Tok>, rest: Parsed<seq<Tok>>): Parsed<Tok> {
    match rest
    case Block(subs, next) => Block(Quote(level, sofar + subs), next)
    case _ => Undefined
  }

  lemma {:induction false} AppendTwice(level: nat, a: seq<Tok>, b: seq<Tok>, rest: Parsed<seq<Tok>>)
    ensures QuoteSoFar(level, a, Prepend(b, rest)) == QuoteSoFar(level, a + b, rest)
  {
    if rest.Block? {
      assert a + (b + rest.value) == a + b + rest.value;
    }
  }

  /** The code block inside an item, from position `i0` on. */
  method ParseNestedCode(ts: seq<Tok>, i0: nat, depth: nat, first: Option<string>)
    returns (r: Parsed<seq<Option<string>>>)
    requires i0 <= |ts|
    ensures r == CodeSoFar([first], NestedCode(ts, i0, depth))
  {
    hide AfterSpaces, TextOf, HasText;
    var codeBlock := [first];
    var ii := i0;
    while ii != |ts|
      invariant i0 <= ii <= |ts|
      invariant CodeSoFar([first], NestedCode(ts, i0, depth)) == CodeSoFar(codeBlock, NestedCode(ts, ii, depth))
      decreases |ts| - ii
    {
      if ts[ii].Blank? {
        var iii := ii + 1;
        if iii == |ts| || !HasText(ts[iii]) {
          return Undefined;
        }
        var line := AfterSpaces(TextOf(ts[iii]), depth);
        if line.None? {
          break;
        }
        AppendCode(codeBlock, [None, line], NestedCode(ts, iii + 1, depth));
        codeBlock := codeBlock + [None, line];
        ii := iii;
      } else if HasText(ts[ii]) {
        var line := AfterSpaces(TextOf(ts[ii]), depth);
        if line.None? {
          break;
        }
        AppendCode(codeBlock, [line], NestedCode(ts, ii + 1, depth));
        codeBlock := codeBlock + [line];
      } else {
        break;
      }
      ii := ii + 1;
    }
    assert codeBlock + [] == codeBlock;
    r := Block(codeBlock, ii);
  }

  function CodeSoFar(sofar: seq<Option<string>>, rest: Parsed<seq<Option<string>>>): Parsed<seq<Option<string>>> {
    match rest
    case Block(lines, next) => Block(sofar + lines, next)
    case _ => Undefined
  }

  lemma {:induction false} AppendCode(a: seq<Option<string>>, b: seq<Option<string>>, rest: Parsed<seq<Option<string>>>)
    ensures rest.Block? ==> CodeSoFar(a, Block(b + rest.value, rest.next)) == CodeSoFar(a + b, rest)
    ensures CodeSoFar(a, Undefined) == Undefined
  {
    if rest.Block? {
      assert a + (b + rest.value) == a + b + rest.value;
    }
  }

  datatype NextItemType = Unknown | EndOfList | AnotherItem

  // One turn of the list loop, branch by branch.  `k` is the line that decides: behind a blank
  // line, the next one.

  predicate Decides(ts: seq<Tok>, i: nat, k: nat) {
    i < |ts| && k < |ts| && HasText(ts[k]) && k == if ts[i].Blank? then i + 1 else i
  }

  /** What the loop returns after the turn `t` taken with `s`. */
  function Resume(ts: seq<Tok>, indent: nat, kind: ListKind, s: Items, t: Turn): Parsed<Items>
    requires t.Go? ==> t.next <= |ts|
  {
    match t
    case Fail => Undefined
    case Stop(next) => Block(FinishItem(s), next)
    case Go(next, items) => ListRun(ts, next, indent, kind, items)
  }

  lemma {:induction false} RunTurns(ts: seq<Tok>, i: nat, indent: nat, kind: ListKind, s: Items)
    requires i < |ts|
    ensures ListRun(ts, i, indent, kind, s) == Resume(ts, indent, kind, s, ListTurn(ts, i, indent, kind, s))
  {
    hide ListTurn, FinishItem;
  }

  lemma {:induction false} TurnAt(ts: seq<Tok>, i: nat, k: nat, indent: nat, kind: ListKind, s: Items)
    requires Decides(ts, i, k)
    ensures var t := if ts[i].Blank? then TurnAfterBlank(ts, i, TextOf(ts[k]), indent, kind, s)
                     else TurnOnLine(ts, i, TextOf(ts[k]), indent, kind, s);
      ListTurn(ts, i, indent, kind, s) == t && ListRun(ts, i, indent, kind, s) == Resume(ts, indent, kind, s, t)
  {
    hide ListRun, TurnAfterBlank, TurnOnLine, TextOf;
    RunTurns(ts, i, indent, kind, s);
  }

  /** The items when the one at work is done. */
  function Flushed(done: seq<Tok>, at: nat, current: seq<Tok>): seq<Tok> {
    if current == [] then done else done + [Item(at, current)]
  }

  lemma {:induction false} RunAtSublist(ts: seq<Tok>, i: nat, k: nat, indent: nat, kind: ListKind, s: Items)
    requires Decides(ts, i, k) && StartsSublist(TextOf(ts[k]), indent)
    ensures ListRun(ts, i, indent, kind, s) == match ParseList(ts, k, true)
      case Block(t, next) =>
        ListRun(ts, next, indent, kind,
                Items(s.done, s.at, s.current + [t], s.count + 1, ts[i].Blank? || s.paragraphs))
      case _ => Undefined
  {
    hide ListRun, ListTurn, ParseList, StartsSublist, TextOf;
    TurnAt(ts, i, k, indent, kind, s);
  }

  lemma {:induction false} RunAtItem(ts: seq<Tok>, i: nat, k: nat, indent: nat, kind: ListKind, s: Items)
    requires Decides(ts, i, k) && !StartsSublist(TextOf(ts[k]), indent)
    requires MatchItem(TextOf(ts[k]), indent, kind).Some?
    ensures ListRun(ts, i, indent, kind, s) ==
      ListRun(ts, k + 1, indent, kind,
              Items(Flushed(s.done, s.at, s.current), k, [Raw(MatchItem(TextOf(ts[k]), indent, kind).value)],
                    s.count + 1, ts[i].Blank? || s.paragraphs))
  {
    hide ListRun, ListTurn, StartsSublist, MatchItem, TextOf;
    TurnAt(ts, i, k, indent, kind, s);
  }

  /** A line that is neither the start of a sub-list nor the next item. */
  predicate IsOther(line: string, indent: nat, kind: ListKind) {
    !StartsSublist(line, indent) && MatchItem(line, indent, kind).None?
  }

  lemma {:induction false} RunAtContinued(ts: seq<Tok>, i: nat, indent: nat, kind: ListKind, s: Items)
    requires Decides(ts, i, i + 1) && IsOther(TextOf(ts[i + 1]), indent, kind)
    requires ContinuedAfterBlank(TextOf(ts[i + 1]), indent + 4).Some?
    ensures var more := [Blank(""), Raw(ContinuedAfterBlank(TextOf(ts[i + 1]), indent + 4).value)];
      ListRun(ts, i, indent, kind, s) ==
        ListRun(ts, i + 2, indent, kind, Items(s.done, s.at, s.current + more, s.count, s.paragraphs))
  {
    hide ListRun, ListTurn, StartsSublist, MatchItem, ContinuedAfterBlank, TextOf;
    TurnAt(ts, i, i + 1, indent, kind, s);
  }

  lemma {:induction false} RunAtCode(ts: seq<Tok>, i: nat, indent: nat, kind: ListKind, s: Items)
    requires Decides(ts, i, i + 1) && IsOther(TextOf(ts[i + 1]), indent, kind)
    requires ContinuedAfterBlank(TextOf(ts[i + 1]), indent + 4).None?
    requires AfterSpaces(TextOf(ts[i + 1]), indent + 8).Some?
    ensures var first := [AfterSpaces(TextOf(ts[i + 1]), indent + 8)];
      ListRun(ts, i, indent, kind, s) ==
        match NestedCode(ts, i + 2, indent + 8)
        case Block(lines, next) =>
          ListRun(ts, next, indent, kind,
                  Items(s.done, s.at, s.current + [Blank(""), Code(first + lines)], s.count + 1, true))
        case _ => Undefined
  {
    hide ListRun, ListTurn, StartsSublist, MatchItem, ContinuedAfterBlank, AfterSpaces, NestedCode, TextOf;
    TurnAt(ts, i, i + 1, indent, kind, s);
  }

  lemma {:induction false} RunAtText(ts: seq<Tok>, i: nat, indent: nat, kind: ListKind, s: Items)
    requires Decides(ts, i, i) && IsOther(TextOf(ts[i]), indent, kind) && MatchList(TextOf(ts[i])).None?
    ensures var line := TextOf(ts[i]);
      ListRun(ts, i, indent, kind, s) ==
        if AllSpaces(line) then Undefined
        else
          var more := [Raw(line[LeadingSpaces(line)..])];
          ListRun(ts, i + 1, indent, kind, Items(s.done, s.at, s.current + more, s.count, s.paragraphs))
  {
    hide ListRun, ListTurn, StartsSublist, MatchItem, MatchList, LeadingSpaces, TextOf;
    TurnAt(ts, i, i, indent, kind, s);
  }

  /** The list ends at `i`, or behind a blank line at the end. */
  predicate Ends(ts: seq<Tok>, i: nat, indent: nat, kind: ListKind)
    requires i <= |ts|
  {
    || i == |ts|
    || (if ts[i].Blank? then
          || i + 1 == |ts| || !HasText(ts[i + 1])
          || (&& IsOther(TextOf(ts[i + 1]), indent, kind)
              && ContinuedAfterBlank(TextOf(ts[i + 1]), indent + 4).None?
              && AfterSpaces(TextOf(ts[i + 1]), indent + 8).None?)
        else !HasText(ts[i]) || (IsOther(TextOf(ts[i]), indent, kind) && MatchList(TextOf(ts[i])).Some?))
  }

  lemma {:induction false} TurnEnds(ts: seq<Tok>, i: nat, indent: nat, kind: ListKind, s: Items)
    requires i < |ts| && Ends(ts, i, indent, kind)
    ensures ListTurn(ts, i, indent, kind, s) == Stop(if ts[i].Blank? && i + 1 == |ts| then i + 1 else i)
  {
    hide StartsSublist, MatchItem, MatchList, ContinuedAfterBlank, AfterSpaces, TextOf, ListRun;
    var k := if ts[i].Blank? then i + 1 else i;
    if Decides(ts, i, k) {
      TurnAt(ts, i, k, indent, kind, s);
    }
  }

  lemma {:induction false} RunEnds(ts: seq<Tok>, i: nat, indent: nat, kind: ListKind, s: Items)
    requires i <= |ts| && Ends(ts, i, indent, kind)
    ensures ListRun(ts, i, indent, kind, s) ==
      Block(Items(Flushed(s.done, s.at, s.current), s.at, [], s.count, s.paragraphs),
            if i < |ts| && ts[i].Blank? && i + 1 == |ts| then i + 1 else i)
  {
    hide ListTurn, StartsSublist, MatchItem, MatchList, ContinuedAfterBlank, AfterSpaces, TextOf;
    if i < |ts| {
      RunTurns(ts, i, indent, kind, s);
      TurnEnds(ts, i, indent, kind, s);
    }
  }

  lemma {:induction false} ListAnswer(ts: seq<Tok>, i: nat, sub: bool)
    requires i < |ts|
    ensures ParseList(ts, i, sub) ==
      if !CanContainMarkup(ts[i]) || MatchList(ts[i].text).None? then NoBlock
      else
        var m := MatchList(ts[i].text).value;
        if !sub && m.indent >= 4 then NoBlock
        else match ListRun(ts, i + 1, m.indent, m.kind, Items([], i, [Raw(m.content)], 1, false))
          case Block(s, next) =>
            if s.count > 1 || m.indent != 0 then
              Block(List(m.kind, s.paragraphs, m.indent, s.done), next)
            else NoBlock
          case _ => Undefined
  {
    hide ListRun, MatchList;
  }

  /** The next item of the list starts on the line at `k`. */
  predicate ItemAt(ts: seq<Tok>, k: nat, indent: nat, kind: ListKind) {
    && k < |ts| && HasText(ts[k])
    && !StartsSublist(TextOf(ts[k]), indent) && MatchItem(TextOf(ts[k]), indent, kind).Some?
  }

  /** The loop body at a blank line, with its look at the next one. */
  method AtBlankLine(ts: seq<Tok>, i0: nat, indent: nat, kind: ListKind, s0: Items)
    returns (nextItem: NextItemType, s: Items, i: nat, failed: bool)
    requires i0 < |ts| && ts[i0].Blank? && (i0 + 1 == |ts| || HasText(ts[i0 + 1]))
    ensures failed ==> ListRun(ts, i0, indent, kind, s0).Undefined?
    ensures !failed && nextItem == Unknown ==>
      i0 < i <= |ts| && ListRun(ts, i0, indent, kind, s0) == ListRun(ts, i, indent, kind, s)
    ensures nextItem == AnotherItem ==>
      i == i0 + 1 && ItemAt(ts, i, indent, kind) && s == s0.(paragraphs := true)
    ensures nextItem == EndOfList ==>
      Ends(ts, i0, indent, kind) && s == s0 && i == if i0 + 1 == |ts| then i0 + 1 else i0
    decreases |ts| - i0, 1
  {
    hide ListRun, NestedCode, MatchItem, StartsSublist, ParseList, AfterSpaces, ContinuedAfterBlank, TextOf, HasText;
    nextItem, s, i, failed := Unknown, s0, i0, false;
    var ii := i + 1;
    if ii == |ts| {
      i := ii;
      nextItem := EndOfList;
      return;
    }
    var line := TextOf(ts[ii]);
    if StartsSublist(line, indent) {
      RunAtSublist(ts, i, ii, indent, kind, s);
      i := ii;
      var p;
      p, i := ParseListBlock(ts, i, true);
      failed := !p.Block?;
      if p.Block? {
        s := Items(s.done, s.at, s.current + [p.value], s.count + 1, true);
      }
    } else if MatchItem(line, indent, kind).Some? {
      s := s.(paragraphs := true);
      i := ii;
      nextItem := AnotherItem;
    } else if ContinuedAfterBlank(line, indent + 4).Some? {
      RunAtContinued(ts, i, indent, kind, s);
      s := Add(s, [Blank(""), Raw(ContinuedAfterBlank(line, indent + 4).value)]);
      i := ii + 1;
    } else if AfterSpaces(line, indent + 8).Some? {
      RunAtCode(ts, i, indent, kind, s);
      var code := ParseNestedCode(ts, ii + 1, indent + 8, AfterSpaces(line, indent + 8));
      failed := !code.Block?;
      if code.Block? {
        s := Items(s.done, s.at, s.current + [Blank(""), Code(code.value)], s.count + 1, true);
        i := code.next;
      }
    } else {
      nextItem := EndOfList;
    }
  }

  /** The loop body at any other line. */
  method AtTextLine(ts: seq<Tok>, i0: nat, indent: nat, kind: ListKind, s0: Items)
    returns (nextItem: NextItemType, s: Items, i: nat, failed: bool)
    requires i0 < |ts| && !ts[i0].Blank?
    ensures failed ==> ListRun(ts, i0, indent, kind, s0).Undefined?
    ensures !failed && nextItem == Unknown ==>
      i0 < i <= |ts| && ListRun(ts, i0, indent, kind, s0) == ListRun(ts, i, indent, kind, s)
    ensures nextItem == AnotherItem ==> i == i0 && ItemAt(ts, i, indent, kind) && s == s0
    ensures nextItem == EndOfList ==> Ends(ts, i0, indent, kind) && s == s0 && i == i0
    decreases |ts| - i0, 1
  {
    hide ListRun, MatchList, MatchItem, StartsSublist, ParseList, AllSpaces, LeadingSpaces, TextOf, HasText;
    nextItem, s, i, failed := Unknown, s0, i0, false;
    if !HasText(ts[i]) {
      nextItem := EndOfList;
      return;
    }
    var line := TextOf(ts[i]);
    if StartsSublist(line, indent) {
      RunAtSublist(ts, i, i, indent, kind, s);
      var p;
      p, i := ParseListBlock(ts, i, true);
      failed := !p.Block?;
      if p.Block? {
        s := Items(s.done, s.at, s.current + [p.value], s.count + 1, s.paragraphs);
      }
    } else if MatchItem(line, indent, kind).Some? {
      nextItem := AnotherItem;
    } else if MatchList(line).Some? {
      nextItem := EndOfList;
    } else {
      RunAtText(ts, i, indent, kind, s);
      failed := AllSpaces(line);
      if !AllSpaces(line) {
        s := Add(s, [Raw(line[LeadingSpaces(line)..])]);
        i := i + 1;
      }
    }
  }

  method ParseListBlock(ts: seq<Tok>, i0: nat, sub: bool) returns (r: Parsed<Tok>, i: nat)
    requires i0 < |ts|
    ensures r == ParseList(ts, i0, sub) && Leaves(r, i0, i)
    decreases |ts| - i0, 0
  {
    hide ListRun, MatchList, MatchItem, StartsSublist, ParseList, TextOf, HasText, Ends;
    i := i0;
    ListAnswer(ts, i0, sub);
    if !CanContainMarkup(ts[i]) || MatchList(ts[i].text).None? {
      return NoBlock, i;
    }
    var m := MatchList(ts[i].text).value;
    var indent, kind := m.indent, m.kind;
    if !sub && indent >= 4 {
      return NoBlock, i;
    }
    var originalI := i;
    var s := Items([], i, [Raw(m.content)], 1, false);
    i := i + 1;
    ghost var all, ended := ListRun(ts, i, indent, kind, s), false;
    while i != |ts|
      invariant i0 < i <= |ts| && !ended
      invariant all == ListRun(ts, i, indent, kind, s)
      decreases |ts| - i
    {
      ghost var s0, from := s, i;
      var nextItem, failed;
      if ts[i].Blank? {
        if i + 1 < |ts| && !HasText(ts[i + 1]) {
          EndsBeforeNoText(ts, i, indent, kind);
          break;
        }
        nextItem, s, i, failed := AtBlankLine(ts, i, indent, kind, s);
      } else {
        nextItem, s, i, failed := AtTextLine(ts, i, indent, kind, s);
      }
      if failed {
        return Undefined, i;
      }
      if nextItem == Unknown {
        continue;
      }
      if nextItem == AnotherItem {
        RunAtItem(ts, from, i, indent, kind, s0);
      } else {
        RunEnds(ts, from, indent, kind, s0);
        ended := true;
      }
      s := s.(done := Flushed(s.done, s.at, s.current), current := []);
      if nextItem == AnotherItem {
        s := Items(s.done, i, [Raw(MatchItem(TextOf(ts[i]), indent, kind).value)], s.count + 1, s.paragraphs);
        i := i + 1;
      } else {
        break;
      }
    }
    if !ended {
      EndsAtEnd(ts, i, indent, kind);
      RunEnds(ts, i, indent, kind, s);
    }
    s := s.(done := Flushed(s.done, s.at, s.current), current := []);
    if s.count > 1 || indent != 0 {
      r := Block(List(kind, s.paragraphs, indent, s.done), i);
    } else {
      r, i := NoBlock, originalI;
    }
  }

  lemma {:induction false} EndsBeforeNoText(ts: seq<Tok>, i: nat, indent: nat, kind: ListKind)
    requires i + 1 < |ts| && ts[i].Blank? && !HasText(ts[i + 1])
    ensures Ends(ts, i, indent, kind)
  {
  }

  lemma {:induction false} EndsAtEnd(ts: seq<Tok>, i: nat, indent: nat, kind: ListKind)
    requires i <= |ts|
    ensures i == |ts| ==> Ends(ts, i, indent, kind)
  {
  }

  // ---------------------------------------------------------------------------------------
  // The driver
  // ---------------------------------------------------------------------------------------

  /** What the driver returns when `out` is done and `rest` is what the other tokens become. */
  function Joined(t: Tok, out: seq<Tok>, rest: Option<seq<Tok>>): Option<Tok>
    requires IsContainer(t)
  {
    if rest.Some? then Some(t.(subs := out + rest.value)) else None
  }

  lemma {:induction false} JoinOne(c: Tok, out: seq<Tok>, t: Option<Tok>, rest: Option<seq<Tok>>)
    requires IsContainer(c)
    ensures t.Some? ==> Joined(c, out, Prefix(t, rest)) == Joined(c, out + [t.value], rest)
    ensures t.None? ==> Joined(c, out, Prefix(t, rest)) == None
    ensures Joined(c, out, None) == None
  {
    if t.Some? && rest.Some? {
      assert out + ([t.value] + rest.value) == out + [t.value] + rest.value;
    }
  }

  lemma {:induction false} JoinNothing(c: Tok, out: seq<Tok>, rest: seq<Tok>)
    requires IsContainer(c)
    ensures Joined(c, out, Some([])) == Some(c.(subs := out))
    ensures Joined(c, [], Some(rest)) == Some(c.(subs := rest))
  {
    assert out + [] == out && [] + rest == rest;
  }

  /** The parsers are tried in the program's order, each from where the one before left the iterator. */
  method FirstAnswer(ts: seq<Tok>, i0: nat) returns (subitem: Parsed<Tok>, i: nat)
    requires i0 < |ts|
    ensures subitem == Recognize(ts, i0) && Leaves(subitem, i0, i)
  {
    hide ParseHeader, ParseRule, ParseList, ParseQuote, ParseCode;
    subitem, i := ParseHeader(ts, i0), i0;
    if subitem.NoBlock? {
      subitem := ParseRule(ts, i);
    }
    if subitem.Block? {
      i := subitem.next;
    }
    if subitem.NoBlock? {
      subitem, i := ParseListBlock(ts, i, false);
    }
    if subitem.NoBlock? {
      subitem, i := ParseBlockQuote(ts, i);
    }
    if subitem.NoBlock? {
      subitem, i := ParseCodeBlock(ts, i);
    }
  }

  lemma {:induction false} DriveAt(ts: seq<Tok>, i: nat)
    requires i < |ts|
    ensures IsContainer(ts[i]) ==> DriveFrom(ts, i) == Prefix(DriveInside(ts[i]), DriveFrom(ts, i + 1))
    ensures !IsContainer(ts[i]) ==> (
      match Recognize(ts, i)
      case Undefined => DriveFrom(ts, i) == None
      case NoBlock => DriveFrom(ts, i) == Prefix(Some(ts[i]), DriveFrom(ts, i + 1))
      case Block(t, next) =>
        next <= |ts| &&
        DriveFrom(ts, i) == Prefix(Processed(t), if next == |ts| then Some([]) else DriveFrom(ts, next + 1)))
  {
    hide Recognize;
  }

  /** Only containers weigh: the driver leaves other tokens alone. */
  function Weight(t: Tok): nat {
    if IsContainer(t) then 1 + Chars(t) else 0
  }

  lemma {:induction false} InsideIsSmaller(t: Tok, i: nat)
    requires IsContainer(t) && i < |t.subs|
    ensures Weight(t.subs[i]) <= Weight(t) && Size(t.subs[i]) < Size(t)
    ensures var p := Recognize(t.subs, i); p.Block? ==> Weight(p.value) < Weight(t)
  {
    hide Recognize;
    MemberMeasure(t.subs, i);
    RecognizedShrinks(t.subs, i);
  }

  lemma {:induction false} ProcessedIs(t: Tok)
    requires IsContainer(t)
    ensures Processed(t) == Joined(t, [], DriveFrom(t.subs, 0))
    ensures DriveFrom(t.subs, |t.subs|) == Some([])
  {
    if DriveFrom(t.subs, 0).Some? {
      JoinNothing(t, [], DriveFrom(t.subs, 0).value);
    }
  }

  method ProcessBlocksItems(t: Tok) returns (r: Option<Tok>)
    ensures r == Processed(t)
    decreases Weight(t), Size(t)
  {
    hide DriveFrom, DriveInside, Recognize, Joined, Prefix, Processed, Weight, Size;
    if !IsContainer(t) {
      ProcessedByKind(t);
      return Some(t);
    }
    ProcessedIs(t);
    var processed, ii := [], 0;
    while ii != |t.subs|
      invariant 0 <= ii <= |t.subs|
      invariant Processed(t) == Joined(t, processed, DriveFrom(t.subs, ii))
      decreases |t.subs| - ii
    {
      DriveAt(t.subs, ii);
      InsideIsSmaller(t, ii);
      if !IsContainer(t.subs[ii]) {
        ghost var from := ii;
        var subitem;
        subitem, ii := FirstAnswer(t.subs, ii);
        if subitem.Undefined? {
          JoinOne(t, processed, None, None);
          return None;
        }
        if subitem.Block? {
          var block := ProcessBlocksItems(subitem.value);
          ghost var rest := if subitem.next == |t.subs| then Some([]) else DriveFrom(t.subs, subitem.next + 1);
          JoinOne(t, processed, block, rest);
          if block.None? {
            return None;
          }
          processed := processed + [block.value];
          if ii == |t.subs| {
            break;
          }
        } else {
          JoinOne(t, processed, Some(t.subs[ii]), DriveFrom(t.subs, ii + 1));
          processed := processed + [t.subs[ii]];
        }
      } else {
        ProcessedByKind(t.subs[ii]);
        var block := ProcessBlocksItems(t.subs[ii]);
        JoinOne(t, processed, block, DriveFrom(t.subs, ii + 1));
        if block.None? {
          return None;
        }
        processed := processed + [block.value];
      }
      ii := ii + 1;
    }
    JoinNothing(t, processed, []);
    r := Some(t.(subs := processed));
  }

  lemma {:induction false} ProcessedByKind(t: Tok)
    ensures Processed(t) == if IsContainer(t) then DriveInside(t) else Some(t)
  {
  }
}
