/**
 * Properties of the block parsers: a code block is the longest run of its lines, and quotes and
 * lists hold fewer characters than the lines they came from.
 */
module BlockProofs {
  import opened BlockLines
  import opened Blocks
  import opened Options

  // ---------------------------------------------------------------------------------------
  // Code blocks: the longest run
  // ---------------------------------------------------------------------------------------

  predicate BlankOrCode(t: Tok) {
    t.Blank? || CodeLine(t).Some?
  }

  /** What `CodeRun` collects: blank and code lines only, the last one a code line. */
  lemma {:induction false} CodeRunLines(ts: seq<Tok>, i: nat)
    requires i <= |ts|
    ensures var r := CodeRun(ts, i);
      && (forall k :: i <= k < i + |r| ==> BlankOrCode(ts[k]) && r[k - i] == CodeLine(ts[k]))
      && (r != [] ==> r[|r| - 1].Some?)
    decreases |ts| - i
  {
    if i < |ts| && BlankOrCode(ts[i]) {
      CodeRunLines(ts, i + 1);
      var r, rest := CodeRun(ts, i), CodeRun(ts, i + 1);
      if r != [] {
        forall k | i <= k < i + |r| ensures BlankOrCode(ts[k]) && r[k - i] == CodeLine(ts[k]) {
          if k > i {
            assert r[k - i] == rest[k - (i + 1)];
          }
        }
      }
    }
  }

  /** And it stops only where no code line can be reached over blank and code lines. */
  lemma {:induction false} CodeRunIsLongest(ts: seq<Tok>, i: nat, k: nat)
    requires i <= |ts|
    requires i + |CodeRun(ts, i)| <= k < |ts| && CodeLine(ts[k]).Some?
    ensures exists b :: i + |CodeRun(ts, i)| <= b < k && !BlankOrCode(ts[b])
    decreases |ts| - i
  {
    if BlankOrCode(ts[i]) {
      CodeRunIsLongest(ts, i + 1, k);
    } else {
      assert i < k;
    }
  }

  // ---------------------------------------------------------------------------------------
  // Characters
  // ---------------------------------------------------------------------------------------

  function Chars(t: Tok): nat
    decreases t, 0
  {
    match t
    case Quote(_, subs) => CharsOf(subs)
    case List(_, _, _, subs) => CharsOf(subs)
    case Item(_, subs) => CharsOf(subs)
    case _ => |TextOf(t)|
  }

  function CharsOf(ts: seq<Tok>): nat
    decreases ts, 0
  {
    if ts == [] then 0 else Chars(ts[0]) + CharsOf(ts[1..])
  }

  /** The characters from position `i` on. */
  function CharsFrom(ts: seq<Tok>, i: nat): nat
    requires i <= |ts|
    decreases |ts| - i
  {
    if i == |ts| then 0 else Chars(ts[i]) + CharsFrom(ts, i + 1)
  }

  lemma {:induction false} CharsFromStart(ts: seq<Tok>, i: nat)
    requires i <= |ts|
    ensures CharsFrom(ts, i) == CharsOf(ts[i..])
    decreases |ts| - i
  {
    if i < |ts| {
      CharsFromStart(ts, i + 1);
      assert ts[i..][1..] == ts[i + 1..];
    }
  }

  lemma {:induction false} CharsConcat(a: seq<Tok>, b: seq<Tok>)
    ensures CharsOf(a + b) == CharsOf(a) + CharsOf(b)
  {
    if a == [] {
      assert a + b == b;
    } else {
      assert (a + b)[1..] == a[1..] + b;
      CharsConcat(a[1..], b);
    }
  }

  lemma {:induction false} CharsShort(a: Tok, b: Tok)
    ensures CharsOf([a]) == Chars(a) && CharsOf([a, b]) == Chars(a) + Chars(b)
  {
    assert [a, b][1..] == [b] && [b][1..] == [] && [a][1..] == [];
    assert CharsOf([b]) == Chars(b);
  }

  lemma {:induction false} CodeTextConcat(a: seq<Option<string>>, b: seq<Option<string>>)
    ensures CodeText(a + b) == CodeText(a) + CodeText(b)
    decreases b
  {
    if b == [] {
      assert a + b == a;
    } else {
      var n := |b| - 1;
      assert (a + b)[..|a| + n] == a + b[..n];
      CodeTextConcat(a, b[..n]);
      var x, y, z := CodeText(a), CodeText(b[..n]), match b[n] case None => "" case Some(t) => t;
      assert x + y + z + "\n" == x + (y + z + "\n");
    }
  }

  lemma {:induction false} CodeTextShort(x: Option<string>, y: Option<string>)
    ensures |CodeText([x])| == 1 + (if x.Some? then |x.value| else 0)
    ensures |CodeText([x, y])| == |CodeText([x])| + |CodeText([y])|
  {
    assert [x][..0] == [];
    assert [x, y] == [x] + [y];
    CodeTextConcat([x], [y]);
  }

  lemma {:induction false} QuoteShrinks(ts: seq<Tok>, i: nat, level: nat)
    requires i <= |ts| && level >= 1
    ensures var r := QuoteRun(ts, i, level);
      r.Block? ==> CharsOf(r.value) + CharsFrom(ts, r.next) <= CharsFrom(ts, i)
    decreases |ts| - i
  {
    if i < |ts| {
      if ts[i].Blank? {
        if i + 1 < |ts| && HasText(ts[i + 1]) && MatchContinuation(TextOf(ts[i + 1]), level).Some? {
          var raw := Raw(MatchContinuation(TextOf(ts[i + 1]), level).value);
          QuoteShrinks(ts, i + 2, level);
          CharsShort(Blank(""), raw);
          var r := QuoteRun(ts, i + 2, level);
          if r.Block? {
            CharsConcat([Blank(""), raw], r.value);
          }
        }
      } else if HasText(ts[i]) && MatchContinuation(TextOf(ts[i]), level).Some? {
        var line := QuoteLine(MatchContinuation(TextOf(ts[i]), level).value);
        QuoteShrinks(ts, i + 1, level);
        CharsShort(line, line);
        var r := QuoteRun(ts, i + 1, level);
        if r.Block? {
          CharsConcat([line], r.value);
        }
      }
    }
  }

  lemma {:induction false} NestedCodeShrinks(ts: seq<Tok>, i: nat, depth: nat)
    requires i <= |ts| && depth >= 2
    ensures var r := NestedCode(ts, i, depth);
      r.Block? ==> |CodeText(r.value)| + CharsFrom(ts, r.next) <= CharsFrom(ts, i)
    decreases |ts| - i
  {
    if i < |ts| {
      if ts[i].Blank? {
        if i + 1 < |ts| && HasText(ts[i + 1]) && AfterSpaces(TextOf(ts[i + 1]), depth).Some? {
          var m := AfterSpaces(TextOf(ts[i + 1]), depth);
          NestedCodeShrinks(ts, i + 2, depth);
          CodeTextShort(None, m);
          CodeTextShort(m, m);
          var r := NestedCode(ts, i + 2, depth);
          if r.Block? {
            CodeTextConcat([None, m], r.value);
          }
        }
      } else if HasText(ts[i]) && AfterSpaces(TextOf(ts[i]), depth).Some? {
        var m := AfterSpaces(TextOf(ts[i]), depth);
        NestedCodeShrinks(ts, i + 1, depth);
        CodeTextShort(m, m);
        var r := NestedCode(ts, i + 1, depth);
        if r.Block? {
          CodeTextConcat([m], r.value);
        }
      }
    }
  }

  /** The characters collected so far. */
  function Collected(s: Items): nat {
    CharsOf(s.done) + CharsOf(s.current)
  }

  lemma {:induction false} FinishKeepsChars(s: Items)
    ensures Collected(FinishItem(s)) == Collected(s) && FinishItem(s).current == []
  {
    var item := Item(s.at, s.current);
    CharsConcat(s.done, [item]);
    CharsShort(item, item);
  }

  lemma {:induction false} AddCounts(s: Items, ts: seq<Tok>)
    ensures Collected(Add(s, ts)) == Collected(s) + CharsOf(ts)
  {
    CharsConcat(s.current, ts);
  }

  lemma {:induction false} NextItemCounts(s: Items, at: nat, content: string)
    ensures Collected(NextItem(s, at, content)) == Collected(s) + |content|
  {
    FinishKeepsChars(s);
    CharsShort(Raw(content), Raw(content));
  }

  /** One turn collects no more characters than it passes. */
  ghost predicate TurnShrinks(ts: seq<Tok>, i: nat, s: Items, t: Turn)
    requires i <= |ts|
  {
    && (t.Stop? ==> i <= t.next <= |ts| && CharsFrom(ts, t.next) <= CharsFrom(ts, i))
    && (t.Go? ==> t.next <= |ts| && Collected(t.items) + CharsFrom(ts, t.next) <= Collected(s) + CharsFrom(ts, i))
  }

  lemma {:induction false} SublistShrinks(ts: seq<Tok>, k: nat, s: Items, paragraphs: bool)
    requires k < |ts|
    ensures TurnShrinks(ts, k, s, TakeSublist(ts, k, s, paragraphs))
    decreases |ts| - k, 1
  {
    ListLosesChars(ts, k, true);
    var p := ParseList(ts, k, true);
    if p.Block? {
      AddCounts(s, [p.value]);
      CharsShort(p.value, p.value);
    }
  }

  lemma {:induction false} BlankTurnShrinks(ts: seq<Tok>, i: nat, indent: nat, kind: ListKind, s: Items)
    requires i + 1 < |ts| && ts[i].Blank? && HasText(ts[i + 1])
    ensures TurnShrinks(ts, i, s, TurnAfterBlank(ts, i, TextOf(ts[i + 1]), indent, kind, s))
    decreases |ts| - i, 2
  {
    hide NestedCode, StartsSublist, TakeSublist, MatchItem, AfterSpaces;
    assert CharsFrom(ts, i) >= CharsFrom(ts, i + 1) == |TextOf(ts[i + 1])| + CharsFrom(ts, i + 2);
    var line := TextOf(ts[i + 1]);
    if StartsSublist(line, indent) {
      SublistShrinks(ts, i + 1, s, true);
    } else if MatchItem(line, indent, kind).Some? {
      NextItemCounts(s, i + 1, MatchItem(line, indent, kind).value);
    } else if ContinuedAfterBlank(line, indent + 4).Some? {
      var raw := Raw(ContinuedAfterBlank(line, indent + 4).value);
      AddCounts(s, [Blank(""), raw]);
      CharsShort(Blank(""), raw);
    } else if AfterSpaces(line, indent + 8).Some? {
      CodeTurnShrinks(ts, i, indent, s);
    }
  }

  lemma {:induction false} CodeTurnShrinks(ts: seq<Tok>, i: nat, indent: nat, s: Items)
    requires i + 1 < |ts| && HasText(ts[i + 1]) && AfterSpaces(TextOf(ts[i + 1]), indent + 8).Some?
    ensures var n := NestedCode(ts, i + 2, indent + 8);
      n.Block? ==>
        Collected(Add(s, [Blank(""), Code([AfterSpaces(TextOf(ts[i + 1]), indent + 8)] + n.value)]))
          + CharsFrom(ts, n.next)
          <= Collected(s) + CharsFrom(ts, i)
  {
    hide NestedCode, CodeText, AfterSpaces;
    var m := AfterSpaces(TextOf(ts[i + 1]), indent + 8);
    NestedCodeShrinks(ts, i + 2, indent + 8);
    assert CharsFrom(ts, i) >= CharsFrom(ts, i + 1) == |TextOf(ts[i + 1])| + CharsFrom(ts, i + 2);
    var n := NestedCode(ts, i + 2, indent + 8);
    if n.Block? {
      var code := Code([m] + n.value);
      CodeTextConcat([m], n.value);
      CodeTextShort(m, m);
      CharsShort(Blank(""), code);
      AddCounts(s, [Blank(""), code]);
    }
  }

  lemma {:induction false} LineTurnShrinks(ts: seq<Tok>, i: nat, indent: nat, kind: ListKind, s: Items)
    requires i < |ts| && HasText(ts[i])
    ensures TurnShrinks(ts, i, s, TurnOnLine(ts, i, TextOf(ts[i]), indent, kind, s))
    decreases |ts| - i, 2
  {
    var line := TextOf(ts[i]);
    if StartsSublist(line, indent) {
      SublistShrinks(ts, i, s, s.paragraphs);
    } else if MatchItem(line, indent, kind).Some? {
      NextItemCounts(s, i, MatchItem(line, indent, kind).value);
    } else if MatchList(line).None? && !AllSpaces(line) {
      var raw := Raw(line[LeadingSpaces(line)..]);
      AddCounts(s, [raw]);
      CharsShort(raw, raw);
    }
  }

  /** The list loop never collects more characters than it passes. */
  lemma {:induction false} ListShrinks(ts: seq<Tok>, i: nat, indent: nat, kind: ListKind, s: Items)
    requires i <= |ts|
    ensures var r := ListRun(ts, i, indent, kind, s);
      r.Block? ==> CharsOf(r.value.done) + CharsFrom(ts, r.next) <= Collected(s) + CharsFrom(ts, i)
    decreases |ts| - i, 4
  {
    FinishKeepsChars(s);
    if i < |ts| {
      if ts[i].Blank? {
        if i + 1 < |ts| && HasText(ts[i + 1]) {
          BlankTurnShrinks(ts, i, indent, kind, s);
        }
      } else if HasText(ts[i]) {
        LineTurnShrinks(ts, i, indent, kind, s);
      }
      var t := ListTurn(ts, i, indent, kind, s);
      assert TurnShrinks(ts, i, s, t);
      if t.Go? {
        ListShrinks(ts, t.next, indent, kind, t.items);
      }
    }
  }

  /** A list holds strictly fewer characters than the lines it consumed. */
  lemma {:induction false} ListLosesChars(ts: seq<Tok>, i: nat, sub: bool)
    requires i < |ts|
    ensures var p := ParseList(ts, i, sub);
      p.Block? ==> Chars(p.value) + CharsFrom(ts, p.next) < CharsFrom(ts, i)
    decreases |ts| - i, 0
  {
    hide ListRun;
    var p := ParseList(ts, i, sub);
    if p.Block? {
      var m := MatchList(ts[i].text).value;
      var s := Items([], i, [Raw(m.content)], 1, false);
      CharsShort(Raw(m.content), Raw(m.content));
      ListShrinks(ts, i + 1, m.indent, m.kind, s);
    }
  }

  /** So does a quote. */
  lemma {:induction false} QuoteLosesChars(ts: seq<Tok>, i: nat)
    requires i < |ts|
    ensures var p := ParseQuote(ts, i);
      p.Block? ==> Chars(p.value) + CharsFrom(ts, p.next) < CharsFrom(ts, i)
  {
    var p := ParseQuote(ts, i);
    if p.Block? {
      var m := MatchQuote(ts[i].text).value;
      QuoteShrinks(ts, i + 1, m.level);
      CharsShort(Raw(m.content), Raw(m.content));
      CharsConcat([Raw(m.content)], QuoteRun(ts, i + 1, m.level).value);
    }
  }
}
