/**
 * When the assertions of the list parser fail, exactly: at one of the places its loop comes to,
 * a line asks for a branch that the program does not have.
 */
module ListTrouble {
  import opened BlockLines
  import opened Blocks
  import opened Options

  /** The loop of a list with this indentation and kind, about to look at position `at`. */
  datatype Head = Head(at: nat, indent: nat, kind: ListKind)

  predicate IsListLine(t: Tok) {
    CanContainMarkup(t) && MatchList(t.text).Some?
  }

  /** Where the line stands that decides at `at`: behind a blank line, the next one. */
  function LineAt(ts: seq<Tok>, at: nat): nat
    requires at < |ts|
  {
    if ts[at].Blank? then at + 1 else at
  }

  predicate Looks(ts: seq<Tok>, h: Head) {
    h.at < |ts| && LineAt(ts, h.at) < |ts| && HasText(ts[LineAt(ts, h.at)])
  }

  // ---------------------------------------------------------------------------------------
  // The look-ahead inside a code block of an item
  // ---------------------------------------------------------------------------------------

  predicate Deep(t: Tok, depth: nat) {
    HasText(t) && AfterSpaces(TextOf(t), depth).Some?
  }

  /** From `i` to `k` there are only deep lines, and blank ones with a deep line behind. */
  predicate CodeUpTo(ts: seq<Tok>, i: nat, k: nat, depth: nat)
    requires i <= k <= |ts|
    decreases k - i
  {
    if i == k then true
    else if ts[i].Blank? then i + 2 <= k && Deep(ts[i + 1], depth) && CodeUpTo(ts, i + 2, k, depth)
    else Deep(ts[i], depth) && CodeUpTo(ts, i + 1, k, depth)
  }

  /** A blank line with no line of text behind it. */
  predicate LooksPastText(ts: seq<Tok>, k: nat) {
    k < |ts| && ts[k].Blank? && (k + 1 == |ts| || !HasText(ts[k + 1]))
  }

  /** The code block from `i` on comes to a blank line with no line of text behind it. */
  ghost predicate CodeTrouble(ts: seq<Tok>, i: nat, depth: nat)
    requires i <= |ts|
  {
    exists k :: i <= k <= |ts| && CodeUpTo(ts, i, k, depth) && LooksPastText(ts, k)
  }

  /** The look-ahead reads something that is no line exactly in this case. */
  lemma {:induction false} NestedCodeExactly(ts: seq<Tok>, i: nat, depth: nat)
    requires i <= |ts|
    ensures NestedCode(ts, i, depth).Undefined? <==> CodeTrouble(ts, i, depth)
    decreases |ts| - i
  {
    hide AfterSpaces, TextOf;
    if i < |ts| && LooksPastText(ts, i) {
      assert CodeUpTo(ts, i, i, depth);
    } else if i < |ts| {
      var n := if ts[i].Blank? then i + 2 else i + 1;
      if Deep(ts[n - 1], depth) {
        NestedCodeExactly(ts, n, depth);
        if CodeTrouble(ts, n, depth) {
          var k :| n <= k <= |ts| && CodeUpTo(ts, n, k, depth) && LooksPastText(ts, k);
          assert CodeUpTo(ts, i, k, depth);
        }
      }
    }
  }

  // ---------------------------------------------------------------------------------------
  // The loop
  // ---------------------------------------------------------------------------------------

  /**
   * The guard of a branch that fails: a line starts a sub-list and is no list line; or it opens a
   * code block with trouble ahead; or it is not blank and has nothing but spaces.
   */
  ghost predicate Trouble(ts: seq<Tok>, h: Head) {
    && Looks(ts, h)
    && var k := LineAt(ts, h.at);
       var line := TextOf(ts[k]);
       if StartsSublist(line, h.indent) then !IsListLine(ts[k])
       else
         && MatchItem(line, h.indent, h.kind).None?
         && if ts[h.at].Blank? then
              && ContinuedAfterBlank(line, h.indent + 4).None? && AfterSpaces(line, h.indent + 8).Some?
              && CodeTrouble(ts, k + 1, h.indent + 8)
            else MatchList(line).None? && AllSpaces(line)
  }

  /** The loop of the sub-list that starts here. */
  function SublistHead(ts: seq<Tok>, h: Head): (r: Option<Head>)
    ensures r.Some? ==> h.at < r.value.at <= |ts|
  {
    if !Looks(ts, h) then None
    else
      var k := LineAt(ts, h.at);
      if StartsSublist(TextOf(ts[k]), h.indent) && IsListLine(ts[k]) then
        var m := MatchList(ts[k].text).value;
        Some(Head(k + 1, m.indent, m.kind))
      else None
  }

  const NOTHING := Items([], 0, [], 0, false)

  /** The next turn of the same loop; what has been collected does not matter. */
  function NextHead(ts: seq<Tok>, h: Head): (r: Option<Head>)
    ensures r.Some? ==> h.at < r.value.at <= |ts|
  {
    if h.at >= |ts| then None
    else match ListTurn(ts, h.at, h.indent, h.kind, NOTHING)
      case Go(next, _) => Some(h.(at := next))
      case _ => None
  }

  /** The loop heads that a run from `h` comes to, those of sub-lists included. */
  function Heads(ts: seq<Tok>, h: Head): set<Head>
    requires h.at <= |ts|
    decreases |ts| - h.at
  {
    var below, next := SublistHead(ts, h), NextHead(ts, h);
    {h} + (if below.Some? then Heads(ts, below.value) else {}) + (if next.Some? then Heads(ts, next.value) else {})
  }

  /** The items collected have no part in where a turn leads. */
  predicate SameWay(a: Turn, b: Turn) {
    match a
    case Fail => b.Fail?
    case Stop(next) => b == Stop(next)
    case Go(next, _) => b.Go? && b.next == next
  }

  lemma {:induction false} SublistWay(ts: seq<Tok>, k: nat, s: Items, t: Items, p: bool, q: bool)
    requires k < |ts|
    ensures SameWay(TakeSublist(ts, k, s, p), TakeSublist(ts, k, t, q))
  {
    hide ParseList;
  }

  lemma {:induction false} ItemsDoNotMatter(ts: seq<Tok>, i: nat, indent: nat, kind: ListKind, s: Items, t: Items)
    requires i < |ts|
    ensures SameWay(ListTurn(ts, i, indent, kind, s), ListTurn(ts, i, indent, kind, t))
  {
    hide TurnAfterBlank, TurnOnLine, TextOf, HasText;
    if ts[i].Blank? {
      if i + 1 < |ts| && HasText(ts[i + 1]) {
        BlankWay(ts, i, TextOf(ts[i + 1]), indent, kind, s, t);
      }
    } else if HasText(ts[i]) {
      LineWay(ts, i, TextOf(ts[i]), indent, kind, s, t);
    }
  }

  lemma {:induction false} BlankWay(
    ts: seq<Tok>, i: nat, line: string, indent: nat, kind: ListKind, s: Items, t: Items)
    requires i + 1 < |ts|
    ensures SameWay(TurnAfterBlank(ts, i, line, indent, kind, s), TurnAfterBlank(ts, i, line, indent, kind, t))
  {
    hide TakeSublist, NestedCode, MatchItem, StartsSublist, AfterSpaces, ContinuedAfterBlank;
    SublistWay(ts, i + 1, s, t, true, true);
  }

  lemma {:induction false} LineWay(
    ts: seq<Tok>, i: nat, line: string, indent: nat, kind: ListKind, s: Items, t: Items)
    requires i < |ts|
    ensures SameWay(TurnOnLine(ts, i, line, indent, kind, s), TurnOnLine(ts, i, line, indent, kind, t))
  {
    hide TakeSublist, MatchItem, MatchList, StartsSublist, AllSpaces, LeadingSpaces;
    SublistWay(ts, i, s, t, s.paragraphs, t.paragraphs);
  }

  /** A line that starts a sub-list is indented, so its list is never taken for a false alarm. */
  lemma {:induction false} SublistAnswers(ts: seq<Tok>, k: nat, indent: nat)
    requires k < |ts| && HasText(ts[k]) && StartsSublist(TextOf(ts[k]), indent)
    ensures !IsListLine(ts[k]) ==> ParseList(ts, k, true) == NoBlock
    ensures IsListLine(ts[k]) ==>
      var m := MatchList(ts[k].text).value;
      var r := ListRun(ts, k + 1, m.indent, m.kind, Items([], k, [Raw(m.content)], 1, false));
      ParseList(ts, k, true).Block? <==> !r.Undefined?
  {
    hide ListRun, MatchItem;
  }

  lemma {:induction false} SublistFails(ts: seq<Tok>, k: nat, s: Items, paragraphs: bool)
    requires k < |ts|
    ensures TakeSublist(ts, k, s, paragraphs).Fail? <==> !ParseList(ts, k, true).Block?
  {
    hide ParseList;
  }

  /** A turn fails at trouble, or where the sub-list at hand fails. */
  lemma {:induction false} TurnFails(ts: seq<Tok>, h: Head, s: Items)
    requires h.at < |ts|
    ensures ListTurn(ts, h.at, h.indent, h.kind, s).Fail? <==>
            (Trouble(ts, h) || (Looks(ts, h) && StartsSublist(TextOf(ts[LineAt(ts, h.at)]), h.indent)
                                && IsListLine(ts[LineAt(ts, h.at)]) && !ParseList(ts, LineAt(ts, h.at), true).Block?))
  {
    hide ListRun, NestedCode, MatchItem, MatchList, StartsSublist, AfterSpaces, ContinuedAfterBlank, AllSpaces,
         CodeTrouble,
         TextOf, LeadingSpaces, ParseList, IsListLine;
    var k := LineAt(ts, h.at);
    if Looks(ts, h) {
      NestedCodeExactly(ts, k + 1, h.indent + 8);
      if StartsSublist(TextOf(ts[k]), h.indent) {
        SublistAnswers(ts, k, h.indent);
        SublistFails(ts, k, s, true);
        SublistFails(ts, k, s, s.paragraphs);
      }
    }
  }

  /** A run from `h` comes to trouble. */
  ghost predicate InTrouble(ts: seq<Tok>, h: Head)
    requires h.at <= |ts|
  {
    exists x :: x in Heads(ts, h) && Trouble(ts, x)
  }

  lemma {:induction false} TroubleSplits(ts: seq<Tok>, h: Head)
    requires h.at <= |ts|
    ensures var below, next := SublistHead(ts, h), NextHead(ts, h);
      InTrouble(ts, h) <==>
        Trouble(ts, h) || (below.Some? && InTrouble(ts, below.value)) || (next.Some? && InTrouble(ts, next.value))
  {
    hide Trouble, SublistHead, NextHead;
    assert h in Heads(ts, h);
    var below, next := SublistHead(ts, h), NextHead(ts, h);
    if below.Some? && InTrouble(ts, below.value) {
      var x :| x in Heads(ts, below.value) && Trouble(ts, x);
      assert x in Heads(ts, h);
    }
    if next.Some? && InTrouble(ts, next.value) {
      var x :| x in Heads(ts, next.value) && Trouble(ts, x);
      assert x in Heads(ts, h);
    }
  }

  /** The loop fails if and only if it comes to trouble, in its own lines or in those of a sub-list. */
  lemma {:induction false} RunFailsExactly(ts: seq<Tok>, h: Head, s: Items)
    requires h.at <= |ts|
    ensures ListRun(ts, h.at, h.indent, h.kind, s).Undefined? <==> InTrouble(ts, h)
    decreases |ts| - h.at
  {
    hide Trouble, ListTurn, ParseList, StartsSublist, MatchList, InTrouble;
    TroubleSplits(ts, h);
    if h.at < |ts| {
      TurnFails(ts, h, s);
      ItemsDoNotMatter(ts, h.at, h.indent, h.kind, s, NOTHING);
      var below, next := SublistHead(ts, h), NextHead(ts, h);
      if below.Some? {
        var k := LineAt(ts, h.at);
        SublistAnswers(ts, k, h.indent);
        RunFailsExactly(ts, below.value, Items([], k, [Raw(MatchList(ts[k].text).value.content)], 1, false));
      }
      var t := ListTurn(ts, h.at, h.indent, h.kind, s);
      if t.Go? {
        RunFailsExactly(ts, next.value, t.items);
      }
    } else {
      NoTroubleAtEnd(ts, h);
    }
  }

  lemma {:induction false} NoTroubleAtEnd(ts: seq<Tok>, h: Head)
    requires h.at >= |ts|
    ensures !Trouble(ts, h) && SublistHead(ts, h).None? && NextHead(ts, h).None?
  {
  }

  /** The head at which the loop of a list starts. */
  function FirstHead(ts: seq<Tok>, i: nat): (h: Head)
    requires i < |ts| && IsListLine(ts[i])
    ensures h.at == i + 1
  {
    var m := MatchList(ts[i].text).value;
    Head(i + 1, m.indent, m.kind)
  }

  /** The parser fails if and only if it starts a list and its loop comes to trouble. */
  lemma {:induction false} ListFailsExactly(ts: seq<Tok>, i: nat, sub: bool)
    requires i < |ts|
    ensures ParseList(ts, i, sub).Undefined? <==>
            && IsListLine(ts[i]) && (sub || MatchList(ts[i].text).value.indent < 4)
            && InTrouble(ts, FirstHead(ts, i))
  {
    hide ListRun, MatchList, InTrouble;
    if IsListLine(ts[i]) {
      var m := MatchList(ts[i].text).value;
      RunFailsExactly(ts, FirstHead(ts, i), Items([], i, [Raw(m.content)], 1, false));
    }
  }

  // ---------------------------------------------------------------------------------------
  // Lines on which nothing fails
  // ---------------------------------------------------------------------------------------

  /** Every line that looks like the start of a sub-list is a list line. */
  predicate SublistsAreLists(ts: seq<Tok>) {
    forall k :: 0 <= k < |ts| && HasText(ts[k]) && StartsSublist(TextOf(ts[k]), 0) ==> IsListLine(ts[k])
  }

  /** Only blank lines consist of spaces, but for the first line. */
  predicate BlanksAreBlank(ts: seq<Tok>) {
    forall k :: 0 < k < |ts| && HasText(ts[k]) && !ts[k].Blank? ==> !AllSpaces(TextOf(ts[k]))
  }

  /** A blank line at the end, or before a token without text, does not stand behind eight spaces. */
  predicate NoCodeAtEnd(ts: seq<Tok>) {
    forall k :: 0 < k < |ts| && LooksPastText(ts, k) && HasText(ts[k - 1]) ==> AfterSpaces(TextOf(ts[k - 1]), 8).None?
  }

  predicate Plain(ts: seq<Tok>) {
    SublistsAreLists(ts) && BlanksAreBlank(ts) && NoCodeAtEnd(ts)
  }

  lemma {:induction false} LaterHeads(ts: seq<Tok>, h: Head, x: Head)
    requires h.at <= |ts| && x in Heads(ts, h)
    ensures x.at >= h.at
    decreases |ts| - h.at
  {
    hide SublistHead, NextHead;
    var below, next := SublistHead(ts, h), NextHead(ts, h);
    if below.Some? && x in Heads(ts, below.value) {
      LaterHeads(ts, below.value, x);
    } else if next.Some? && x in Heads(ts, next.value) {
      LaterHeads(ts, next.value, x);
    }
  }

  lemma {:induction false} LastIsDeep(ts: seq<Tok>, i: nat, k: nat, depth: nat)
    requires i < k <= |ts| && CodeUpTo(ts, i, k, depth)
    ensures Deep(ts[k - 1], depth)
    decreases k - i
  {
    var n := if ts[i].Blank? then i + 2 else i + 1;
    if n < k {
      LastIsDeep(ts, n, k, depth);
    }
  }

  /** The look-ahead of a code block that starts at `k` stays on lines. */
  lemma {:induction false} NoCodeTrouble(ts: seq<Tok>, k: nat, depth: nat)
    requires NoCodeAtEnd(ts) && k < |ts| && Deep(ts[k], depth) && depth >= 8
    ensures !CodeTrouble(ts, k + 1, depth)
  {
    hide CodeUpTo, TextOf, HasText;
    forall q | k + 1 <= q <= |ts| && CodeUpTo(ts, k + 1, q, depth) ensures !LooksPastText(ts, q) {
      if q > k + 1 {
        LastIsDeep(ts, k + 1, q, depth);
      }
    }
  }

  lemma {:induction false} NoTrouble(ts: seq<Tok>, x: Head)
    requires Plain(ts) && x.at > 0
    ensures !Trouble(ts, x)
  {
    hide MatchItem, MatchList, ContinuedAfterBlank, AllSpaces, CodeTrouble, StartsSublist, NoCodeAtEnd, AfterSpaces;
    if Looks(ts, x) {
      var k := LineAt(ts, x.at);
      DeepIsShallow(TextOf(ts[k]), x.indent);
      if Deep(ts[k], x.indent + 8) {
        NoCodeTrouble(ts, k, x.indent + 8);
      }
    }
  }

  /** What starts a sub-list of a deep list starts one of a list without indentation. */
  lemma {:induction false} DeepIsShallow(line: string, indent: nat)
    ensures StartsSublist(line, indent) ==> StartsSublist(line, 0)
  {
  }

  /** On plain lines no assertion of the list parser fails, and it reads nothing past the end. */
  lemma {:induction false} ListDefined(ts: seq<Tok>, i: nat, sub: bool)
    requires i < |ts| && Plain(ts)
    ensures !ParseList(ts, i, sub).Undefined?
  {
    hide Trouble, Heads, Plain, MatchList;
    ListFailsExactly(ts, i, sub);
    if IsListLine(ts[i]) {
      forall x | x in Heads(ts, FirstHead(ts, i)) ensures !Trouble(ts, x) {
        LaterHeads(ts, FirstHead(ts, i), x);
        NoTrouble(ts, x);
      }
    }
  }

  // ---------------------------------------------------------------------------------------
  // Lines on which something fails
  // ---------------------------------------------------------------------------------------

  lemma {:induction false} LeadingIs(s: string, n: nat)
    requires n <= |s| && (forall i :: 0 <= i < n ==> s[i] == ' ') && (n < |s| ==> s[n] != ' ')
    ensures LeadingSpaces(s) == n
  {
  }

  lemma {:induction false} BulletLine(content: string)
    requires content != "" && content[0] !in " *-"
    ensures MatchList("* " + content) == Some(ListStart(0, Bullets('*'), content))
  {
    var s := "* " + content;
    LeadingIs(s, 0);
    LeadingIs(s[1..], 1);
    assert Drop(s[1..], 1) == content;
  }

  /** A bullet followed by emphasis: it starts a sub-list, but it is no list line. */
  lemma {:induction false} EmphasisIsNoItem(line: string, n: nat, rest: string)
    requires n < |line| && LeadingSpaces(line) == n && line[n] == '*' && line[n + 1..] == rest
    requires LeadingSpaces(rest) == 1 && |rest| > 1 && rest[1] == '*'
    ensures n > 0 ==> StartsSublist(line, 0)
    ensures MatchList(line) == None
  {
    assert BulletContent(rest) == None;
    assert line[n..][0] == '*' && DigitRun(line[n..]) == 0;
  }

  /** After `* a`, trouble in the next line is the parser's. */
  lemma {:induction false} TroubleAfterItem(ts: seq<Tok>)
    requires |ts| > 1 && ts[0] == Raw("* a") && Trouble(ts, Head(1, 0, Bullets('*')))
    ensures ParseList(ts, 0, false) == Undefined
  {
    hide MatchList, Trouble, InTrouble, ParseList;
    assert "* a" == "* " + "a";
    BulletLine("a");
    TroubleSplits(ts, FirstHead(ts, 0));
    ListFailsExactly(ts, 0, false);
  }

  /** `* a` followed by `  * *b*`: the second line looks like a sub-list and is none. */
  lemma {:induction false} EmphasisInSublistFails()
    ensures ParseList([Raw("* a"), Raw("  * *b*")], 0, false) == Undefined
  {
    hide MatchList, StartsSublist, ParseList;
    var ts := [Raw("* a"), Raw("  * *b*")];
    var line := ts[1].text;
    LeadingIs(line, 2);
    LeadingIs(" *b*", 1);
    assert line[3..] == " *b*";
    EmphasisIsNoItem(line, 2, " *b*");
    TroubleAfterItem(ts);
  }

  /** A code block in an item, then one blank line at the end: the parser reads past the end. */
  lemma {:induction false} BlankAfterNestedCodeFails()
    ensures ParseList([Raw("* a"), Blank(""), Raw("        c"), Blank("")], 0, false) == Undefined
  {
    hide MatchList, ParseList;
    var ts := [Raw("* a"), Blank(""), Raw("        c"), Blank("")];
    var line := ts[2].text;
    LeadingIs(line, 8);
    assert DigitRun(line[8..]) == 0 && MatchItem(line, 0, Bullets('*')) == None && !StartsSublist(line, 0);
    assert CodeUpTo(ts, 3, 3, 8) && LooksPastText(ts, 3);
    TroubleAfterItem(ts);
  }

  /** Without the code line, a blank line at the end does no harm. */
  lemma {:induction false} BlankAtEndIsPlain()
    ensures Plain([Raw("* a"), Blank("")])
  {
    LeadingIs("* a", 0);
  }
}
