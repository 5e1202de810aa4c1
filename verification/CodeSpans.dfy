/**
 * The pass that finds code spans: first those between double backquotes and spaces, then those
 * between single ones.  What is inside is restored and pushed, and a placeholder takes its place.
 */
module CodeSpans {
  import opened Escapes
  import opened Numbers
  import opened Options
  import opened Placeholders
  import opened PlaceholderTexts
  import opened Sequences

  /** The first position from `from` on where `t` stands, or the length. */
  function Next(s: string, t: string, from: nat): (n: nat)
    requires from <= |s| && t != ""
    ensures from <= n <= |s| && (n < |s| ==> t <= s[n..]) && forall k :: from <= k < n ==> !(t <= s[k..])
    decreases |s| - from
  {
    if from == |s| || t <= s[from..] then from else Next(s, t, from + 1)
  }

  /** What opens and closes a span; the opening one must not follow a backslash. */
  datatype Quotes = Quotes(open: string, close: string)

  const DOUBLED := Quotes("`` ", " ``")
  const SINGLE := Quotes("`", "`")

  predicate Opens(s: string, p: nat, q: Quotes) {
    p < |s| && q.open <= s[p..] && (p == 0 || s[p - 1] != '\\')
  }

  /** The content of a span, from `from` up to `to`. */
  datatype Span = Span(from: nat, to: nat)

  predicate IsSpan(s: string, q: Quotes, span: Span) {
    && |q.open| <= span.from < span.to < |s| && q.close <= s[span.to..]
    && Opens(s, span.from - |q.open|, q)
  }

  /** The search for a span from position `p` on. */
  function FindSpan(s: string, q: Quotes, p: nat): (r: Option<Span>)
    requires p <= |s| && q.open != "" && q.close != ""
    ensures r.Some? ==> IsSpan(s, q, r.value)
    decreases |s| - p
  {
    if p == |s| then None
    else if Opens(s, p, q) && p + |q.open| + 1 <= |s| && Next(s, q.close, p + |q.open| + 1) < |s| then
      Some(Span(p + |q.open|, Next(s, q.close, p + |q.open| + 1)))
    else FindSpan(s, q, p + 1)
  }

  lemma {:induction false} FindStep(s: string, q: Quotes, p: nat)
    requires p < |s| && q.open != "" && q.close != ""
    ensures FindSpan(s, q, p) ==
      if Opens(s, p, q) && p + |q.open| + 1 <= |s| && Next(s, q.close, p + |q.open| + 1) < |s| then
        Some(Span(p + |q.open|, Next(s, q.close, p + |q.open| + 1)))
      else FindSpan(s, q, p + 1)
  {
    hide Opens, Next;
  }

  /** The first position that opens a span, closed as early as possible, is taken. */
  lemma {:induction false} FirstSpan(s: string, q: Quotes, p: nat, other: Span)
    requires p <= |s| && q.open != "" && q.close != ""
    requires IsSpan(s, q, other) && p <= other.from - |q.open|
    ensures var r := FindSpan(s, q, p);
      r.Some? && (r.value.from < other.from || (r.value.from == other.from && r.value.to <= other.to))
    decreases |s| - p
  {
    hide Opens, Next, FindSpan;
    FindStep(s, q, p);
    if p == other.from - |q.open| {
      NextIsFirst(s, q.close, other.from + 1, other.to);
    } else {
      FirstSpan(s, q, p + 1, other);
    }
  }

  lemma {:induction false} NextIsFirst(s: string, t: string, from: nat, k: nat)
    requires from <= k < |s| && t != "" && t <= s[k..]
    ensures Next(s, t, from) <= k
  {
  }

  datatype Passed = Passed(text: string, table: seq<string>)

  function InFront(before: string, r: Option<Passed>): Option<Passed> {
    if r.Some? then Some(r.value.(text := before + r.value.text)) else None
  }

  /** One pass: the text with placeholders, and the table with the spans as they will be restored. */
  function SpanPass(s: string, q: Quotes, table: seq<string>): Option<Passed>
    requires q.open != "" && q.close != ""
    decreases |s|
  {
    match FindSpan(s, q, 0)
    case None => Some(Passed(s, table))
    case Some(span) =>
      match Restore(s[span.from..span.to], table)
      case None => None
      case Some(t) =>
        InFront(s[..span.from - |q.open|] + Placeholder(Digits(|table|, 10), "codeSpan"),
                SpanPass(s[span.to + |q.close|..], q, table + ["`" + t + "`"]))
  }

  method ProcessSpans(src: string, q: Quotes, table0: seq<string>) returns (r: Option<Passed>)
    requires q.open != "" && q.close != ""
    ensures r == SpanPass(src, q, table0)
  {
    hide SpanPass, FindSpan, Placeholder, IsSpan, Opens, Restore, Digits, InFront;
    var tgt, prev, replacements := "", 0, table0;
    assert src[0..] == src;
    NothingInFront(SpanPass(src, q, table0));
    while true
      invariant prev <= |src|
      invariant SpanPass(src, q, table0) == InFront(tgt, SpanPass(src[prev..], q, replacements))
      decreases |src| - prev
    {
      var rest := src[prev..];
      PassStep(rest, q, replacements);
      var m := FindSpan(rest, q, 0);
      if m.None? {
        InFrontIs(tgt, rest, replacements);
        return Some(Passed(tgt + rest, replacements));
      }
      var span := m.value;
      var contents := RestoreProcessedItems(rest[span.from..span.to], replacements);
      if contents.None? {
        InFrontIs(tgt, "", replacements);
        return None;
      }
      var before := rest[..span.from - |q.open|] + Placeholder(Digits(|replacements|, 10), "codeSpan");
      var next := replacements + ["`" + contents.value + "`"];
      assert rest[span.to + |q.close|..] == src[prev + span.to + |q.close|..];
      BothInFront(tgt, before, SpanPass(rest[span.to + |q.close|..], q, next));
      tgt := tgt + before;
      replacements := next;
      prev := prev + span.to + |q.close|;
    }
  }

  /** Both passes. */
  function CodeSpanPasses(s: string, table: seq<string>): Option<Passed> {
    match SpanPass(s, DOUBLED, table)
    case None => None
    case Some(r) => SpanPass(r.text, SINGLE, r.table)
  }

  method ProcessCodeSpans(src: string, table0: seq<string>) returns (r: Option<Passed>)
    ensures r == CodeSpanPasses(src, table0)
  {
    hide SpanPass;
    var text, replacements := src, table0;
    for pass := 0 to 2
      invariant pass == 0 ==> text == src && replacements == table0
      invariant pass == 1 ==> SpanPass(src, DOUBLED, table0) == Some(Passed(text, replacements))
      invariant pass == 2 ==> CodeSpanPasses(src, table0) == Some(Passed(text, replacements))
    {
      var done := ProcessSpans(text, if pass == 0 then DOUBLED else SINGLE, replacements);
      if done.None? {
        return None;
      }
      text, replacements := done.value.text, done.value.table;
    }
    r := Some(Passed(text, replacements));
  }

  lemma {:induction false} NothingInFront(r: Option<Passed>)
    ensures InFront("", r) == r
  {
    assert r.Some? ==> "" + r.value.text == r.value.text;
  }

  lemma {:induction false} InFrontIs(a: string, b: string, table: seq<string>)
    ensures InFront(a, Some(Passed(b, table))) == Some(Passed(a + b, table)) && InFront(a, None) == None
  {
  }

  lemma {:induction false} BothInFront(a: string, b: string, r: Option<Passed>)
    ensures InFront(a, InFront(b, r)) == InFront(a + b, r)
  {
    assert r.Some? ==> a + (b + r.value.text) == a + b + r.value.text;
  }

  lemma {:induction false} CloseFits(s: string, q: Quotes)
    requires q.open != "" && q.close != ""
    ensures var m := FindSpan(s, q, 0);
      m.Some? ==> |q.open| <= m.value.from < m.value.to && m.value.to + |q.close| <= |s|
  {
    hide FindSpan, Opens;
  }

  lemma {:induction false} PassStep(s: string, q: Quotes, table: seq<string>)
    requires q.open != "" && q.close != ""
    ensures match FindSpan(s, q, 0)
      case None => SpanPass(s, q, table) == Some(Passed(s, table))
      case Some(span) =>
        && |q.open| <= span.from < span.to && span.to + |q.close| <= |s|
        && match Restore(s[span.from..span.to], table)
           case None => SpanPass(s, q, table) == None
           case Some(t) =>
             SpanPass(s, q, table) ==
               InFront(s[..span.from - |q.open|] + Placeholder(Digits(|table|, 10), "codeSpan"),
                       SpanPass(s[span.to + |q.close|..], q, table + ["`" + t + "`"]))
  {
    hide FindSpan, Restore, Placeholder, Digits, Opens, InFront;
    CloseFits(s, q);
  }

  // ---------------------------------------------------------------------------------------
  // What a pass keeps
  // ---------------------------------------------------------------------------------------

  predicate IsQuotes(q: Quotes) {
    q == DOUBLED || q == SINGLE
  }

  /** Cutting a valid text where `t` stands, which begins with a character foreign to placeholders. */
  lemma {:induction false} CutAt(s: string, k: nat, t: string, tableSize: nat)
    requires Valid(s, tableSize) && k < |s| && t <= s[k..] && t != "" && Foreign(t[0]) && NoMark(t)
    ensures k + |t| <= |s| && s == s[..k] + t + s[k + |t|..]
    ensures Valid(s[..k], tableSize) && Valid(s[k + |t|..], tableSize)
  {
    hide Valid;
    var rest := s[k..];
    assert rest[..|t|] == t && s[k] == t[0];
    ValidCut(s, k, tableSize);
    ValidDrop(rest, |t|, tableSize);
    assert rest[|t|..] == s[k + |t|..];
  }

  lemma {:induction false} QuotesAreForeign(q: Quotes)
    requires IsQuotes(q)
    ensures q.open != "" && Foreign(q.open[0]) && NoMark(q.open)
    ensures q.close != "" && Foreign(q.close[0]) && NoMark(q.close)
  {
  }

  /** The quotes of a span, what is in it and what is around it. */
  lemma {:induction false} SpanIsValid(s: string, q: Quotes, span: Span, tableSize: nat)
    requires IsQuotes(q) && Valid(s, tableSize) && IsSpan(s, q, span)
    ensures |q.open| <= span.from < span.to && span.to + |q.close| <= |s|
    ensures var before, inner, after := s[..span.from - |q.open|], s[span.from..span.to], s[span.to + |q.close|..];
      && s == before + (q.open + inner + q.close) + after
      && Valid(before, tableSize) && Valid(inner, tableSize) && Valid(after, tableSize)
  {
    hide Valid, IsQuotes, Foreign, NoMark;
    QuotesAreForeign(q);
    CutAt(s, span.to, q.close, tableSize);
    FrontIsValid(s[..span.to], s, q, span, tableSize);
    SpanJoins(s[..span.from - |q.open|], q.open, s[span.from..span.to], q.close, s[span.to + |q.close|..]);
  }

  lemma {:induction false} FrontIsValid(front: string, s: string, q: Quotes, span: Span, tableSize: nat)
    requires IsQuotes(q) && IsSpan(s, q, span) && front == s[..span.to] && Valid(front, tableSize)
    ensures var before, inner := s[..span.from - |q.open|], s[span.from..span.to];
      front == before + q.open + inner && Valid(before, tableSize) && Valid(inner, tableSize)
  {
    hide Valid, IsQuotes, Foreign, NoMark;
    QuotesAreForeign(q);
    var p := span.from - |q.open|;
    OpeningStays(s, p, q.open, span.to);
    CutAt(front, p, q.open, tableSize);
    FrontParts(s, p, span.from, span.to);
  }

  lemma {:induction false} FrontParts(s: string, p: nat, from: nat, to: nat)
    requires p <= from <= to <= |s|
    ensures s[..to][..p] == s[..p] && s[..to][from..] == s[from..to]
  {
  }

  lemma {:induction false} OpeningStays(s: string, p: nat, t: string, end: nat)
    requires p + |t| <= end <= |s| && t <= s[p..]
    ensures t <= s[..end][p..]
  {
    assert s[..end][p..] == s[p..][..end - p];
  }

  lemma {:induction false} SpanJoins(a: string, b: string, c: string, d: string, e: string)
    ensures a + b + c + d + e == a + (b + c + d) + e
  {
  }

  /**
   * A code span stands for what it replaced when it was written between single backquotes.  One
   * written between two and a space is restored with single ones.
   */
  lemma {:induction false} CodeSpanRestores(inner: string, table: seq<string>)
    requires Valid(inner, |table|)
    ensures Restore(inner, table).Some?
    ensures Valid("`" + inner + "`", |table|) && Valid("`` " + inner + " ``", |table|)
    ensures var original := "`" + Restore(inner, table).value + "`";
      && Restore("`" + inner + "`", table) == Some(original)
      && Restore("`` " + inner + " ``", table) != Some(original)
  {
    hide Valid, Restore;
    ValidRestores(inner, table);
    UnmarkedIsItself("`", table);
    UnmarkedIsItself("`` ", table);
    UnmarkedIsItself(" ``", table);
    ValidConcat("`", inner, table);
    ValidConcat("`" + inner, "`", table);
    ValidConcat("`` ", inner, table);
    ValidConcat("`` " + inner, " ``", table);
    assert |Restore("`` " + inner + " ``", table).value| == |Restore(inner, table).value| + 6;
  }

  /**
   * A pass over a valid text never fails; it only adds to the table, and every placeholder in the
   * new text is good for the new table.  The pass for single backquotes does not change what the
   * text is restored to.
   */
  lemma {:induction false} SpanPassKeepsText(s: string, q: Quotes, base: seq<string>, table: seq<string>)
    requires IsQuotes(q) && Valid(s, |base|) && base <= table
    ensures match SpanPass(s, q, table)
      case None => false
      case Some(r) =>
        && table <= r.table && Valid(r.text, |r.table|)
        && (q == SINGLE ==> Restore(r.text, r.table) == Restore(s, base))
    decreases |s|
  {
    hide SpanPass, FindSpan, Placeholder, Valid, Restore, IsSpan, Digits;
    PassStep(s, q, table);
    var m := FindSpan(s, q, 0);
    if m.None? {
      LargerBase(s, base, table);
    } else {
      var span := m.value;
      SpanIsValid(s, q, span, |base|);
      var before, inner, after := s[..span.from - |q.open|], s[span.from..span.to], s[span.to + |q.close|..];
      LargerBase(inner, base, table);
      CodeSpanRestores(inner, base);
      var next := table + ["`" + Restore(inner, table).value + "`"];
      SpanPassKeepsText(after, q, base, next);
      var r := SpanPass(after, q, next).value;
      assert next[|table|] == r.table[|table|];
      var part := Replace(q.open + inner + q.close, "codeSpan");
      CodeSpanKind();
      ReplacePart(part, |table|, r.text, after, base, r.table);
      KeepPart(before, Placeholder(Digits(|table|, 10), "codeSpan") + r.text, part.text + after, base, r.table);
      Regroup(before, Placeholder(Digits(|table|, 10), "codeSpan"), r.text);
      Regroup(before, part.text, after);
    }
  }

  lemma {:induction false} CodeSpanKind()
    ensures GoodKind("codeSpan")
  {
  }

  lemma {:induction false} LargerBase(s: string, base: seq<string>, table: seq<string>)
    requires Valid(s, |base|) && base <= table
    ensures Valid(s, |table|) && Restore(s, table) == Restore(s, base)
  {
    LargerTable(s, base, table[|base|..]);
    assert base + table[|base|..] == table;
  }

  // ---------------------------------------------------------------------------------------
  // Both passes and the escapes
  // ---------------------------------------------------------------------------------------

  /** How long a valid text is when it is restored. */
  function RestoredLength(s: string, table: seq<string>): nat
    requires Valid(s, |table|)
  {
    ValidRestores(s, table);
    |Restore(s, table).value|
  }

  lemma {:induction false} LengthsAdd(a: string, b: string, table: seq<string>)
    requires Valid(a, |table|) && Valid(b, |table|)
    ensures Valid(a + b, |table|) && RestoredLength(a + b, table) == RestoredLength(a, table) + RestoredLength(b, table)
  {
    hide Valid, Restore;
    ValidConcat(a, b, table);
    ValidRestores(a, table);
    ValidRestores(b, table);
  }

  /** The pass for double backquotes makes the restored text shorter, if it finds a span. */
  lemma {:induction false} DoubledShortens(s: string, base: seq<string>, table: seq<string>)
    requires Valid(s, |base|) && base <= table
    ensures match SpanPass(s, DOUBLED, table)
      case None => false
      case Some(r) =>
        && table <= r.table && Valid(r.text, |r.table|)
        && RestoredLength(r.text, r.table) <= RestoredLength(s, base)
        && (FindSpan(s, DOUBLED, 0).Some? ==> RestoredLength(r.text, r.table) < RestoredLength(s, base))
    decreases |s|
  {
    hide SpanPass, FindSpan, Placeholder, Valid, Restore, IsSpan, Digits;
    PassStep(s, DOUBLED, table);
    SpanPassKeepsText(s, DOUBLED, base, table);
    var m := FindSpan(s, DOUBLED, 0);
    if m.None? {
      LargerBase(s, base, table);
    } else {
      var span := m.value;
      SpanIsValid(s, DOUBLED, span, |base|);
      var before, inner, after := s[..span.from - 3], s[span.from..span.to], s[span.to + 3..];
      LargerBase(inner, base, table);
      CodeSpanRestores(inner, base);
      var next := table + ["`" + Restore(inner, table).value + "`"];
      DoubledShortens(after, base, next);
      var r := SpanPass(after, DOUBLED, next).value;
      LargerBase(before, base, r.table);
      CodeSpanKind();
      assert r.table[|table|] == next[|table|];
      FreshPlaceholder("codeSpan", |table|, r.table);
      var p, t := Placeholder(Digits(|table|, 10), "codeSpan"), "`` " + inner + " ``";
      LengthsAdd(before, p, r.table);
      LengthsAdd(before + p, r.text, r.table);
      LengthsAdd(before, t, base);
      LengthsAdd(before + t, after, base);
      DoubledLength(inner, base);
    }
  }

  lemma {:induction false} DoubledLength(inner: string, table: seq<string>)
    requires Valid(inner, |table|)
    ensures Valid("`` " + inner + " ``", |table|)
    ensures RestoredLength("`` " + inner + " ``", table) == RestoredLength(inner, table) + 6
  {
    hide Valid, Restore;
    UnmarkedIsItself("`` ", table);
    UnmarkedIsItself(" ``", table);
    LengthsAdd("`` ", inner, table);
    LengthsAdd("`` " + inner, " ``", table);
  }

  /**
   * A valid text, such as the pass for attributes leaves it, after both passes and the escapes:
   * every placeholder is good for the table, and restoring everything gives what restoring the
   * text gave if and only if no span in it was written between double backquotes.
   */
  lemma {:induction false} SpansAndEscapesExactly(s: string, base: seq<string>)
    requires Valid(s, |base|)
    ensures match CodeSpanPasses(s, base)
      case None => false
      case Some(t) =>
        && Valid(Escape(t.text), |t.table|)
        && Items(Escape(t.text), |t.table|).Some?
        && (Restore(Escape(t.text), t.table) == Restore(s, base) <==> FindSpan(s, DOUBLED, 0).None?)
  {
    hide SpanPass, FindSpan, Valid, Restore, Items, Escape;
    PassStep(s, DOUBLED, base);
    DoubledShortens(s, base, base);
    var r := SpanPass(s, DOUBLED, base).value;
    SpanPassKeepsText(r.text, SINGLE, r.table, r.table);
    var t := SpanPass(r.text, SINGLE, r.table).value;
    EscapingKeepsText(t.text, t.table);
    ValidIsReadable(Escape(t.text), t.table);
    ValidRestores(r.text, r.table);
    ValidRestores(s, base);
  }

  // ---------------------------------------------------------------------------------------
  // All the passes
  // ---------------------------------------------------------------------------------------

  predicate GoodKinds(parts: seq<Part>) {
    forall k :: 0 <= k < |parts| && parts[k].Replace? ==> GoodKind(parts[k].kind)
  }

  lemma {:induction false} PartsOfUnmarked(parts: seq<Part>)
    requires NoMark(Source(parts)) && GoodKinds(parts)
    ensures ValidParts(parts, 0)
  {
    hide GoodKind;
    forall k | 0 <= k < |parts| ensures Valid(parts[k].text, 0) {
      PartIsUnmarked(parts, k);
      UnmarkedIsItself(parts[k].text, []);
    }
  }

  lemma {:induction false} PartIsUnmarked(parts: seq<Part>, k: nat)
    requires k < |parts| && NoMark(Source(parts))
    ensures NoMark(parts[k].text)
  {
    var first, rest := parts[0].text, Source(parts[1..]);
    if k == 0 {
      assert forall i :: 0 <= i < |first| ==> first[i] == Source(parts)[i];
    } else {
      assert forall i :: 0 <= i < |rest| ==> rest[i] == Source(parts)[|first| + i];
      PartIsUnmarked(parts[1..], k - 1);
    }
  }

  /**
   * A source without marks, through all passes: attributes, wherever they are found in it; code
   * spans; escapes; and links and tags, wherever they are found without cutting a placeholder.
   * Both readers are defined on what comes out, with the table as it is then.
   */
  lemma {:induction false} AllPassesStayReadable(attributes: seq<Part>, first: seq<string>, links: seq<Part>,
                                                 last: seq<string>)
    requires NoMark(Source(attributes)) && GoodKinds(attributes) && |first| == Pushes(attributes)
    requires |last| == Pushes(links)
    ensures match CodeSpanPasses(Replaced(attributes, 0), first)
      case None => false
      case Some(t) =>
        Source(links) == Escape(t.text) && ValidParts(links, |t.table|) ==>
          var all := t.table + last;
          var out := Replaced(links, |t.table|);
          Valid(out, |all|) && Restore(out, all).Some? && Items(out, |all|).Some?
  {
    hide Valid, Restore, Items, Escape, Replaced, ValidParts, GoodKinds, CodeSpanPasses;
    PartsOfUnmarked(attributes);
    PassKeepsText(attributes, [], [], first);
    assert [] + first == first;
    var s := Replaced(attributes, 0);
    SpansAndEscapesExactly(s, first);
    var t := CodeSpanPasses(s, first).value;
    if Source(links) == Escape(t.text) && ValidParts(links, |t.table|) {
      PassKeepsText(links, t.table, t.table, last);
      ValidIsReadable(Replaced(links, |t.table|), t.table + last);
    }
  }

  // ---------------------------------------------------------------------------------------
  // The two expressions
  // ---------------------------------------------------------------------------------------

  /** A span lies between single backquotes, of which the first has no backslash in front. */
  lemma {:induction false} SingleSpanIs(s: string, from: nat, to: nat)
    ensures IsSpan(s, SINGLE, Span(from, to)) <==>
      && 1 <= from < to < |s| && s[from - 1] == '`' && s[to] == '`'
      && (from >= 2 ==> s[from - 2] != '\\')
  {
  }

  /** Or between two backquotes and a space on either side. */
  lemma {:induction false} DoubledSpanIs(s: string, from: nat, to: nat)
    ensures IsSpan(s, DOUBLED, Span(from, to)) <==>
      && 3 <= from < to && to + 3 <= |s| && s[from - 3..from] == "`` " && s[to..to + 3] == " ``"
      && (from >= 4 ==> s[from - 4] != '\\')
  {
    if 3 <= from < to < |s| {
      PrefixIs(s, "`` ", from - 3);
      PrefixIs(s, " ``", to);
    }
  }

  lemma {:induction false} PrefixIs(s: string, t: string, p: nat)
    requires p <= |s|
    ensures t <= s[p..] <==> p + |t| <= |s| && s[p..p + |t|] == t
  {
    if t <= s[p..] {
      assert s[p..][..|t|] == s[p..p + |t|];
    }
    if p + |t| <= |s| && s[p..p + |t|] == t {
      assert s[p..][..|t|] == t;
    }
  }
}
