/** Lines on which no parser fails, at any depth: the driver returns blocks. */
module BlockTotality {
  import opened BlockDriver
  import opened BlockLines
  import opened BlockLists
  import opened BlockProofs
  import opened BlockText
  import opened BlockTrouble
  import opened Blocks
  import opened LineMarks
  import opened ListTrouble
  import opened Options

  /**
   * No quote mark, nowhere eight spaces in a row, and wherever the line could be cut, what looks
   * like the start of a sub-list is a list line.
   */
  predicate Tame(s: string) {
    && '>' !in s
    && forall n :: 0 <= n <= |s| ==>
         LeadingSpaces(s[n..]) < 8 && (StartsSublist(s[n..], 0) ==> MatchList(s[n..]).Some?)
  }

  /** Text, empty lines, and lists of such items. */
  predicate TameTok(t: Tok)
    decreases t
  {
    match t
    case Raw(text) => Tame(text)
    case Blank(text) => Tame(text) && AllSpaces(text)
    case List(_, _, _, items) => forall k :: 0 <= k < |items| ==> items[k].Item? && TameTok(items[k])
    case Item(_, subs) => RestIsText(subs) && forall k :: 0 <= k < |subs| ==> TameTok(subs[k])
    case _ => false
  }

  predicate AllTame(ts: seq<Tok>) {
    RestIsText(ts) && forall k :: 0 <= k < |ts| ==> TameTok(ts[k])
  }

  lemma {:induction false} RestIsTame(t: string, s: string)
    requires LessMarks(t, s) && Tame(s)
    ensures Tame(t)
  {
    hide StartsSublist, MatchList, LeadingSpaces, LessMarks;
    LessIsSuffix(t, s);
    var m := |s| - |t|;
    forall n | 0 <= n <= |t|
      ensures LeadingSpaces(t[n..]) < 8 && (StartsSublist(t[n..], 0) ==> MatchList(t[n..]).Some?)
    {
      assert t[n..] == s[m + n..];
    }
  }

  lemma {:induction false} NothingIsTame()
    ensures Tame("") && AllSpaces("")
  {
    assert ""[0..] == "";
  }

  lemma {:induction false} SpelledIsTame(f: Front, ts: seq<Tok>, i: nat, j: nat, out: seq<string>)
    requires i <= j <= |ts| && AllTame(ts) && Spells(f, ts, i, j, out)
    ensures forall k :: 0 <= k < |out| ==> Tame(out[k])
    decreases j - i
  {
    hide Tame, TakesOff, RestIsText, TextOf;
    if i < j {
      if ts[i].Blank? && Spells(f, ts, i + 1, j, out) {
        SpelledIsTame(f, ts, i + 1, j, out);
      } else {
        SpelledIsTame(f, ts, i + 1, j, out[1..]);
        OneIsTame(f, out[0], ts[i]);
        assert forall k :: 0 < k < |out| ==> out[k] == out[1..][k - 1];
      }
    }
  }

  lemma {:induction false} OneIsTame(f: Front, line: string, t: Tok)
    requires TameTok(t) && HasText(t) && IsRest(f, line, t)
    ensures Tame(line)
  {
    hide Tame, TakesOff, LessMarks;
    NothingIsTame();
    if TakesOff(f, line, TextOf(t)) {
      TakenIsMarks(f, line, TextOf(t));
      RestIsTame(line, TextOf(t));
    }
  }

  /** A list that is parsed from tame lines is tame. */
  lemma {:induction false} NestedIsTame(ts: seq<Tok>, t: Tok, outer: int)
    requires WellNested(ts, t, outer) && !HasDeepLine(ts) && forall x :: x in Spelled(t) ==> Tame(x)
    ensures TameTok(t)
    decreases t
  {
    hide Tame, HasDeepLine, RestIsText;
    match t
    case List(_, _, indent, items) =>
      forall k | 0 <= k < |items| ensures items[k].Item? && TameTok(items[k]) {
        PartsAreSpelled(items, k);
        ItemIsTame(ts, items[k], indent);
      }
    case Raw(text) => assert text in Spelled(t);
    case Blank(text) => NothingIsTame();
    case Code(_) =>
  }

  lemma {:induction false} ItemIsTame(ts: seq<Tok>, t: Tok, indent: int)
    requires t.Item? && RestIsText(t.subs) && AllWellNested(ts, t.subs, indent) && !HasDeepLine(ts)
    requires forall x :: x in Spelled(t) ==> Tame(x)
    ensures TameTok(t)
    decreases t
  {
    hide Tame, WellNested, HasDeepLine, RestIsText;
    forall j | 0 <= j < |t.subs| ensures TameTok(t.subs[j]) {
      PartsAreSpelled(t.subs, j);
      NestedIsTame(ts, t.subs[j], indent);
    }
  }

  lemma {:induction false} LineIsShallow(s: string)
    requires Tame(s)
    ensures LeadingSpaces(s) < 8 && (StartsSublist(s, 0) ==> MatchList(s).Some?)
  {
    hide StartsSublist, MatchList, LeadingSpaces;
    assert s[0..] == s;
  }

  lemma {:induction false} TameIsPlain(ts: seq<Tok>)
    requires AllTame(ts)
    ensures Plain(ts) && !HasDeepLine(ts)
  {
    hide Tame, MatchList;
    forall k | 0 <= k < |ts| && HasText(ts[k])
      ensures LeadingSpaces(TextOf(ts[k])) < 8 && (StartsSublist(TextOf(ts[k]), 0) ==> IsListLine(ts[k]))
    {
      LineIsShallow(TextOf(ts[k]));
    }
  }

  lemma {:induction false} NoQuote(s: string)
    requires '>' !in s
    ensures MatchQuote(s).None?
  {
  }

  /** No parser fails at a tame token. */
  lemma {:induction false} TameIsDefined(ts: seq<Tok>, i: nat)
    requires i < |ts| && AllTame(ts)
    ensures Defined(ts, i)
    ensures var b := SpanAt(ts, i).block; IsContainer(b) ==> TameTok(b)
  {
    hide Tame, Plain, WellNested, Spells, ListRun, RestIsText;
    TameIsPlain(ts);
    ListDefined(ts, i, false);
    if ts[i].Raw? {
      TextHasNoQuote(ts[i].text);
      ListIsTame(ts, i);
    }
  }

  lemma {:induction false} TextHasNoQuote(s: string)
    requires Tame(s)
    ensures MatchQuote(s).None?
  {
    NoQuote(s);
  }

  lemma {:induction false} ListIsTame(ts: seq<Tok>, i: nat)
    requires i < |ts| && AllTame(ts)
    ensures var p := ParseList(ts, i, false); p.Block? ==> TameTok(p.value)
  {
    hide Tame, WellNested, Spells, Spelled, ListRun, RestIsText;
    var p := ParseList(ts, i, false);
    if p.Block? {
      TameIsPlain(ts);
      ListSpells(ts, i, false);
      SpelledIsTame(ItemMarker, ts, i, p.next, Spelled(p.value));
      ListIsNested(ts, i, false, -1);
      NestedIsTame(ts, p.value, -1);
    }
  }

  lemma {:induction false} InsideIsTame(t: Tok)
    requires IsContainer(t) && TameTok(t)
    ensures AllTame(t.subs)
  {
    hide Tame;
  }

  /** On tame lines there is no trouble, nor is there inside any block. */
  lemma {:induction false} TameHasNoTrouble(ts: seq<Tok>, i: nat)
    requires i <= |ts| && AllTame(ts)
    ensures !DriverTrouble(ts, i)
    decreases CharsOf(ts), SizeOf(ts), |ts| - i
  {
    hide SpanAt, Recognize, TroubleAt, AllTame, TameTok, CharsOf, SizeOf;
    if i < |ts| {
      TameIsDefined(ts, i);
      NoTroubleHere(ts, i);
      NoTroubleIsDefined(ts, i);
      var s := SpanAt(ts, i);
      TameHasNoTrouble(ts, GoesOn(s));
      if IsContainer(s.block) {
        InsideMeasure(ts, i);
        InsideIsTame(s.block);
        TameHasNoTrouble(s.block.subs, 0);
      }
    }
  }

  lemma {:induction false} NoTroubleHere(ts: seq<Tok>, i: nat)
    requires i < |ts| && Defined(ts, i)
    ensures !TroubleAt(ts, i)
  {
    hide Recognize, ListInTrouble, QuoteInTrouble, IsHeading, IsRule;
    RecognizeFailsExactly(ts, i);
  }

  /** So the driver returns blocks. */
  lemma {:induction false} TameIsDriven(ts: seq<Tok>, i: nat)
    requires i <= |ts| && AllTame(ts)
    ensures DriveFrom(ts, i).Some?
  {
    hide DriverTrouble, DriveFrom, AllTame;
    TameHasNoTrouble(ts, i);
    DriverFailsExactly(ts, i);
  }
}
