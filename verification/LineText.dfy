/**
 * What a line says: its text, without the markup at its ends.  Blank lines and comments say
 * nothing, nor do lines of rule marks or of underline marks.
 */
module LineText {
  import opened BlockLines
  import opened LineMarks
  import opened Options

  /** The length of the mark at the front: one that blocks take off, or the hashes of a heading. */
  function FrontMark(s: string): (n: nat)
    ensures n <= |s|
  {
    if MarkAt(s) > 0 then MarkAt(s)
    else
      var n := HashRun(s);
      if 1 <= n <= 6 && n < |s| && s[n] == ' ' then n else 0
  }

  /** The same where the end of the line does as well as a space. */
  function FrontAt(s: string): (n: nat)
    ensures n <= |s|
  {
    if s == "" || FrontMark(s + " ") > |s| then 0 else FrontMark(s + " ")
  }

  function TrimFront(s: string): string
    decreases |s|
  {
    if FrontAt(s) > 0 then TrimFront(s[FrontAt(s)..]) else s
  }

  /** What may close a heading. */
  predicate IsEndMark(c: char) {
    c == ' ' || c == '#'
  }

  predicate AllEndMarks(s: string) {
    forall i :: 0 <= i < |s| ==> IsEndMark(s[i])
  }

  function TrimBack(s: string): (r: string)
    ensures |r| <= |s| && r == s[..|r|] && (r != "" ==> !IsEndMark(r[|r| - 1]))
    ensures forall i :: |r| <= i < |s| ==> IsEndMark(s[i])
  {
    if s != "" && IsEndMark(s[|s| - 1]) then TrimBack(s[..|s| - 1]) else s
  }

  function Core(s: string): string {
    TrimFront(TrimBack(s))
  }

  /** Rule marks and spaces only, or a double underline. */
  predicate IsOrnament(s: string) {
    || (forall i :: 0 <= i < |s| ==> s[i] == ' ' || IsRuleMark(s[i]))
    || (forall i :: 0 <= i < |s| ==> s[i] == '=')
  }

  predicate Silent(s: string) {
    IsOrnament(Core(s)) || IsBlankLine(Core(s))
  }

  function Said(line: string): seq<string> {
    if Silent(line) then [] else [Core(line)]
  }

  function ToLineFeed(s: string): (n: nat)
    ensures n <= |s| && (forall i :: 0 <= i < n ==> s[i] != '\n') && (n < |s| ==> s[n] == '\n')
  {
    if s == "" || s[0] == '\n' then 0 else 1 + ToLineFeed(s[1..])
  }

  /** What a text says, line by line. */
  function Voice(s: string): seq<string> {
    var n := ToLineFeed(s);
    Said(s[..n]) + if n == |s| then [] else Voice(s[n + 1..])
  }

  /** What several texts say, one after the other. */
  function VoiceOf(texts: seq<string>): seq<string> {
    if texts == [] then [] else Voice(texts[0]) + VoiceOf(texts[1..])
  }

  lemma {:induction false} VoiceConcat(a: seq<string>, b: seq<string>)
    ensures VoiceOf(a + b) == VoiceOf(a) + VoiceOf(b)
  {
    hide Voice;
    if a == [] {
      assert a + b == b;
    } else {
      assert (a + b)[1..] == a[1..] + b;
      VoiceConcat(a[1..], b);
    }
  }

  lemma {:induction false} VoiceShort(a: string)
    ensures VoiceOf([a]) == Voice(a) && Voice("") == []
  {
    hide Voice;
    assert [a][1..] == [];
    NothingIsSaid();
  }

  lemma {:induction false} NothingIsSaid()
    ensures Voice("") == []
  {
    hide TrimFront, IsBlankLine;
    TrimmedNothing();
    assert ""[..0] == "";
  }

  lemma {:induction false} TrimmedNothing()
    ensures TrimFront("") == "" && TrimBack("") == ""
  {
  }

  lemma {:induction false} LineFeedAt(s: string, n: nat)
    requires n <= |s| && (forall i :: 0 <= i < n ==> s[i] != '\n') && (n < |s| ==> s[n] == '\n')
    ensures ToLineFeed(s) == n
  {
  }

  // ---------------------------------------------------------------------------------------
  // Markup at the ends
  // ---------------------------------------------------------------------------------------

  lemma {:induction false} HashesAre(s: string, n: nat)
    requires n <= |s| && (forall i :: 0 <= i < n ==> s[i] == '#') && (n < |s| ==> s[n] != '#')
    ensures HashRun(s) == n
  {
  }

  /** A mark is told by its own characters and the space behind it. */
  lemma {:induction false} MarkIsLocal(s: string, u: string, n: nat)
    requires FrontMark(s) == n > 0 && n <= |u| && u[..n] == s[..n]
    requires s[0] == ' ' || s[0] == '>' || (n < |u| && u[n] == ' ')
    ensures FrontMark(u) == n
  {
    hide MarkerAt, HashRun;
    assert forall i :: 0 <= i < n ==> u[..n][i] == u[i] && s[..n][i] == s[i];
    if s[0] != ' ' && s[0] != '>' {
      if MarkerAt(s) > 0 {
        MarkerIs(u, n);
      } else {
        HashesAre(u, n);
        HashIsNoMarker(u);
      }
    }
  }

  lemma {:induction false} HashIsNoMarker(s: string)
    requires s != "" && s[0] == '#'
    ensures MarkerAt(s) == 0
  {
  }

  /** What a mark looks like: no line feed is in it, and its last character closes no heading unless it is one. */
  lemma {:induction false} MarkShape(s: string)
    requires FrontMark(s) > 0
    ensures var n := FrontMark(s);
      && (forall i :: 0 <= i < n ==> s[i] != '\n')
      && (s[0] == ' ' || s[0] == '>' || (n < |s| && s[n] == ' '))
      && (!IsEndMark(s[n - 1]) || n == 1 || forall i :: 0 <= i < n ==> s[i] == '#')
  {
    hide MarkerAt, HashRun;
    var n := FrontMark(s);
    assert forall i :: 0 <= i < n ==> s[..n][i] == s[i];
  }

  /** A mark at the front is one whatever end marks are taken off the back. */
  lemma {:induction false} FrontStays(s: string)
    requires FrontMark(s) > 0 && TrimBack(s) != ""
    ensures FrontAt(TrimBack(s)) == FrontMark(s) <= |TrimBack(s)|
  {
    hide FrontMark, TrimBack;
    var n, b := FrontMark(s), TrimBack(s);
    MarkShape(s);
    MarkFits(s);
    var u := b + " ";
    assert u[..n] == b[..n] == s[..n];
    assert n < |b| ==> u[n] == b[n] == s[n];
    MarkIsLocal(s, u, n);
  }

  lemma {:induction false} MarkFits(s: string)
    requires FrontMark(s) > 0 && TrimBack(s) != ""
    ensures FrontMark(s) <= |TrimBack(s)|
  {
    hide FrontMark, TrimBack;
    var b := TrimBack(s);
    MarkShape(s);
    assert b[|b| - 1] == s[|b| - 1];
  }

  lemma {:induction false} BackIsEndMarks(s: string)
    ensures AllEndMarks(s[|TrimBack(s)|..])
  {
    hide TrimBack, IsEndMark;
  }

  /** What is left of a line when its back is trimmed after its front. */
  lemma {:induction false} BackThenFront(s: string, n: nat)
    requires n <= |TrimBack(s)|
    ensures TrimBack(s[n..]) == TrimBack(s)[n..]
  {
    hide TrimBack;
    var b := TrimBack(s);
    assert s[n..] == b[n..] + s[|b|..];
    BackIsEndMarks(s);
    BackIsTrimmed(b[n..], s[|b|..]);
    TrimmedBack(b[n..]);
  }

  lemma {:induction false} TrimmedBack(s: string)
    requires s != "" ==> !IsEndMark(s[|s| - 1])
    ensures TrimBack(s) == s
  {
  }

  lemma {:induction false} AllTrimmed(s: string)
    requires AllEndMarks(s)
    ensures TrimBack(s) == ""
  {
    hide IsEndMark, AllEndMarks;
    BackIsTrimmed("", s);
    assert "" + s == s;
  }

  lemma {:induction false} BackIsTrimmed(a: string, b: string)
    requires AllEndMarks(b)
    ensures TrimBack(a + b) == TrimBack(a)
  {
    hide IsEndMark;
    if b == "" {
      assert a + b == a;
    } else {
      assert (a + b)[..|a + b| - 1] == a + b[..|b| - 1];
      BackIsTrimmed(a, b[..|b| - 1]);
    }
  }

  lemma {:induction false} CoreKeepsOff(a: string, b: string)
    requires AllEndMarks(b)
    ensures Core(a + b) == Core(a)
  {
    hide TrimFront, TrimBack;
    BackIsTrimmed(a, b);
  }

  /** A mark at the front of a line is no part of what it says. */
  lemma {:induction false} MarkIsTrimmed(s: string)
    requires FrontMark(s) > 0
    ensures Core(s) == Core(s[FrontMark(s)..])
  {
    hide FrontMark, TrimBack, FrontAt;
    var n, b := FrontMark(s), TrimBack(s);
    if b == "" {
      BackIsEndMarks(s);
      assert s[0..] == s;
      RestIsEndMarks(s, n);
      AllTrimmed(s[n..]);
    } else {
      FrontStays(s);
      BackThenFront(s, n);
    }
  }

  lemma {:induction false} RestIsEndMarks(s: string, n: nat)
    requires n <= |s| && AllEndMarks(s)
    ensures AllEndMarks(s[n..])
  {
  }

  lemma {:induction false} MarkSaysNothing(s: string)
    requires FrontMark(s) > 0
    ensures Voice(s[FrontMark(s)..]) == Voice(s)
  {
    hide Voice, Silent, Core, FrontMark, Said;
    var n, k := FrontMark(s), ToLineFeed(s);
    var t, line := s[n..], s[..k];
    MarkShape(s);
    assert n <= k;
    assert line[..n] == s[..n];
    MarkIsLocal(s, line, n);
    MarkIsTrimmed(line);
    SaidByCore(line, line[n..]);
    assert t[..k - n] == line[n..] && t[k - n..] == s[k..];
    SameVoice(s, k, t, k - n);
  }

  /** Two texts whose first lines say the same and that are otherwise equal. */
  lemma {:induction false} SameVoice(s: string, k: nat, t: string, j: nat)
    requires k == ToLineFeed(s) && j <= |t| && s[k..] == t[j..] && '\n' !in t[..j] && Said(s[..k]) == Said(t[..j])
    ensures Voice(s) == Voice(t)
  {
    hide Said;
    assert forall i :: 0 <= i < j ==> t[i] == t[..j][i];
    if k < |s| {
      assert s[k..][0] == t[j..][0] && s[k + 1..] == s[k..][1..] && t[j + 1..] == t[j..][1..];
    } else {
      assert |t[j..]| == 0;
    }
    LineFeedAt(t, j);
  }

  /** Markup at the front of a text says nothing. */
  lemma {:induction false} FrontSaysNothing(t: string, s: string)
    requires LessMarks(t, s)
    ensures Voice(t) == Voice(s)
    decreases |s|
  {
    hide Voice, MarkAt;
    if t != s {
      FrontSaysNothing(t, s[MarkAt(s)..]);
      MarkSaysNothing(s);
    }
  }

  lemma {:induction false} SaidByCore(a: string, b: string)
    requires Core(a) == Core(b)
    ensures Said(a) == Said(b)
  {
  }

  lemma {:induction false} EndMarksHaveNoFeed(s: string)
    requires AllEndMarks(s)
    ensures forall i :: 0 <= i < |s| ==> s[i] != '\n'
  {
  }

  /** Nor do the marks that close a heading. */
  lemma {:induction false} BackSaysNothing(s: string, b: string)
    requires AllEndMarks(b)
    ensures Voice(s + b) == Voice(s)
    decreases |s|
  {
    hide Said, Core, AllEndMarks;
    var n := ToLineFeed(s);
    if n == |s| {
      EndMarksHaveNoFeed(b);
      LineFeedAt(s + b, |s + b|);
      assert (s + b)[..|s + b|] == s + b && s[..n] == s;
      CoreKeepsOff(s, b);
      SaidByCore(s + b, s);
    } else {
      LineFeedAt(s + b, n);
      assert (s + b)[..n] == s[..n] && (s + b)[n + 1..] == s[n + 1..] + b;
      BackSaysNothing(s[n + 1..], b);
    }
  }

  /** Two texts with a line feed between them. */
  lemma {:induction false} VoiceJoins(a: string, b: string)
    ensures Voice(a + "\n" + b) == Voice(a) + Voice(b)
    decreases |a|
  {
    hide Said;
    var s, n := a + "\n" + b, ToLineFeed(a);
    LineFeedAt(s, n);
    assert s[..n] == a[..n];
    if n == |a| {
      assert s[n + 1..] == b && Said(a[..n]) + [] == Said(a[..n]);
    } else {
      assert s[n + 1..] == a[n + 1..] + "\n" + b;
      VoiceJoins(a[n + 1..], b);
      assert Said(a[..n]) + (Voice(a[n + 1..]) + Voice(b)) == Said(a[..n]) + Voice(a[n + 1..]) + Voice(b);
    }
  }

  // ---------------------------------------------------------------------------------------
  // Lines that say nothing, and headings
  // ---------------------------------------------------------------------------------------

  lemma {:induction false} KeptWhole(s: string, c: char)
    requires s != "" && s[|s| - 1] != c
    ensures DropTrailing(s, c) == s
  {
  }

  lemma {:induction false} LastOf(s: string)
    requires EndsWith(s, ">")
    ensures s != "" && s[|s| - 1] == '>'
  {
    assert s[|s| - 1..][0] == '>';
  }

  lemma {:induction false} CommentIsBlank(body: string)
    requires EndsWith(body, ">") && EndsWith(DropTrailing(body[..|body| - 1], ' '), "--")
    ensures IsBlankLine("<--" + body)
  {
    hide EndsWith, DropTrailing;
    var c := "<--" + body;
    assert LeadingSpaces(c) == 0 && c[0..3] == "<--" && c[3..] == body;
    LastOf(body);
    KeptWhole(body, ' ');
  }

  lemma {:induction false} CommentSays(body: string, back: string)
    requires IsBlankLine("<--" + body) && EndsWith(body, ">") && AllEndMarks(back)
    ensures Silent("<--" + body + back)
  {
    hide EndsWith, IsBlankLine, TrimBack, FrontMark;
    var c := "<--" + body;
    LastOf(body);
    assert c[|c| - 1] == '>';
    TrimmedBack(c);
    BackIsTrimmed(c, back);
    assert (c + " ")[0] == '<';
    NoFrontMark(c + " ");
  }

  lemma {:induction false} NoFrontMark(s: string)
    requires s != "" && s[0] == '<'
    ensures FrontMark(s) == 0
  {
  }

  /** A blank line says nothing, be it a comment. */
  lemma {:induction false} BlankSaysNothing(s: string)
    requires IsBlankLine(s) && '\n' !in s
    ensures Voice(s) == []
  {
    hide Voice, LessMarks, Silent, EndsWith;
    var n := LeadingSpaces(s);
    LessLeading(s, n);
    FrontSaysNothing(s[n..], s);
    if n == |s| {
      VoiceShort("");
    } else {
      CommentSaysNothing(s[n..]);
    }
  }

  lemma {:induction false} CommentSaysNothing(s: string)
    requires |s| >= 3 && s[..3] == "<--" && '\n' !in s
    requires var body := DropTrailing(s[3..], ' ');
      EndsWith(body, ">") && EndsWith(DropTrailing(body[..|body| - 1], ' '), "--")
    ensures Voice(s) == []
  {
    hide EndsWith, Silent, Voice, DropTrailing, IsBlankLine;
    var rest := s[3..];
    var body := DropTrailing(rest, ' ');
    var back := rest[|body|..];
    CommentIsBlank(body);
    assert AllEndMarks(back);
    CommentSays(body, back);
    assert rest == body + back && s == s[..3] + rest;
    assert "<--" + body + back == "<--" + (body + back);
    OneLine(s);
  }

  lemma {:induction false} OneLine(s: string)
    requires '\n' !in s && Silent(s)
    ensures Voice(s) == []
  {
    LineFeedAt(s, |s|);
    assert s[..|s|] == s;
  }

  lemma {:induction false} FrontIsInside(s: string)
    ensures forall c :: c in TrimFront(s) ==> c in s
    decreases |s|
  {
    hide FrontAt;
    if FrontAt(s) > 0 {
      FrontIsInside(s[FrontAt(s)..]);
    }
  }

  /** What a line says is made of its own characters. */
  lemma {:induction false} CoreIsInside(s: string)
    ensures forall c :: c in Core(s) ==> c in s
  {
    hide TrimFront, TrimBack;
    FrontIsInside(TrimBack(s));
  }

  lemma {:induction false} UnderlineSaysNothing(s: string)
    requires IsUnderline(s)
    ensures Voice(s) == []
  {
    hide Core, Voice;
    CoreIsInside(s);
    assert forall i :: 0 <= i < |Core(s)| ==> Core(s)[i] in s;
    OneLine(s);
  }

  lemma {:induction false} RuleSaysNothing(s: string)
    requires IsRule(s)
    ensures Voice(s) == []
  {
    hide Core, Voice;
    CoreIsInside(s);
    assert forall i :: 0 <= i < |Core(s)| ==> Core(s)[i] in s;
    OneLine(s);
  }

  /** The text of a heading is its line without the hashes and spaces at both ends, and says what the line says. */
  lemma {:induction false} HeadingSays(s: string)
    requires MatchHash(s).Some?
    ensures var text := MatchHash(s).value.text;
      Voice(text) == Voice(s) && exists k :: BetweenEndMarks(text, s, k)
  {
    hide Voice, AllEndMarks, DropTrailing, MatchHash, LeadingSpaces, HashRun, IsEndMark;
    var k := HashRun(s) + LeadingSpaces(s[HashRun(s)..]);
    var rest := s[k..];
    HeadingIs(s);
    HeadingSaysRest(s);
    HeadingEnds(rest);
    HeadingStarts(s);
    SliceAt(s, k, |MatchHash(s).value.text|);
    assert BetweenEndMarks(MatchHash(s).value.text, s, k);
  }

  lemma {:induction false} SliceAt(s: string, k: nat, n: nat)
    requires k + n <= |s|
    ensures s[k..k + n] == s[k..][..n] && s[k + n..] == s[k..][n..]
  {
  }

  predicate BetweenEndMarks(t: string, s: string, k: nat) {
    k + |t| <= |s| && AllEndMarks(s[..k]) && s[k..k + |t|] == t && AllEndMarks(s[k + |t|..])
  }

  lemma {:induction false} HeadingIs(s: string)
    requires MatchHash(s).Some?
    ensures MatchHash(s).value.text ==
      DropTrailing(DropTrailing(s[HashRun(s) + LeadingSpaces(s[HashRun(s)..])..], '#'), ' ')
  {
    hide DropTrailing, LeadingSpaces, HashRun;
  }

  lemma {:induction false} HeadingSaysRest(s: string)
    requires MatchHash(s).Some?
    ensures Voice(s[HashRun(s) + LeadingSpaces(s[HashRun(s)..])..]) == Voice(s)
  {
    hide Voice, FrontMark, LessMarks, DropTrailing, LeadingSpaces;
    var n := HashRun(s);
    var u := s[n..];
    var k := LeadingSpaces(u);
    HashesComeFirst(s);
    MarkSaysNothing(s);
    LessLeading(u, k);
    FrontSaysNothing(u[k..], u);
    assert u[k..] == s[n + k..];
  }

  lemma {:induction false} HeadingEnds(s: string)
    ensures var text := DropTrailing(DropTrailing(s, '#'), ' ');
      Voice(text) == Voice(s) && text == s[..|text|] && AllEndMarks(s[|text|..])
  {
    hide Voice, IsOrnament, IsBlankLine;
    var some := DropTrailing(s, '#');
    var text := DropTrailing(some, ' ');
    TailSaysNothing(s, some, '#');
    TailSaysNothing(some, text, ' ');
    forall i | |text| <= i < |s| ensures IsEndMark(s[i]) {
      assert i < |some| ==> some[i] == s[i];
    }
  }

  lemma {:induction false} HeadingStarts(s: string)
    ensures AllEndMarks(s[..HashRun(s) + LeadingSpaces(s[HashRun(s)..])])
  {
    var n := HashRun(s);
    assert forall i :: n <= i < |s| ==> s[i] == s[n..][i - n];
  }

  lemma {:induction false} HashesComeFirst(s: string)
    requires MatchHash(s).Some?
    ensures FrontMark(s) == HashRun(s)
  {
    HashIsNoMarker(s);
    assert s[HashRun(s)] == s[HashRun(s)..][0];
  }

  lemma {:induction false} TailSaysNothing(s: string, t: string, c: char)
    requires t == DropTrailing(s, c) && IsEndMark(c)
    ensures Voice(t) == Voice(s)
  {
    hide Voice;
    assert s == t + s[|t|..];
    BackSaysNothing(t, s[|t|..]);
  }

  // ---------------------------------------------------------------------------------------
  // Examples
  // ---------------------------------------------------------------------------------------

  lemma {:induction false} SaysItself(s: string)
    requires '\n' !in s && TrimBack(s) == s && FrontAt(s) == 0 && !IsOrnament(s) && !IsBlankLine(s)
    ensures Voice(s) == [s]
  {
    hide IsOrnament, IsBlankLine, TrimBack, FrontAt;
    LineFeedAt(s, |s|);
    assert s[..|s|] == s && [s] + [] == [s];
  }

  /** Numbers and emphasis at the front of a line are text; an item number is not. */
  lemma {:induction false} NumbersAreSaid()
    ensures Voice("2009-05-01") == ["2009-05-01"]
    ensures Voice("**a** b") == ["**a** b"]
    ensures Voice("> 12. c") == ["c"]
  {
    hide Voice, IsOrnament;
    DateSays("2009-05-01");
    StarsSay("**a** b");
    var s, t := "> 12. c", "12. c";
    assert FrontMark(s) == 1 && s[1..] == " " + t;
    MarkSaysNothing(s);
    SpaceSaysNothing(t);
    ItemSays(t);
  }

  lemma {:induction false} SpaceSaysNothing(t: string)
    ensures Voice(" " + t) == Voice(t)
  {
    hide Voice;
    assert FrontMark(" " + t) == 1 && (" " + t)[1..] == t;
    MarkSaysNothing(" " + t);
  }

  lemma {:induction false} DateSays(s: string)
    requires s == "2009-05-01"
    ensures Voice(s) == [s]
  {
    assert DigitRun(s + " ") == 4 by { assert (s + " ")[4] == '-'; }
    TrimmedBack(s);
    SaysItself(s);
  }

  lemma {:induction false} StarsSay(s: string)
    requires s == "**a** b"
    ensures Voice(s) == [s]
  {
    assert s[2] == 'a' && (s + " ")[0] == '*' && (s + " ")[1] == '*';
    TrimmedBack(s);
    SaysItself(s);
  }

  lemma {:induction false} ItemSays(t: string)
    requires t == "12. c"
    ensures Voice(t) == ["c"]
  {
    hide Voice, IsOrnament;
    assert t[..3] == "12.";
    MarkerIs(t, 3);
    assert t[3..] == " " + "c";
    MarkSaysNothing(t);
    SpaceSaysNothing("c");
    LetterSays("c");
  }

  lemma {:induction false} LetterSays(s: string)
    requires s == "c"
    ensures Voice(s) == [s]
  {
    TrimmedBack(s);
    SaysItself(s);
  }
}
