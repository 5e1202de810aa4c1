/**
 * The expressions of the block parsers as the sets of lines they match: each line is spelled out
 * as spaces, marks and text, and the functions of `BlockLines` are proved to agree.
 */
module BlockExpressions {
  import opened BlockLines
  import opened Options

  function Times(c: char, n: nat): (r: string)
    ensures |r| == n && forall i :: 0 <= i < n ==> r[i] == c
  {
    seq(n, _ => c)
  }

  function Spaces(n: nat): (r: string)
    ensures |r| == n && forall i :: 0 <= i < n ==> r[i] == ' '
  {
    Times(' ', n)
  }

  lemma {:induction false} LeadingAre(n: nat, u: string)
    requires u == "" || u[0] != ' '
    ensures LeadingSpaces(Spaces(n) + u) == n && (Spaces(n) + u)[n..] == u
  {
    hide LeadingSpaces;
    var s := Spaces(n) + u;
    assert s[n..] == u;
    assert n < |s| ==> s[n] == u[0];
  }

  lemma {:induction false} TakeSpaces(s: string, n: nat)
    requires n <= LeadingSpaces(s)
    ensures s == Spaces(n) + s[n..]
  {
  }

  lemma {:induction false} SpacesLead(n: nat, u: string)
    ensures LeadingSpaces(Spaces(n) + u) >= n && (Spaces(n) + u)[n..] == u
  {
    hide LeadingSpaces;
    var s := Spaces(n) + u;
    assert forall i :: 0 <= i < n ==> s[i] == ' ';
    assert s[n..] == u;
  }

  lemma {:induction false} DropsAll(t: string, c: char, n: nat)
    requires t == "" || t[|t| - 1] != c
    ensures DropTrailing(t + Times(c, n), c) == t
  {
    hide DropTrailing;
    var s := t + Times(c, n);
    var r := DropTrailing(s, c);
    assert forall i :: |t| <= i < |s| ==> s[i] == c;
    assert forall i :: 0 <= i < |t| ==> s[i] == t[i];
    assert forall i :: 0 <= i < |r| ==> r[i] == s[i];
    assert s[..|t|] == t;
  }

  lemma {:induction false} DropsTimes(s: string, c: char) returns (n: nat)
    ensures s == DropTrailing(s, c) + Times(c, n)
  {
    hide DropTrailing;
    var r := DropTrailing(s, c);
    n := |s| - |r|;
  }

  // ---------------------------------------------------------------------------------------
  // Code, quotes, and continuations
  // ---------------------------------------------------------------------------------------

  /** ` {n}(.*)` */
  lemma {:induction false} DeepLine(s: string, n: nat, u: string)
    ensures AfterSpaces(s, n) == Some(u) <==> s == Spaces(n) + u
  {
    hide LeadingSpaces;
    SpacesLead(n, u);
    if AfterSpaces(s, n).Some? {
      TakeSpaces(s, n);
    }
  }

  ghost predicate QuoteMarkIs(s: string, n: nat, u: string) {
    s == Spaces(n) + (">" + u)
  }

  lemma {:induction false} MarkTakesPart(s: string, n: nat)
    requires n < |s| && n == LeadingSpaces(s)
    ensures s == Spaces(n) + ([s[n]] + s[n + 1..])
  {
    hide LeadingSpaces;
  }

  /** ` {0,3}>` */
  lemma {:induction false} QuoteMark(s: string, u: string)
    ensures AfterQuoteMark(s) == Some(u) <==> exists n: nat :: n <= 3 && QuoteMarkIs(s, n, u)
  {
    hide LeadingSpaces;
    if AfterQuoteMark(s) == Some(u) {
      MarkTakesPart(s, LeadingSpaces(s));
      assert QuoteMarkIs(s, LeadingSpaces(s), u);
    }
    if exists n: nat :: n <= 3 && QuoteMarkIs(s, n, u) {
      var n: nat :| n <= 3 && QuoteMarkIs(s, n, u);
      LeadingAre(n, ">" + u);
      assert s[n + 1..] == (">" + u)[1..] == u;
    }
  }

  // ---------------------------------------------------------------------------------------
  // Lists
  // ---------------------------------------------------------------------------------------

  /** The text of a bulleted item: it takes a space back if it would be empty or start with a star or minus. */
  predicate IsBulletText(c: string) {
    && c != ""
    && if c[0] == ' ' then |c| == 1 || c[1] == '*' || c[1] == '-' else c[0] != '*' && c[0] != '-'
  }

  /** Spaces, and then text that does not start with one. */
  lemma {:induction false} NumberText(s: string, c: string)
    ensures NumberContent(s) == Some(c) <==>
      exists k: nat :: k >= 1 && s == Spaces(k) + c && (c == "" || c[0] != ' ')
  {
    hide LeadingSpaces;
    var k := LeadingSpaces(s);
    TakeSpaces(s, k);
    if NumberContent(s) == Some(c) {
      assert s == Spaces(k) + c;
    }
    if exists k: nat :: k >= 1 && s == Spaces(k) + c && (c == "" || c[0] != ' ') {
      var k: nat :| k >= 1 && s == Spaces(k) + c && (c == "" || c[0] != ' ');
      LeadingAre(k, c);
    }
  }

  lemma {:induction false} BulletTextFound(s: string)
    requires BulletContent(s).Some?
    ensures var c := BulletContent(s).value;
      IsBulletText(c) && |s| > |c| && s == Spaces(|s| - |c|) + c
  {
    hide BulletContent, IsBulletText;
    BulletTextTaken(s);
    TakeSpaces(s, |s| - |BulletContent(s).value|);
  }

  lemma {:induction false} BulletTextTaken(s: string)
    requires BulletContent(s).Some?
    ensures var c := BulletContent(s).value;
      IsBulletText(c) && 1 <= |s| - |c| <= LeadingSpaces(s) && c == s[|s| - |c|..]
  {
    hide LeadingSpaces, IsBulletText;
    var k := LeadingSpaces(s);
    if k < |s| && s[k] != '*' && s[k] != '-' {
      BulletTextAt(s, k);
    } else {
      BulletTextAt(s, k - 1);
    }
  }

  lemma {:induction false} BulletTextAt(s: string, n: nat)
    requires n < |s|
    requires if s[n] == ' ' then n + 1 == |s| || s[n + 1] == '*' || s[n + 1] == '-' else s[n] != '*' && s[n] != '-'
    ensures IsBulletText(s[n..])
  {
  }

  lemma {:induction false} BulletTextIs(k: nat, c: string)
    requires k >= 1 && IsBulletText(c)
    ensures BulletContent(Spaces(k) + c) == Some(c)
  {
    hide LeadingSpaces;
    var s := Spaces(k) + c;
    if c[0] == ' ' {
      assert c == " " + c[1..];
      assert s == Spaces(k + 1) + c[1..];
      LeadingAre(k + 1, c[1..]);
      assert s[k..] == c;
      assert |c| > 1 ==> s[k + 1] == c[1];
    } else {
      LeadingAre(k, c);
      assert s[k] == c[0];
    }
  }

  ghost predicate BulletLineIs(s: string, n: nat, mark: char, k: nat, c: string) {
    s == Spaces(n) + ([mark] + (Spaces(k) + c))
  }

  /** `^ {n}M +([^*-].*)$` for a bullet M */
  lemma {:induction false} BulletLine(s: string, n: nat, mark: char, c: string)
    ensures MatchItem(s, n, Bullets(mark)) == Some(c) <==>
      mark in "*+-" && IsBulletText(c) && exists k: nat :: k >= 1 && BulletLineIs(s, n, mark, k, c)
  {
    hide LeadingSpaces, BulletContent, IsBulletText;
    if MatchItem(s, n, Bullets(mark)) == Some(c) {
      BulletTextFound(s[n + 1..]);
      TakeSpaces(s, n);
      assert s[n..] == [mark] + s[n + 1..];
      assert BulletLineIs(s, n, mark, |s[n + 1..]| - |c|, c);
    }
    if mark in "*+-" && IsBulletText(c) && exists k: nat :: k >= 1 && BulletLineIs(s, n, mark, k, c) {
      var k: nat :| k >= 1 && BulletLineIs(s, n, mark, k, c);
      var u := Spaces(k) + c;
      BulletTextIs(k, c);
      LeadingAre(n, [mark] + u);
      assert s[n] == mark && s[n + 1..] == ([mark] + u)[1..] == u;
    }
  }

  predicate IsDigits(d: string) {
    d != "" && forall i :: 0 <= i < |d| ==> '0' <= d[i] <= '9'
  }

  ghost predicate NumberLineIs(s: string, n: nat, d: string, k: nat, c: string) {
    IsDigits(d) && k >= 1 && s == Spaces(n) + (d + ("." + (Spaces(k) + c)))
  }

  lemma {:induction false} DigitsBeforeDot(d: string, u: string)
    requires IsDigits(d)
    ensures DigitRun(d + ("." + u)) == |d|
  {
    hide DigitRun;
    var s := d + ("." + u);
    assert s[|d|] == '.' && forall i :: 0 <= i < |d| ==> s[i] == d[i];
  }

  /** `^ {n}[0-9]+\. +(.*)$` */
  lemma {:induction false} NumberLine(s: string, n: nat, c: string)
    ensures MatchItem(s, n, Numbers) == Some(c) <==>
      (c == "" || c[0] != ' ') && exists d, k: nat :: NumberLineIs(s, n, d, k, c)
  {
    hide MatchItem, NumberLineIs;
    if MatchItem(s, n, Numbers) == Some(c) {
      NumberFound(s, n, c);
    }
    if (c == "" || c[0] != ' ') && exists d, k: nat :: NumberLineIs(s, n, d, k, c) {
      var d, k: nat :| NumberLineIs(s, n, d, k, c);
      NumberIs(s, n, d, k, c);
    }
  }

  lemma {:induction false} NumberFound(s: string, n: nat, c: string)
    requires MatchItem(s, n, Numbers) == Some(c)
    ensures (c == "" || c[0] != ' ') && exists d, k: nat :: NumberLineIs(s, n, d, k, c)
  {
    hide LeadingSpaces, NumberContent, DigitRun;
    var u := s[n..];
    var d := DigitRun(u);
    var v := s[n + d + 1..];
    NumberText(v, c);
    var k: nat :| k >= 1 && v == Spaces(k) + c && (c == "" || c[0] != ' ');
    TakeSpaces(s, n);
    SplitAt(u, d, ".", v);
    assert NumberLineIs(s, n, u[..d], k, c);
  }

  lemma {:induction false} SplitAt(u: string, d: nat, dot: string, v: string)
    requires |dot| == 1 && d < |u| && u[d] == dot[0] && u[d + 1..] == v
    ensures u == u[..d] + (dot + v)
  {
  }

  lemma {:induction false} NumberIs(s: string, n: nat, d: string, k: nat, c: string)
    requires (c == "" || c[0] != ' ') && NumberLineIs(s, n, d, k, c)
    ensures MatchItem(s, n, Numbers) == Some(c)
  {
    hide LeadingSpaces, NumberContent, DigitRun, Spaces;
    var u := Spaces(k) + c;
    var t := d + ("." + u);
    NumberText(u, c);
    DigitsBeforeDot(d, u);
    LeadingAre(n, t);
    DotBehind(d, u);
    BehindSpaces(s, n, |d|);
  }

  lemma {:induction false} DotBehind(d: string, u: string)
    ensures var t := d + ("." + u); t[|d|] == '.' && t[|d| + 1..] == u
  {
  }

  lemma {:induction false} BehindSpaces(s: string, n: nat, d: nat)
    requires n + d < |s|
    ensures s[n..][d] == s[n + d] && s[n..][d + 1..] == s[n + d + 1..]
  {
  }

  /** A line is a list line of the kind and indentation that it is an item of. */
  lemma {:induction false} ListLine(s: string, n: nat, kind: ListKind, c: string)
    ensures MatchList(s) == Some(ListStart(n, kind, c)) <==> MatchItem(s, n, kind) == Some(c)
  {
    hide BulletContent, NumberContent, LeadingSpaces;
    if MatchItem(s, n, kind) == Some(c) && kind.Numbers? {
      assert s[n..][0] == s[n];
    }
  }

  ghost predicate SublistLineIs(s: string, n: nat, marker: string, u: string) {
    && s == Spaces(n) + (marker + (" " + u))
    && (marker == "*" || marker == "+" || marker == "-"
        || (|marker| >= 2 && marker[|marker| - 1] == '.' && IsDigits(marker[..|marker| - 1])))
  }

  /** `^ {indent} +(([*+-])|([0-9]+\.)) +.*$` */
  lemma {:induction false} SublistLine(s: string, indent: nat)
    ensures StartsSublist(s, indent) <==> exists n: nat, marker, u :: n > indent && SublistLineIs(s, n, marker, u)
  {
    if StartsSublist(s, indent) {
      SublistFound(s, indent);
    }
    if exists n: nat, marker, u :: n > indent && SublistLineIs(s, n, marker, u) {
      var n: nat, marker, u :| n > indent && SublistLineIs(s, n, marker, u);
      SublistIs(s, indent, n, marker, u);
    }
  }

  lemma {:induction false} SublistFound(s: string, indent: nat)
    requires StartsSublist(s, indent)
    ensures exists n: nat, marker, u :: n > indent && SublistLineIs(s, n, marker, u)
  {
    hide LeadingSpaces, DigitRun, SublistLineIs;
    var n := LeadingSpaces(s);
    if IsBullet(s[n]) && LeadingSpaces(s[n + 1..]) >= 1 {
      BulletSublistFound(s, n);
    } else {
      NumberSublistFound(s, n);
    }
  }

  lemma {:induction false} BulletSublistFound(s: string, n: nat)
    requires n < |s| && n == LeadingSpaces(s) && IsBullet(s[n]) && LeadingSpaces(s[n + 1..]) >= 1
    ensures exists u :: SublistLineIs(s, n, [s[n]], u)
  {
    hide LeadingSpaces;
    var v := s[n + 1..];
    TakeSpaces(s, n);
    BehindSpaces(s, n, 0);
    FirstIsSpace(v);
    SplitAt(s[n..], 0, [s[n]], v);
    assert [s[n]] + v == s[n..];
    assert SublistLineIs(s, n, [s[n]], v[1..]);
  }

  lemma {:induction false} NumberSublistFound(s: string, n: nat)
    requires n == LeadingSpaces(s) && var d := DigitRun(s[n..]);
      d >= 1 && n + d < |s| && s[n + d] == '.' && LeadingSpaces(s[n + d + 1..]) >= 1
    ensures exists marker, u :: SublistLineIs(s, n, marker, u)
  {
    hide LeadingSpaces, DigitRun, IsDigits, SublistLineIs;
    var d := DigitRun(s[n..]);
    DigitsAreDigits(s, n);
    assert s[n + d + 1] == s[n + d + 1..][0] == ' ';
    NumberParts(s, n, d);
    NumberedIs(s, n, s[n..n + d], s[n + d + 2..]);
  }

  lemma {:induction false} NumberParts(s: string, n: nat, d: nat)
    requires n + d + 1 < |s| && (forall i :: 0 <= i < n ==> s[i] == ' ') && s[n + d] == '.' && s[n + d + 1] == ' '
    ensures s == Spaces(n) + (s[n..n + d] + ("." + (" " + s[n + d + 2..])))
  {
  }

  lemma {:induction false} NumberedIs(s: string, n: nat, d: string, u: string)
    requires IsDigits(d) && s == Spaces(n) + (d + ("." + (" " + u)))
    ensures SublistLineIs(s, n, d + ".", u)
  {
    hide IsDigits, Spaces;
    DotEnds(d, u);
    NoDigits();
  }

  lemma {:induction false} NoDigits()
    ensures !IsDigits("")
  {
  }

  lemma {:induction false} FirstIsSpace(v: string)
    ensures LeadingSpaces(v) >= 1 <==> v != "" && v == " " + v[1..]
  {
  }

  lemma {:induction false} DigitsAreDigits(s: string, n: nat)
    requires n <= |s| && DigitRun(s[n..]) >= 1
    ensures n + DigitRun(s[n..]) <= |s| && IsDigits(s[n..n + DigitRun(s[n..])])
  {
    hide DigitRun;
  }

  lemma {:induction false} DotEnds(d: string, u: string)
    ensures var marker := d + ".";
      marker[|marker| - 1] == '.' && marker[..|marker| - 1] == d && d + ("." + (" " + u)) == marker + (" " + u)
  {
  }

  lemma {:induction false} SublistIs(s: string, indent: nat, n: nat, marker: string, u: string)
    requires n > indent && SublistLineIs(s, n, marker, u)
    ensures StartsSublist(s, indent)
  {
    hide LeadingSpaces, DigitRun, IsDigits, Spaces;
    if |marker| == 1 {
      BulletedSublist(s, n, marker, u);
    } else {
      var d := marker[..|marker| - 1];
      assert marker == d + ".";
      NumberedSublist(s, n, d, u);
    }
  }

  lemma {:induction false} BulletedSublist(s: string, n: nat, marker: string, u: string)
    requires |marker| == 1 && marker[0] != ' ' && s == Spaces(n) + (marker + (" " + u))
    ensures n < |s| && LeadingSpaces(s) == n && s[n] == marker[0] && LeadingSpaces(s[n + 1..]) >= 1
  {
    hide LeadingSpaces, Spaces;
    var v := " " + u;
    assert v[1..] == u;
    FirstIsSpace(v);
    SplitFirst(marker, v);
    LeadingAre(n, marker + v);
    BehindSpaces(s, n, 0);
  }

  lemma {:induction false} SplitFirst(marker: string, v: string)
    requires |marker| == 1
    ensures (marker + v)[0] == marker[0] && (marker + v)[1..] == v
  {
  }

  lemma {:induction false} NumberedSublist(s: string, n: nat, d: string, u: string)
    requires IsDigits(d) && s == Spaces(n) + (d + "." + (" " + u))
    ensures n < |s| && LeadingSpaces(s) == n && DigitRun(s[n..]) == |d| && n + |d| < |s| && s[n + |d|] == '.'
    ensures LeadingSpaces(s[n + |d| + 1..]) >= 1
  {
    hide LeadingSpaces, DigitRun;
    var v := " " + u;
    DotEnds(d, u);
    assert v[1..] == u;
    FirstIsSpace(v);
    LeadingAre(n, d + ("." + v));
    DigitsBeforeDot(d, v);
    DotBehind(d, v);
    BehindSpaces(s, n, |d|);
  }

  // ---------------------------------------------------------------------------------------
  // Headers and rules
  // ---------------------------------------------------------------------------------------

  /** The shortest text in front of spaces and hashes. */
  predicate IsHeadingText(text: string, a: nat) {
    if text == "" then a == 0
    else text[0] != ' ' && text[|text| - 1] != ' ' && (a == 0 ==> text[|text| - 1] != '#')
  }

  ghost predicate HashLineIs(s: string, level: nat, k: nat, text: string, a: nat, b: nat) {
    && k >= 1 && IsHeadingText(text, a)
    && s == Times('#', level) + (Spaces(k) + (text + Spaces(a) + Times('#', b)))
  }

  lemma {:induction false} HeadingTextIs(text: string, a: nat, b: nat)
    requires IsHeadingText(text, a)
    ensures DropTrailing(DropTrailing(text + Spaces(a) + Times('#', b), '#'), ' ') == text
  {
    hide DropTrailing;
    var u := text + Spaces(a);
    assert u != "" && a > 0 ==> u[|u| - 1] == ' ';
    assert a == 0 ==> u == text;
    DropsAll(u, '#', b);
    DropsAll(text, ' ', a);
  }

  lemma {:induction false} HeadingTextFound(rest: string) returns (a: nat, b: nat)
    requires rest == "" || rest[0] != ' '
    ensures var text := DropTrailing(DropTrailing(rest, '#'), ' ');
      IsHeadingText(text, a) && rest == text + Spaces(a) + Times('#', b)
  {
    hide DropTrailing;
    var u := DropTrailing(rest, '#');
    b := DropsTimes(rest, '#');
    a := DropsTimes(u, ' ');
    var text := DropTrailing(u, ' ');
    assert a == 0 ==> u == text;
    assert forall i :: 0 <= i < |text| ==> text[i] == rest[i];
    assert forall i :: 0 <= i < |u| ==> u[i] == rest[i];
  }

  lemma {:induction false} HashesLead(level: nat, u: string)
    requires u == "" || u[0] != '#'
    ensures HashRun(Times('#', level) + u) == level && (Times('#', level) + u)[level..] == u
  {
    hide HashRun;
    var s := Times('#', level) + u;
    assert s[level..] == u && (level < |s| ==> s[level] == u[0]);
  }

  /** `^(#{1,6}) +(.*?) *#*$`: as many levels as hashes. */
  lemma {:induction false} HashLine(s: string, level: nat, text: string)
    ensures MatchHash(s) == Some(Heading(level, text)) <==>
      1 <= level <= 6 && exists k: nat, a: nat, b: nat :: HashLineIs(s, level, k, text, a, b)
  {
    hide HashRun, LeadingSpaces, DropTrailing;
    if MatchHash(s) == Some(Heading(level, text)) {
      var k, a, b := HashFound(s);
    }
    if 1 <= level <= 6 && exists k: nat, a: nat, b: nat :: HashLineIs(s, level, k, text, a, b) {
      var k: nat, a: nat, b: nat :| HashLineIs(s, level, k, text, a, b);
      HashIs(s, level, k, text, a, b);
    }
  }

  /** Hashes, then spaces, then something else. */
  lemma {:induction false} HashParts(s: string, n: nat, k: nat, rest: string)
    requires k >= 1 && (rest == "" || rest[0] != ' ') && s == Times('#', n) + (Spaces(k) + rest)
    ensures n + k <= |s| && HashRun(s) == n && LeadingSpaces(s[n..]) == k && s[n + k..] == rest
  {
    hide HashRun, LeadingSpaces;
    HashesLead(n, Spaces(k) + rest);
    LeadingAre(k, rest);
    assert s[n + k..] == s[n..][k..];
  }

  lemma {:induction false} HashMatched(s: string, n: nat, k: nat, rest: string)
    requires 1 <= n <= 6 && k >= 1
    requires n + k <= |s| && HashRun(s) == n && LeadingSpaces(s[n..]) == k && s[n + k..] == rest
    ensures MatchHash(s) == Some(Heading(n, DropTrailing(DropTrailing(rest, '#'), ' ')))
  {
    hide HashRun, LeadingSpaces, DropTrailing;
  }

  lemma {:induction false} HashSplits(s: string) returns (n: nat, k: nat, rest: string, text: string)
    requires MatchHash(s).Some?
    ensures MatchHash(s) == Some(Heading(n, text)) && text == DropTrailing(DropTrailing(rest, '#'), ' ')
    ensures 1 <= n <= 6 && k >= 1 && (rest == "" || rest[0] != ' ') && s == Times('#', n) + (Spaces(k) + rest)
  {
    hide HashRun, LeadingSpaces, DropTrailing, Times, Spaces;
    n, k := HashRun(s), LeadingSpaces(s[HashRun(s)..]);
    rest := s[n + k..];
    text := DropTrailing(DropTrailing(rest, '#'), ' ');
    SpacesBehind(s, n);
    HashesJoin(s, n, k);
  }

  lemma {:induction false} SpacesBehind(s: string, n: nat)
    requires n <= |s|
    ensures var k := LeadingSpaces(s[n..]);
      n + k <= |s| && (forall i :: n <= i < n + k ==> s[i] == ' ') && (n + k < |s| ==> s[n + k] != ' ')
  {
    hide LeadingSpaces;
    var u := s[n..];
    assert forall i :: n <= i < |s| ==> s[i] == u[i - n];
  }

  lemma {:induction false} HashesJoin(s: string, n: nat, k: nat)
    requires n + k <= |s| && (forall i :: 0 <= i < n ==> s[i] == '#') && forall i :: n <= i < n + k ==> s[i] == ' '
    ensures s == Times('#', n) + (Spaces(k) + s[n + k..])
  {
  }

  lemma {:induction false} HashFound(s: string) returns (k: nat, a: nat, b: nat)
    requires MatchHash(s).Some?
    ensures var h := MatchHash(s).value; 1 <= h.level <= 6 && HashLineIs(s, h.level, k, h.text, a, b)
  {
    hide HashRun, LeadingSpaces, DropTrailing, IsHeadingText, HashLineIs, Times, Spaces;
    var n, rest, text;
    n, k, rest, text := HashSplits(s);
    a, b := HeadingTextFound(rest);
    HashLineHolds(s, n, k, rest, text, a, b);
  }

  lemma {:induction false} HashLineHolds(s: string, n: nat, k: nat, rest: string, text: string, a: nat, b: nat)
    requires k >= 1 && IsHeadingText(text, a)
    requires s == Times('#', n) + (Spaces(k) + rest) && rest == text + Spaces(a) + Times('#', b)
    ensures HashLineIs(s, n, k, text, a, b)
  {
    hide IsHeadingText, Times, Spaces;
  }

  lemma {:induction false} HeadingStarts(text: string, a: nat, b: nat)
    requires IsHeadingText(text, a)
    ensures var rest := text + Spaces(a) + Times('#', b); rest == "" || rest[0] != ' '
  {
  }

  lemma {:induction false} HashIs(s: string, level: nat, k: nat, text: string, a: nat, b: nat)
    requires 1 <= level <= 6 && HashLineIs(s, level, k, text, a, b)
    ensures MatchHash(s) == Some(Heading(level, text))
  {
    hide MatchHash, HashRun, LeadingSpaces, DropTrailing, IsHeadingText, Times, Spaces;
    HeadingStarts(text, a, b);
    HashParts(s, level, k, text + Spaces(a) + Times('#', b));
    HashMatched(s, level, k, text + Spaces(a) + Times('#', b));
    HeadingTextIs(text, a, b);
  }

  /** `^([-=])\1*$` */
  lemma {:induction false} UnderLine(s: string)
    ensures IsUnderline(s) <==> s != "" && (s == Times('-', |s|) || s == Times('=', |s|))
  {
  }

  predicate RuleChars(s: string) {
    forall i :: 0 <= i < |s| ==> s[i] in " -*_"
  }

  ghost predicate RuleLineIs(s: string, n: nat, a: char, i: nat, b: char, j: nat, c: char, rest: string) {
    && s == Spaces(n) + ([a] + (Spaces(i) + ([b] + (Spaces(j) + ([c] + rest)))))
    && a in "-*_" && b in "-*_" && c in "-*_" && RuleChars(rest)
  }

  lemma {:induction false} MarksBehindSpaces(n: nat, s: string)
    ensures RuleMarks(Spaces(n) + s) == RuleMarks(s)
  {
    if n == 0 {
      assert Spaces(0) + s == s;
    } else {
      assert (Spaces(n) + s)[1..] == Spaces(n - 1) + s;
      MarksBehindSpaces(n - 1, s);
    }
  }

  lemma {:induction false} OneMark(a: char, s: string)
    ensures RuleMarks([a] + s) == (if a in "-*_" then 1 else 0) + RuleMarks(s)
  {
    assert ([a] + s)[1..] == s;
  }

  /** The first mark of such a line, and what is behind it. */
  lemma {:induction false} FirstMark(s: string) returns (n: nat, a: char, rest: string)
    requires RuleChars(s) && RuleMarks(s) > 0
    ensures s == Spaces(n) + ([a] + rest) && n == LeadingSpaces(s) && a in "-*_" && RuleChars(rest)
    ensures RuleMarks(rest) == RuleMarks(s) - 1
  {
    hide RuleMarks, LeadingSpaces;
    n := LeadingSpaces(s);
    TakeSpaces(s, n);
    MarksBehindSpaces(n, s[n..]);
    NoMarks();
    assert n < |s|;
    a, rest := s[n], s[n + 1..];
    assert s[n..] == [a] + rest;
    OneMark(a, rest);
    assert forall i :: 0 <= i < |rest| ==> rest[i] == s[n + 1 + i];
  }

  lemma {:induction false} NoMarks()
    ensures RuleMarks("") == 0
  {
  }

  /** `^ {0,3}((?:-|\*|_) *){3,}$` */
  lemma {:induction false} RuleLine(s: string)
    ensures IsRule(s) <==>
      exists n: nat, a, i: nat, b, j: nat, c, rest :: n <= 3 && RuleLineIs(s, n, a, i, b, j, c, rest)
  {
    hide RuleMarks, LeadingSpaces;
    if IsRule(s) {
      var n, a, r1 := FirstMark(s);
      var i, b, r2 := FirstMark(r1);
      var j, c, rest := FirstMark(r2);
      assert RuleLineIs(s, n, a, i, b, j, c, rest);
    }
    if exists n: nat, a, i: nat, b, j: nat, c, rest :: n <= 3 && RuleLineIs(s, n, a, i, b, j, c, rest) {
      var n: nat, a, i: nat, b, j: nat, c, rest :| n <= 3 && RuleLineIs(s, n, a, i, b, j, c, rest);
      RuleIs(s, n, a, i, b, j, c, rest);
    }
  }

  lemma {:induction false} RuleIs(s: string, n: nat, a: char, i: nat, b: char, j: nat, c: char, rest: string)
    requires n <= 3 && RuleLineIs(s, n, a, i, b, j, c, rest)
    ensures IsRule(s)
  {
    hide RuleMarks, LeadingSpaces;
    var r2 := Spaces(j) + ([c] + rest);
    var r1 := Spaces(i) + ([b] + r2);
    LeadingAre(n, [a] + r1);
    MarksBehindSpaces(n, [a] + r1);
    OneMark(a, r1);
    MarksBehindSpaces(i, [b] + r2);
    OneMark(b, r2);
    MarksBehindSpaces(j, [c] + rest);
    OneMark(c, rest);
    CharsBehind(j, c, rest);
    CharsBehind(i, b, r2);
    CharsBehind(n, a, r1);
  }

  lemma {:induction false} CharsBehind(n: nat, a: char, rest: string)
    requires a in "-*_" && RuleChars(rest)
    ensures RuleChars(Spaces(n) + ([a] + rest))
  {
    var s := Spaces(n) + ([a] + rest);
    forall i | 0 <= i < |s| ensures s[i] in " -*_" {
      if i > n {
        assert s[i] == rest[i - n - 1];
      }
    }
  }

  // ---------------------------------------------------------------------------------------
  // Blank lines
  // ---------------------------------------------------------------------------------------

  ghost predicate CommentIs(s: string, n: nat, mid: string, a: nat, b: nat) {
    s == Spaces(n) + ("<--" + (mid + "--" + Spaces(a) + ">" + Spaces(b)))
  }

  lemma {:induction false} SomethingElse(s: string)
    ensures LeadingSpaces(s) < |s| || s == Spaces(|s|)
  {
    hide LeadingSpaces;
  }

  /** ` {0,3}(<--(.*)-- *> *)* *`, where one comment may hold others */
  lemma {:induction false} BlankLine(s: string)
    ensures IsBlankLine(s) <==>
      s == Spaces(|s|) || exists n: nat, mid, a: nat, b: nat :: n <= 3 && CommentIs(s, n, mid, a, b)
  {
    hide LeadingSpaces, DropTrailing, EndsWith;
    if s == Spaces(|s|) {
      LeadingAre(|s|, "");
      assert Spaces(|s|) + "" == s;
    }
    if IsBlankLine(s) && s != Spaces(|s|) {
      SomethingElse(s);
      CommentFound(s);
    }
    if exists n: nat, mid, a: nat, b: nat :: n <= 3 && CommentIs(s, n, mid, a, b) {
      var n: nat, mid, a: nat, b: nat :| n <= 3 && CommentIs(s, n, mid, a, b);
      CommentIsBlankLine(s, n, mid, a, b);
    }
  }

  lemma {:induction false} EndOf(s: string, t: string)
    requires EndsWith(s, t)
    ensures s == s[..|s| - |t|] + t
  {
  }

  lemma {:induction false} CommentFound(s: string)
    requires IsBlankLine(s) && LeadingSpaces(s) < |s|
    ensures exists n: nat, mid, a: nat, b: nat :: n <= 3 && CommentIs(s, n, mid, a, b)
  {
    hide LeadingSpaces, DropTrailing, EndsWith;
    var n := LeadingSpaces(s);
    var rest := s[n + 3..];
    var body := DropTrailing(rest, ' ');
    EndOf(body, ">");
    var front := body[..|body| - 1];
    var dashes := DropTrailing(front, ' ');
    EndOf(dashes, "--");
    var b := DropsTimes(rest, ' ');
    var a := DropsTimes(front, ' ');
    var mid := dashes[..|dashes| - 2];
    TakeSpaces(s, n);
    assert s[n..] == s[n..n + 3] + rest;
    assert CommentIs(s, n, mid, a, b);
  }

  lemma {:induction false} EndsIn(s: string, t: string)
    ensures EndsWith(s + t, t)
  {
    assert (s + t)[|s|..] == t;
  }

  lemma {:induction false} BehindOpening(s: string, n: nat, rest: string)
    requires s == Spaces(n) + ("<--" + rest)
    ensures |s| >= n + 3 && s[n..n + 3] == "<--" && s[n + 3..] == rest
  {
  }

  lemma {:induction false} CommentIsBlankLine(s: string, n: nat, mid: string, a: nat, b: nat)
    requires n <= 3 && CommentIs(s, n, mid, a, b)
    ensures IsBlankLine(s)
  {
    hide LeadingSpaces, DropTrailing, EndsWith;
    var dashes := mid + "--";
    var body := dashes + Spaces(a) + ">";
    var rest := body + Spaces(b);
    LeadingAre(n, "<--" + rest);
    DropsAll(body, ' ', b);
    EndsIn(dashes + Spaces(a), ">");
    assert body[..|body| - 1] == dashes + Spaces(a);
    assert dashes[|dashes| - 1] == '-';
    DropsAll(dashes, ' ', a);
    EndsIn(mid, "--");
    BehindOpening(s, n, rest);
  }
}
