/**
 * Reading lines: `\r`, `\n`, `\r\n` and `\n\r` end a line, and tabs become spaces.  The text of
 * a stream is a string; `NextLine` follows the program character by character.
 */
module Lines {
  import opened Sequences

  const SPACES_PER_INITIAL_TAB := 4

  datatype Read = Read(line: string, rest: string, more: bool)

  predicate EndsALine(c: char) {
    c == '\r' || c == '\n'
  }

  /** The character that joins `c` to one line end. */
  function Partner(c: char): char {
    if c == '\r' then '\n' else '\r'
  }

  /** What follows the line end at the front of `s`. */
  function AfterEnd(s: string): (r: string)
    requires s != "" && EndsALine(s[0])
    ensures |r| < |s|
  {
    if |s| > 1 && s[1] == Partner(s[0]) then s[2..] else s[1..]
  }

  function Spaces(n: nat): (r: string)
    ensures |r| == n && forall i :: 0 <= i < n ==> r[i] == ' '
  {
    seq(n, _ => ' ')
  }

  function TabWidth(initial: bool, width: nat): nat {
    if initial then SPACES_PER_INITIAL_TAB else width
  }

  /**
   * `line` after a character that ends no line, read with a tab width of `width`.  The program
   * divides by the tab width; `TabsFit` excludes that it is 0 then, and a space stands for that.
   */
  function Push(line: string, initial: bool, c: char, width: nat): string
  {
    if c == '\t' then
      var convert := TabWidth(initial, width);
      if convert == 0 then line + [' '] else line + Spaces(convert - |line| % convert)
    else line + [c]
  }

  predicate StillInitial(initial: bool, c: char) {
    initial && (c == '\t' || c == ' ')
  }

  /** No tab of the line at the front of `s` has a width of 0: with a width of 0, tabs only lead. */
  predicate TabsFit(s: string, initial: bool, width: nat) {
    s == "" || EndsALine(s[0])
    || ((s[0] == '\t' ==> TabWidth(initial, width) > 0) && TabsFit(s[1..], StillInitial(initial, s[0]), width))
  }

  function NextLine(s: string, line: string, initial: bool, width: nat): Read
  {
    if s == "" then Read(line, "", line != "")
    else if EndsALine(s[0]) then Read(line, AfterEnd(s), true)
    else NextLine(s[1..], Push(line, initial, s[0], width), StillInitial(initial, s[0]), width)
  }

  // ---------------------------------------------------------------------------------------
  // One line
  // ---------------------------------------------------------------------------------------

  /** How many characters come before the first line end. */
  function TextLength(s: string): (n: nat)
    ensures n <= |s| && (forall i :: 0 <= i < n ==> !EndsALine(s[i])) && (n < |s| ==> EndsALine(s[n]))
  {
    if s == "" || EndsALine(s[0]) then 0 else 1 + TextLength(s[1..])
  }

  /** The line for the characters of `text`. */
  function Expand(text: string, line: string, initial: bool, width: nat): string
  {
    if text == "" then line
    else Expand(text[1..], Push(line, initial, text[0], width), StillInitial(initial, text[0]), width)
  }

  function LineRest(s: string): (r: string)
    ensures |r| <= |s| && (s != "" ==> |r| < |s|)
  {
    if TextLength(s) == |s| then "" else AfterEnd(s[TextLength(s)..])
  }

  /** The reader returns the text up to the line end, expanded; it answers false only at the end. */
  lemma {:induction false} NextLineReads(s: string, line: string, initial: bool, width: nat)
    ensures NextLine(s, line, initial, width) ==
      Read(Expand(s[..TextLength(s)], line, initial, width), LineRest(s), line != "" || s != "")
  {
    if s != "" && !EndsALine(s[0]) {
      var next := Push(line, initial, s[0], width);
      NextLineReads(s[1..], next, StillInitial(initial, s[0]), width);
      assert s[1..][TextLength(s[1..])..] == s[TextLength(s)..];
      assert s[..TextLength(s)][1..] == s[1..][..TextLength(s[1..])];
    } else if s != "" {
      assert s[0..] == s;
    }
  }

  predicate Clean(line: string) {
    forall i :: 0 <= i < |line| ==> !EndsALine(line[i]) && line[i] != '\t'
  }

  lemma {:induction false} ExpandIsClean(text: string, line: string, initial: bool, width: nat)
    requires Clean(line) && forall i :: 0 <= i < |text| ==> !EndsALine(text[i])
    ensures Clean(Expand(text, line, initial, width))
  {
    if text != "" {
      ExpandIsClean(text[1..], Push(line, initial, text[0], width), StillInitial(initial, text[0]), width);
    }
  }

  lemma {:induction false} CleanIsKept(text: string, line: string, initial: bool, width: nat)
    requires Clean(text)
    ensures Expand(text, line, initial, width) == line + text
  {
    if text == "" {
      assert line + text == line;
    } else {
      CleanIsKept(text[1..], line + [text[0]], StillInitial(initial, text[0]), width);
      assert line + [text[0]] + text[1..] == line + text;
    }
  }

  /** The columns `width` apart, from the first one on. */
  predicate IsStop(column: nat, width: nat)
    requires width > 0
  {
    column == 0 || (column >= width && IsStop(column - width, width))
  }

  /** `to` is the first tab stop after `from`. */
  predicate NextStop(from: nat, to: nat, width: nat)
    requires width > 0
  {
    from < to <= from + width && IsStop(to, width)
  }

  predicate OnlyWhite(text: string) {
    forall i :: 0 <= i < |text| ==> text[i] == ' ' || text[i] == '\t'
  }

  lemma {:induction false} MultiplesAreStops(q: nat, width: nat)
    requires width > 0
    ensures q * width >= 0 && IsStop(q * width, width)
  {
    if q > 0 {
      MultiplesAreStops(q - 1, width);
      assert q * width - width == (q - 1) * width;
    }
  }

  lemma {:induction false} StopIsNext(column: nat, width: nat)
    requires width > 0
    ensures NextStop(column, column + (width - column % width), width)
  {
    var q := column / width;
    assert column + (width - column % width) == (q + 1) * width;
    MultiplesAreStops(q + 1, width);
  }

  lemma {:induction false} ExpandSplits(a: string, b: string, line: string, initial: bool, width: nat)
    ensures Expand(a + b, line, initial, width) ==
      Expand(b, Expand(a, line, initial, width), initial && OnlyWhite(a), width)
  {
    if a == "" {
      assert a + b == b;
    } else {
      assert (a + b)[1..] == a[1..] + b;
      ExpandSplits(a[1..], b, Push(line, initial, a[0], width), StillInitial(initial, a[0]), width);
      assert OnlyWhite(a) <==> (a[0] == ' ' || a[0] == '\t') && OnlyWhite(a[1..]) by {
        if OnlyWhite(a[1..]) && (a[0] == ' ' || a[0] == '\t') {
          forall i | 0 <= i < |a| ensures a[i] == ' ' || a[i] == '\t' {
            assert i > 0 ==> a[1..][i - 1] == a[i];
          }
        }
      }
    }
  }

  /**
   * A tab pads with spaces to the next tab stop: every four columns while the line has only
   * white space, every `width` columns after that.  Any other character takes one column.
   */
  lemma {:induction false} TabsPadToStops(text: string, c: char, width: nat)
    requires c == '\t' ==> TabWidth(OnlyWhite(text), width) > 0
    ensures var before, after := Expand(text, "", true, width), Expand(text + [c], "", true, width);
      && before <= after
      && (c != '\t' ==> after == before + [c])
      && (c == '\t' ==> NextStop(|before|, |after|, TabWidth(OnlyWhite(text), width))
                        && forall k :: |before| <= k < |after| ==> after[k] == ' ')
  {
    ExpandSplits(text, [c], "", true, width);
    var before := Expand(text, "", true, width);
    assert [c][1..] == "";
    assert Expand(text + [c], "", true, width) == Push(before, OnlyWhite(text), c, width);
    if c == '\t' {
      StopIsNext(|before|, TabWidth(OnlyWhite(text), width));
    }
  }

  // ---------------------------------------------------------------------------------------
  // All lines
  // ---------------------------------------------------------------------------------------

  /** What reading until the end collects. */
  function AllLines(s: string, width: nat): seq<string>
    decreases |s|
  {
    if s == "" then []
    else [Expand(s[..TextLength(s)], "", true, width)] + AllLines(LineRest(s), width)
  }

  /** In no line does a tab of width 0 occur. */
  predicate AllTabsFit(s: string, width: nat)
    decreases |s|
  {
    s == "" || (TabsFit(s, true, width) && AllTabsFit(LineRest(s), width))
  }

  /** No tab has a width of 0 if the width is not 0. */
  lemma {:induction false} WideTabsFit(s: string, initial: bool, width: nat)
    requires width > 0
    ensures TabsFit(s, initial, width)
  {
    if s != "" {
      WideTabsFit(s[1..], StillInitial(initial, s[0]), width);
    }
  }

  lemma {:induction false} AllWideTabsFit(s: string, width: nat)
    requires width > 0
    ensures AllTabsFit(s, width)
    decreases |s|
  {
    if s != "" {
      WideTabsFit(s, true, width);
      AllWideTabsFit(LineRest(s), width);
    }
  }

  /** No line has a line end or a tab in it. */
  lemma {:induction false} LinesAreClean(s: string, width: nat)
    ensures forall k :: 0 <= k < |AllLines(s, width)| ==> Clean(AllLines(s, width)[k])
    decreases |s|
  {
    if s != "" {
      ExpandIsClean(s[..TextLength(s)], "", true, width);
      LinesAreClean(LineRest(s), width);
    }
  }

  function Terminated(lines: seq<string>): string {
    if lines == [] then "" else lines[0] + "\n" + Terminated(lines[1..])
  }

  lemma {:induction false} TextLengthIs(s: string, n: nat)
    requires n <= |s| && (forall i :: 0 <= i < n ==> !EndsALine(s[i])) && (n < |s| ==> EndsALine(s[n]))
    ensures TextLength(s) == n
  {
  }

  lemma {:induction false} OneLineMore(line: string, rest: string, width: nat)
    requires Clean(line) && (rest != "" ==> rest[0] != '\r')
    ensures AllLines(line + "\n" + rest, width) == [line] + AllLines(rest, width)
  {
    hide Expand;
    var s := line + "\n" + rest;
    TextLengthIs(s, |line|);
    assert s[..|line|] == line && s[|line|..] == "\n" + rest;
    CleanIsKept(line, "", true, width);
    assert "" + line == line;
    assert ("\n" + rest)[1..] == rest;
    assert LineRest(s) == rest;
  }

  /** Clean lines, each with a line feed after it, are read back as they are. */
  lemma {:induction false} CleanLinesComeBack(lines: seq<string>, width: nat)
    requires forall k :: 0 <= k < |lines| ==> Clean(lines[k])
    ensures AllLines(Terminated(lines), width) == lines
  {
    hide AllLines;
    if lines == [] {
      NothingToRead(width);
    } else {
      CleanLinesComeBack(lines[1..], width);
      OneLineMore(lines[0], Terminated(lines[1..]), width);
      assert [lines[0]] + lines[1..] == lines;
    }
  }

  lemma {:induction false} NothingToRead(width: nat)
    ensures AllLines("", width) == []
  {
  }

  // ---------------------------------------------------------------------------------------
  // Reading in two parts
  // ---------------------------------------------------------------------------------------

  /** The line end that `s` stops with, if one more character could still join it. */
  function Unpaired(s: string): (c: string)
    ensures |c| <= 1 && (c != "" ==> s != "" && EndsALine(c[0]) && s[|s| - 1] == c[0])
    decreases |s|
  {
    if s == "" then ""
    else if LineRest(s) != "" then LineRestIsSuffix(s); Unpaired(LineRest(s))
    else if TextLength(s) + 1 == |s| then [s[TextLength(s)]]
    else ""
  }

  lemma {:induction false} LineRestIsSuffix(s: string)
    ensures LineRest(s) == s[|s| - |LineRest(s)|..]
  {
  }

  /** The length of the alternation of `c` and its partner at the front of `s`. */
  function Alternation(s: string, c: char): nat {
    if s == "" || s[0] != c then 0 else 1 + Alternation(s[1..], Partner(c))
  }

  lemma {:induction false} SameTail(a: seq<string>, x: seq<string>, y: seq<string>)
    ensures a + x == a + y <==> x == y
  {
    assert (a + x)[|a|..] == x && (a + y)[|a|..] == y;
  }

  /** Dropping the first line end matters unless it comes in whole pairs. */
  lemma {:induction false} DroppedEnd(s: string, c: char, width: nat)
    requires s != "" && EndsALine(c) && s[0] == c
    ensures AllLines(s[1..], width) == AllLines(s, width) <==> Alternation(s, c) % 2 == 0
  {
    hide AllLines, AfterEnd;
    EmptyFirstLine(s, width);
    var t := s[1..];
    if t != "" && t[0] == Partner(c) {
      var u := t[1..];
      EmptyFirstLine(t, width);
      assert Alternation(s, c) == 2 + Alternation(u, c);
      if u != "" && u[0] == c {
        DroppedEnd(u, c, width);
        SameTail([""], AllLines(u[1..], width), AllLines(u, width));
      }
    }
  }

  lemma {:induction false} EmptyFirstLine(s: string, width: nat)
    requires s != "" && EndsALine(s[0])
    ensures var rest := s[1..];
      AllLines(s, width) == [""] + AllLines(if rest != "" && rest[0] == Partner(s[0]) then rest[1..] else rest, width)
  {
    var rest := s[1..];
    assert TextLength(s) == 0 && s[0..] == s && s[..0] == "";
    assert |s| > 1 ==> s[2..] == rest[1..];
  }

  lemma {:induction false} LongerText(a: string, b: string)
    ensures TextLength(a) < |a| ==> TextLength(a + b) == TextLength(a)
    ensures TextLength(a) == |a| ==> TextLength(a + b) == |a| + TextLength(b)
  {
    var s := a + b;
    if TextLength(a) < |a| {
      TextLengthIs(s, TextLength(a));
    } else {
      TextLengthIs(s, |a| + TextLength(b));
    }
  }

  /** What is left of `b` when `a` has taken the other half of its last line end. */
  function LeftOf(a: string, b: string): string {
    if Unpaired(a) != "" && b != "" && b[0] == Partner(Unpaired(a)[0]) then b[1..] else b
  }

  lemma {:induction false} RestOfBoth(a: string, b: string)
    requires TextLength(a) < |a|
    ensures LineRest(a) != "" ==> LineRest(a + b) == LineRest(a) + b
    ensures LineRest(a) == "" ==> LineRest(a + b) == LeftOf(a, b)
  {
    LongerText(a, b);
    var n := TextLength(a);
    var ends, both := a[n..], (a + b)[n..];
    assert both == ends + b;
    if |ends| == 1 {
      assert both[1..] == b;
      assert b != "" ==> both[2..] == b[1..];
    } else if ends[1] == Partner(ends[0]) {
      assert both[2..] == ends[2..] + b;
      assert |ends| == 2 ==> ends[2..] + b == b;
    } else {
      assert both[1..] == ends[1..] + b;
    }
  }

  lemma {:induction false} FirstLineOfBoth(a: string, b: string, width: nat)
    requires TextLength(a) < |a|
    ensures AllLines(a + b, width) == [Expand(a[..TextLength(a)], "", true, width)] + AllLines(LineRest(a + b), width)
  {
    LongerText(a, b);
    assert (a + b)[..TextLength(a)] == a[..TextLength(a)];
  }

  predicate AtLineEnd(s: string) {
    s != "" && EndsALine(s[|s| - 1])
  }

  lemma {:induction false} LeftOfRest(a: string, b: string)
    requires AtLineEnd(a)
    ensures TextLength(a) < |a|
    ensures LineRest(a) != "" ==> LeftOf(a, b) == LeftOf(LineRest(a), b) && AtLineEnd(LineRest(a))
  {
    LineRestIsSuffix(a);
  }

  /** After a line end the lines of `b` follow, but for a half line end that `a` has taken. */
  lemma {:induction false} ClosedParts(a: string, b: string, width: nat)
    requires AtLineEnd(a)
    ensures AllLines(a + b, width) == AllLines(a, width) + AllLines(LeftOf(a, b), width)
    decreases |a|
  {
    hide Expand, TextLength, LineRest, LeftOf, Unpaired;
    LeftOfRest(a, b);
    var first := Expand(a[..TextLength(a)], "", true, width);
    FirstLineOfBoth(a, b, width);
    RestOfBoth(a, b);
    var rest := LineRest(a);
    if rest == "" {
      assert AllLines(a, width) == [first] + [];
    } else {
      ClosedParts(rest, b, width);
      Regroup([first], AllLines(rest, width), AllLines(LeftOf(a, b), width));
    }
  }

  /** Inside a line, two of the lines read separately are one. */
  lemma {:induction false} OpenParts(a: string, b: string, width: nat)
    requires a != "" && !AtLineEnd(a) && b != ""
    ensures |AllLines(a + b, width)| == |AllLines(a, width)| + |AllLines(b, width)| - 1
    decreases |a|
  {
    hide Expand, AfterEnd;
    if TextLength(a) == |a| {
      LongerText(a, b);
      assert LineRest(a) == "" && (a + b)[TextLength(a + b)..] == b[TextLength(b)..];
      assert LineRest(a + b) == LineRest(b);
    } else {
      FirstLineOfBoth(a, b, width);
      RestOfBoth(a, b);
      LineRestIsSuffix(a);
      LastLineIsOpen(a);
      OpenParts(LineRest(a), b, width);
    }
  }

  lemma {:induction false} LastLineIsOpen(a: string)
    requires a != "" && !AtLineEnd(a)
    ensures TextLength(a) < |a| ==> LineRest(a) != ""
  {
  }

  /**
   * Reading `a` and then `b` gives the lines of `a + b` if and only if one of them is empty, or
   * `a` stops at a line end and does not tear line ends apart: where its last one could still
   * be joined by another character, the alternation of the two at the front of `b` must consist
   * of whole pairs.
   */
  lemma {:induction false} ComposesExactly(a: string, b: string, width: nat)
    ensures AllLines(a + b, width) == AllLines(a, width) + AllLines(b, width) <==>
            || a == "" || b == ""
            || (AtLineEnd(a) && (Unpaired(a) == "" || Alternation(b, Partner(Unpaired(a)[0])) % 2 == 0))
  {
    hide AllLines, LineRest, TextLength, Expand;
    NothingToRead(width);
    if a == "" {
      assert a + b == b && [] + AllLines(b, width) == AllLines(b, width);
    } else if b == "" {
      assert a + b == a && AllLines(a, width) + [] == AllLines(a, width);
    } else if !AtLineEnd(a) {
      OpenParts(a, b, width);
    } else {
      ClosedParts(a, b, width);
      if LeftOf(a, b) != b {
        DroppedEnd(b, Partner(Unpaired(a)[0]), width);
        SameTail(AllLines(a, width), AllLines(b[1..], width), AllLines(b, width));
      }
    }
  }

  // ---------------------------------------------------------------------------------------
  // Line ends
  // ---------------------------------------------------------------------------------------

  /** Each of these ends one line; of the shorter ones, a partner behind it is a part. */
  lemma {:induction false} LineEndIs(text: string, end: string, rest: string)
    requires forall i :: 0 <= i < |text| ==> text[i] != '\r' && text[i] != '\n'
    requires end == "\r\n" || end == "\n\r" || (end == "\r" && !("\n" <= rest)) || (end == "\n" && !("\r" <= rest))
    ensures var s := text + (end + rest); s[..TextLength(s)] == text && LineRest(s) == rest
  {
    hide TextLength;
    var s := text + (end + rest);
    var u := end + rest;
    assert s[|text|] == u[0] == end[0] && forall i :: 0 <= i < |text| ==> s[i] == text[i];
    assert TextLength(s) == |text|;
    assert s[|text|..] == u && u[|end|..] == rest;
    assert |u| > 1 ==> u[1] == if |end| > 1 then end[1] else rest[0];
  }

  /** A tab in front of a line goes to the next multiple of four, a later one to that of the width. */
  lemma {:induction false} TabIs(line: string, width: nat)
    ensures Push(line, true, '\t', width) == line + seq(4 - |line| % 4, _ => ' ')
    ensures width > 0 ==> Push(line, false, '\t', width) == line + seq(width - |line| % width, _ => ' ')
  {
  }
}
