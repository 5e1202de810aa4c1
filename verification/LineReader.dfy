/** The document as it is read: one token for each line of the stream. */
module LineReader {
  import opened BlockLines
  import opened Blocks
  import opened Lines
  import opened Streams

  /** The token for a line. */
  function LineToken(line: string): Tok {
    if IsBlankLine(line) then Blank(line) else Raw(line)
  }

  function LineTokens(lines: seq<string>): (r: seq<Tok>)
    ensures |r| == |lines| && forall k :: 0 <= k < |r| ==> r[k] == LineToken(lines[k])
  {
    seq(|lines|, k requires 0 <= k < |lines| => LineToken(lines[k]))
  }

  /** One call of the line reader, in terms of all the lines to come. */
  lemma {:induction false} ReadsOneLine(s: string, width: nat)
    ensures var r := NextLine(s, "", true, width);
      && r.more == (s != "")
      && (r.more ==> |r.rest| < |s| && AllLines(s, width) == [r.line] + AllLines(r.rest, width))
      && (!r.more ==> r.rest == "" && AllLines(s, width) == [])
      && (AllTabsFit(s, width) ==> TabsFit(s, true, width) && AllTabsFit(r.rest, width))
  {
    hide Expand;
    NextLineReads(s, "", true, width);
  }

  lemma {:induction false} Shift(done: seq<string>, line: string, rest: seq<string>)
    ensures done + ([line] + rest) == done + [line] + rest
    ensures LineTokens(done + [line]) == LineTokens(done) + [LineToken(line)]
  {
    hide LineToken;
  }

  lemma {:induction false} NextStep(c: char, rest: string, line: string, initial: bool, width: nat)
    ensures NextLine([c] + rest, line, initial, width) ==
      if EndsALine(c) then Read(line, AfterEnd([c] + rest), true)
      else NextLine(rest, Push(line, initial, c, width), StillInitial(initial, c), width)
    ensures TabsFit([c] + rest, initial, width) && !EndsALine(c) ==>
      (c == '\t' ==> TabWidth(initial, width) > 0) && TabsFit(rest, StillInitial(initial, c), width)
  {
    assert ([c] + rest)[1..] == rest;
  }

  lemma {:induction false} EndOf(c: char, rest: string)
    requires EndsALine(c)
    ensures AfterEnd([c] + rest) == if rest != "" && rest[0] == Partner(c) then rest[1..] else rest
  {
  }

  lemma {:induction false} AtTheEnd(line: string, initial: bool, width: nat)
    ensures NextLine("", line, initial, width) == Read(line, "", line != "")
  {
  }

  class Document {
    const spacesPerTab: nat
    var tokens: seq<Tok>
    var processed: bool

    constructor (spacesPerTab: nat)
      ensures this.spacesPerTab == spacesPerTab && tokens == [] && !processed
    {
      this.spacesPerTab, tokens, processed := spacesPerTab, [], false;
    }

    method GetLine(input: InputStream) returns (line: string, more: bool)
      requires input.Valid() && TabsFit(input.Rest(), true, spacesPerTab)
      modifies input
      ensures input.Valid()
      ensures NextLine(old(input.Rest()), "", true, spacesPerTab) == Read(line, input.Rest(), more)
    {
      hide NextLine, AfterEnd, Spaces, TabsFit;
      ghost var target := NextLine(input.Rest(), "", true, spacesPerTab);
      line := "";
      var initialWhitespace := true;
      var c := input.Get();
      while input.Good()
        invariant input.Valid()
        invariant input.Good() ==>
                    && input.pos > 0 && TabsFit([c] + input.Rest(), initialWhitespace, spacesPerTab)
                    && target == NextLine([c] + input.Rest(), line, initialWhitespace, spacesPerTab)
        invariant !input.Good() ==>
                    input.Rest() == "" && target == NextLine("", line, initialWhitespace, spacesPerTab)
        decreases |input.Rest()| + if input.Good() then 1 else 0
      {
        ghost var rest := input.Rest();
        NextStep(c, rest, line, initialWhitespace, spacesPerTab);
        if c == '\r' || c == '\n' {
          EndOf(c, rest);
          var next := input.Get();
          if input.Good() && next != Partner(c) {
            input.Unget();
          }
          assert rest != "" ==> rest == [rest[0]] + rest[1..];
          return line, true;
        }
        if c == '\t' {
          var convert := if initialWhitespace then SPACES_PER_INITIAL_TAB else spacesPerTab;
          line := line + Spaces(convert - |line| % convert);
        } else {
          line := line + [c];
          if c != ' ' {
            initialWhitespace := false;
          }
        }
        c := input.Get();
      }
      AtTheEnd(line, initialWhitespace, spacesPerTab);
      more := line != "";
    }

    /** Appends a token for every line to come, unless the document has been processed. */
    method ReadFrom(input: InputStream) returns (ok: bool)
      requires input.Valid() && (!processed ==> AllTabsFit(input.Rest(), spacesPerTab))
      modifies this, input
      ensures input.Valid() && processed == old(processed) && ok == !processed
      ensures processed ==> tokens == old(tokens) && input.Rest() == old(input.Rest())
      ensures !processed ==>
                tokens == old(tokens) + LineTokens(AllLines(old(input.Rest()), spacesPerTab)) && input.Rest() == ""
    {
      hide NextLine, AllLines, LineToken, LineTokens, AllTabsFit, TabsFit;
      if processed {
        return false;
      }
      ghost var text, lines: seq<string> := input.Rest(), [];
      var tgt := [];
      ReadsOneLine(text, spacesPerTab);
      var line, more := GetLine(input);
      while more
        invariant input.Valid() && !processed && tokens == old(tokens) && tgt == LineTokens(lines)
        invariant AllTabsFit(input.Rest(), spacesPerTab)
        invariant more ==> AllLines(text, spacesPerTab) == lines + ([line] + AllLines(input.Rest(), spacesPerTab))
        invariant !more ==> input.Rest() == "" && AllLines(text, spacesPerTab) == lines
        decreases |input.Rest()| + if more then 1 else 0
      {
        ReadsOneLine(input.Rest(), spacesPerTab);
        Shift(lines, line, AllLines(input.Rest(), spacesPerTab));
        tgt := tgt + [LineToken(line)];
        lines := lines + [line];
        line, more := GetLine(input);
      }
      tokens := tokens + tgt;
      ok := true;
    }
  }
}
