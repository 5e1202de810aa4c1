/**
 * What the regular expressions of the block parsers match, as predicates and functions on lines.
 */
module BlockLines {
  import opened Options

  function LeadingSpaces(s: string): (n: nat)
    ensures n <= |s| && (forall i :: 0 <= i < n ==> s[i] == ' ') && (n < |s| ==> s[n] != ' ')
  {
    if s == "" || s[0] != ' ' then 0 else 1 + LeadingSpaces(s[1..])
  }

  predicate AllSpaces(s: string) {
    LeadingSpaces(s) == |s|
  }

  function DropTrailing(s: string, c: char): (r: string)
    ensures |r| <= |s| && r == s[..|r|] && (r != "" ==> r[|r| - 1] != c)
    ensures forall i :: |r| <= i < |s| ==> s[i] == c
  {
    if s != "" && s[|s| - 1] == c then DropTrailing(s[..|s| - 1], c) else s
  }

  predicate EndsWith(s: string, t: string) {
    |t| <= |s| && s[|s| - |t|..] == t
  }

  /** ` {0,3}(<--(.*)-- *> *)* *`: spaces, or what the program takes for a comment. */
  predicate IsBlankLine(s: string) {
    var n := LeadingSpaces(s);
    || n == |s|
    || (n <= 3 && n + 3 <= |s| && s[n..n + 3] == "<--"
        && var body := DropTrailing(s[n + 3..], ' ');
           EndsWith(body, ">") && EndsWith(DropTrailing(body[..|body| - 1], ' '), "--"))
  }

  function Drop(s: string, n: nat): (r: string)
    requires n <= LeadingSpaces(s)
    ensures |r| == |s| - n
  {
    s[n..]
  }

  // ---------------------------------------------------------------------------------------
  // Code lines and quote prefixes
  // ---------------------------------------------------------------------------------------

  /** At least `n` spaces: what follows the first `n`. */
  function AfterSpaces(s: string, n: nat): (r: Option<string>)
    ensures r.Some? ==> |r.value| == |s| - n
  {
    if LeadingSpaces(s) >= n then Some(Drop(s, n)) else None
  }

  /** One quote mark after at most three spaces: what follows it. */
  function AfterQuoteMark(s: string): (r: Option<string>)
    ensures r.Some? ==> |r.value| < |s|
  {
    var n := LeadingSpaces(s);
    if n <= 3 && n < |s| && s[n] == '>' then Some(s[n + 1..]) else None
  }

  datatype QuoteStart = QuoteStart(level: nat, content: string)

  /** `^((?: {0,3}>)+) (.*)$`: as many marks as possible such that a space follows. */
  function MatchQuote(s: string): (r: Option<QuoteStart>)
    ensures r.Some? ==> r.value.level >= 1 && |r.value.content| < |s|
    decreases |s|
  {
    var rest := AfterQuoteMark(s);
    if rest.None? then None
    else
      var deeper := MatchQuote(rest.value);
      if deeper.Some? then Some(QuoteStart(deeper.value.level + 1, deeper.value.content))
      else if rest.value != "" && rest.value[0] == ' ' then Some(QuoteStart(1, rest.value[1..]))
      else None
  }

  /** `^((?: {0,3}>){level}) ?(.*)$` */
  function MatchContinuation(s: string, level: nat): (r: Option<string>)
    ensures r.Some? ==> |r.value| + level <= |s|
  {
    if level == 0 then Some(if s != "" && s[0] == ' ' then s[1..] else s)
    else
      var rest := AfterQuoteMark(s);
      if rest.None? then None else MatchContinuation(rest.value, level - 1)
  }

  /** What follows `level` quote marks. */
  function AfterMarks(s: string, level: nat): Option<string> {
    if level == 0 then Some(s)
    else
      var rest := AfterQuoteMark(s);
      if rest.None? then None else AfterMarks(rest.value, level - 1)
  }

  predicate SpaceAfterMarks(s: string, level: nat) {
    AfterMarks(s, level).Some? && " " <= AfterMarks(s, level).value
  }

  /** The first line of a quote matches the expression built from its own level, with the same content. */
  lemma {:induction false} StartIsContinuation(s: string)
    requires MatchQuote(s).Some?
    ensures var q := MatchQuote(s).value;
      SpaceAfterMarks(s, q.level) && MatchContinuation(s, q.level) == Some(q.content)
    decreases |s|
  {
    hide AfterQuoteMark;
    var rest := AfterQuoteMark(s).value;
    if MatchQuote(rest).Some? {
      StartIsContinuation(rest);
    } else {
      assert AfterMarks(rest, 0) == Some(rest);
    }
  }

  /** A line that has some marks and then a space starts a quote, of the largest such level. */
  lemma {:induction false} LevelIsLargest(s: string, level: nat)
    requires level > 0 && SpaceAfterMarks(s, level)
    ensures MatchQuote(s).Some? && level <= MatchQuote(s).value.level
  {
    var rest := AfterQuoteMark(s).value;
    if level > 1 {
      LevelIsLargest(rest, level - 1);
    } else {
      assert AfterMarks(rest, 0) == Some(rest) && rest[0] == ' ';
    }
  }

  // ---------------------------------------------------------------------------------------
  // List lines
  // ---------------------------------------------------------------------------------------

  predicate IsBullet(c: char) {
    c == '*' || c == '+' || c == '-'
  }

  predicate IsDigit(c: char) {
    '0' <= c <= '9'
  }

  function DigitRun(s: string): (n: nat)
    ensures n <= |s| && (forall i :: 0 <= i < n ==> IsDigit(s[i])) && (n < |s| ==> !IsDigit(s[n]))
  {
    if s == "" || !IsDigit(s[0]) then 0 else 1 + DigitRun(s[1..])
  }

  /** ` +([^*-].*)$`: the spaces give one back when the text after them would not do. */
  function BulletContent(s: string): (r: Option<string>)
    ensures r.Some? ==> 0 < |r.value| < |s|
  {
    var k := LeadingSpaces(s);
    if k >= 1 && k < |s| && s[k] != '*' && s[k] != '-' then Some(Drop(s, k))
    else if k >= 2 then Some(Drop(s, k - 1))
    else None
  }

  /** ` +(.*)$` */
  function NumberContent(s: string): (r: Option<string>)
    ensures r.Some? ==> |r.value| < |s|
  {
    var k := LeadingSpaces(s);
    if k >= 1 then Some(Drop(s, k)) else None
  }

  datatype ListKind = Bullets(mark: char) | Numbers

  datatype ListStart = ListStart(indent: nat, kind: ListKind, content: string)

  /** The line `s` as an item after `n` leading spaces, if it is one of this kind. */
  function MatchItem(s: string, n: nat, kind: ListKind): (r: Option<string>)
    ensures r.Some? ==> LeadingSpaces(s) == n && |r.value| + 2 <= |s|
  {
    if LeadingSpaces(s) != n || n == |s| then None
    else match kind
      case Bullets(mark) => if s[n] == mark && IsBullet(mark) then BulletContent(s[n + 1..]) else None
      case Numbers =>
        var d := DigitRun(s[n..]);
        if d >= 1 && n + d < |s| && s[n + d] == '.' then NumberContent(s[n + d + 1..]) else None
  }

  /** The unordered and the ordered list expression, in this order. */
  function MatchList(s: string): (r: Option<ListStart>)
    ensures r.Some? ==> MatchItem(s, r.value.indent, r.value.kind) == Some(r.value.content)
  {
    var n := LeadingSpaces(s);
    if n == |s| then None
    else if MatchItem(s, n, Bullets(s[n])).Some? then
      Some(ListStart(n, Bullets(s[n]), MatchItem(s, n, Bullets(s[n])).value))
    else if MatchItem(s, n, Numbers).Some? then Some(ListStart(n, Numbers, MatchItem(s, n, Numbers).value))
    else None
  }

  /** The expression for the start of a sub-list: deeper than `indent`, a marker, a space. */
  predicate StartsSublist(s: string, indent: nat) {
    var n := LeadingSpaces(s);
    && indent < n < |s|
    && (|| (IsBullet(s[n]) && LeadingSpaces(s[n + 1..]) >= 1)
        || (var d := DigitRun(s[n..]);
            d >= 1 && n + d < |s| && s[n + d] == '.' && LeadingSpaces(s[n + d + 1..]) >= 1))
  }

  // ---------------------------------------------------------------------------------------
  // Headers and rules
  // ---------------------------------------------------------------------------------------

  function HashRun(s: string): (n: nat)
    ensures n <= |s| && (forall i :: 0 <= i < n ==> s[i] == '#') && (n < |s| ==> s[n] != '#')
  {
    if s == "" || s[0] != '#' then 0 else 1 + HashRun(s[1..])
  }

  datatype Heading = Heading(level: nat, text: string)

  /** `^(#{1,6}) +(.*?) *#*$` */
  function MatchHash(s: string): (r: Option<Heading>) {
    var n := HashRun(s);
    var k := LeadingSpaces(s[n..]);
    if 1 <= n <= 6 && k >= 1 then Some(Heading(n, DropTrailing(DropTrailing(s[n + k..], '#'), ' '))) else None
  }

  /** `^([-=])\1*$` */
  predicate IsUnderline(s: string) {
    s != "" && (s[0] == '-' || s[0] == '=') && forall i :: 0 <= i < |s| ==> s[i] == s[0]
  }

  predicate IsRuleMark(c: char) {
    c == '-' || c == '*' || c == '_'
  }

  function RuleMarks(s: string): nat {
    if s == "" then 0 else (if IsRuleMark(s[0]) then 1 else 0) + RuleMarks(s[1..])
  }

  /** `^ {0,3}((?:-|\*|_) *){3,}$` */
  predicate IsRule(s: string) {
    && LeadingSpaces(s) <= 3
    && (forall i :: 0 <= i < |s| ==> s[i] == ' ' || IsRuleMark(s[i]))
    && RuleMarks(s) >= 3
  }
}
