/**
 * The unmatching pass of `_processBoldAndItalicSpans` and the HTML that comes out of it.
 *
 * The program walks the list with a stack of open markers.  The main result is what this
 * means: a pair survives exactly when no other pair opens inside it and closes after it.
 * The surviving pairs therefore never cross, and the tags they write form a nested word.
 */
module EmphasisNesting {
  import opened EmphasisSpec
  import opened EmphasisTermination

  // ---------------------------------------------------------------------------------------
  // The stack machine
  // ---------------------------------------------------------------------------------------

  /** `stack` holds positions of open markers, the top last; `k` is the list iterator. */
  datatype Nest = Nest(list: seq<Node>, stack: seq<nat>, k: nat)

  predicate InRange(s: Nest) {
    s.k <= |s.list| && forall i :: 0 <= i < |s.stack| ==> s.stack[i] < |s.list| && s.list[s.stack[i]].Marker?
  }

  /** The one call of `top()` that could find an empty stack. */
  predicate TopExists(s: Nest) {
    s.k < |s.list| && MatchedClose(s.list[s.k]) ==> s.stack != []
  }

  /** Unlinks the two markers that carry `id`. */
  function Clear(l: seq<Node>, id: int): (r: seq<Node>) {
    seq(|l|, i requires 0 <= i < |l| =>
      if l[i].Marker? && l[i].id == id then l[i].(id := -1) else l[i])
  }

  function PopUnmatched(l: seq<Node>, stack: seq<nat>): (r: seq<nat>)
    requires InRange(Nest(l, stack, 0))
    ensures |r| <= |stack| && r == stack[..|r|]
    ensures r != [] ==> l[r[|r| - 1]].id >= 0
    ensures forall i :: |r| <= i < |stack| ==> l[stack[i]].id < 0
  {
    if stack != [] && l[stack[|stack| - 1]].id < 0 then PopUnmatched(l, stack[..|stack| - 1]) else stack
  }

  function NestStep(s: Nest): Nest
    requires InRange(s) && TopExists(s) && s.k < |s.list|
  {
    var l, stack := s.list, s.stack;
    if MatchedOpen(l[s.k]) then Nest(l, stack + [s.k], s.k + 1)
    else if MatchedClose(l[s.k]) then
      if l[s.k].id != l[stack[|stack| - 1]].id then Nest(Clear(l, l[s.k].id), stack, s.k + 1)
      else Nest(l, PopUnmatched(l, stack[..|stack| - 1]), s.k + 1)
    else Nest(l, stack, s.k + 1)
  }

  // ---------------------------------------------------------------------------------------
  // What it computes
  // ---------------------------------------------------------------------------------------

  /** Some pair opens inside the pair `o`, `c` and closes after it. */
  ghost predicate Crossed(l: seq<Node>, o: int, c: int) {
    exists o', c' :: Pair(l, o', c') && o < o' < c < c'
  }

  /** The pair with this id is crossed, and its closer stands before position `k`. */
  ghost predicate Dropped(l: seq<Node>, id: int, k: nat) {
    exists o, c :: Pair(l, o, c) && l[o].id == id && c < k && Crossed(l, o, c)
  }

  /** `l` without the links of the crossed pairs that close before `k`. */
  ghost function KeepUncrossed(l: seq<Node>, k: nat): (r: seq<Node>)
    ensures |r| == |l|
  {
    seq(|l|, i requires 0 <= i < |l| =>
      if l[i].Marker? && Dropped(l, l[i].id, k) then l[i].(id := -1) else l[i])
  }

  /** What the stack holds before position `k`: openers in order, all those still open among them. */
  ghost predicate StackInv(l: seq<Node>, stack: seq<nat>, k: nat)
    requires k <= |l|
  {
    && (forall i :: 0 <= i < |stack| ==> stack[i] < k && MatchedOpen(l[stack[i]]))
    && (forall i, j :: 0 <= i < j < |stack| ==> stack[i] < stack[j])
    && (forall o, c :: Pair(l, o, c) && o < k <= c ==> o in stack)
    && (forall o, c :: Pair(l, o, c) && o in stack && c < k ==> Crossed(l, o, c))
  }

  ghost predicate NestInv(l: seq<Node>, s: Nest) {
    && s.k <= |l|
    && s.list == KeepUncrossed(l, s.k)
    && StackInv(l, s.stack, s.k)
    && (s.stack != [] ==> s.list[s.stack[|s.stack| - 1]].id >= 0)
  }

  lemma {:induction false} IdsOfPairs(l: seq<Node>, next: nat, o: int, c: int, o': int, c': int)
    requires Linked(l, next) && Pair(l, o, c) && Pair(l, o', c') && l[o].id == l[o'].id
    ensures o == o' && c == c'
  {
    if o != o' {
      assert Mates(l, if o < o' then o else o', if o < o' then o' else o);
    }
    if c != c' {
      assert Mates(l, if c < c' then c else c', if c < c' then c' else c);
    }
  }

  lemma {:induction false} PairOfOpener(l: seq<Node>, next: nat, o: nat) returns (c: nat)
    requires Linked(l, next) && o < |l| && MatchedOpen(l[o])
    ensures Pair(l, o, c)
  {
    assert HasMate(l, o);
    c :| Mates(l, o, c);
    if c < o {
      assert Mates(l, c, o);
    }
  }

  lemma {:induction false} PairOfCloser(l: seq<Node>, next: nat, c: nat) returns (o: nat)
    requires Linked(l, next) && c < |l| && MatchedClose(l[c])
    ensures Pair(l, o, c)
  {
    assert HasMate(l, c);
    o :| Mates(l, c, o);
    assert Mates(l, o, c);
  }

  /** A pair is intact before its closer has been seen, and afterwards when it is not crossed. */
  lemma {:induction false} LinkOfPair(l: seq<Node>, next: nat, k: nat, o: int, c: int)
    requires Linked(l, next) && Pair(l, o, c)
    ensures var r := KeepUncrossed(l, k);
      if c < k && Crossed(l, o, c) then r[o] == l[o].(id := -1) && r[c] == l[c].(id := -1)
      else r[o] == l[o] && r[c] == l[c]
  {
    if Dropped(l, l[o].id, k) {
      var o', c' :| Pair(l, o', c') && l[o'].id == l[o].id && c' < k && Crossed(l, o', c');
      IdsOfPairs(l, next, o, c, o', c');
    }
  }

  /** The pair that closes at `k` is crossed. */
  ghost predicate CrossedHere(l: seq<Node>, k: int) {
    exists o :: Pair(l, o, k) && Crossed(l, o, k)
  }

  lemma {:induction false} CloserIsMatched(l: seq<Node>, k: nat)
    requires CrossedHere(l, k)
    ensures k < |l| && l[k].Marker? && l[k].id >= 0
  {
  }

  lemma {:induction false} DroppedNext(l: seq<Node>, next: nat, k: nat, id: int)
    requires Linked(l, next) && k < |l|
    ensures Dropped(l, id, k + 1) <==> Dropped(l, id, k) || (CrossedHere(l, k) && id == l[k].id)
  {
    hide Crossed;
    if CrossedHere(l, k) && id == l[k].id {
      var o :| Pair(l, o, k) && Crossed(l, o, k);
      assert Pair(l, o, k) && l[o].id == id;
    }
  }

  /** Moving past position `k` unlinks the pair that closes there if it is crossed, and no other. */
  lemma {:induction false} KeepNext(l: seq<Node>, next: nat, k: nat)
    requires Linked(l, next) && k < |l|
    ensures CrossedHere(l, k) ==> KeepUncrossed(l, k + 1) == Clear(KeepUncrossed(l, k), l[k].id)
    ensures !CrossedHere(l, k) ==> KeepUncrossed(l, k + 1) == KeepUncrossed(l, k)
  {
    hide Crossed, Dropped, CrossedHere;
    if CrossedHere(l, k) {
      CloserIsMatched(l, k);
    }
    forall i | 0 <= i < |l| && l[i].Marker?
      ensures Dropped(l, l[i].id, k + 1) <==> Dropped(l, l[i].id, k) || (CrossedHere(l, k) && l[i].id == l[k].id)
    {
      DroppedNext(l, next, k, l[i].id);
    }
  }

  /** The top of the stack is the last opener whose closer is still to come. */
  lemma {:induction false} TopOpensLast(l: seq<Node>, next: nat, s: Nest, o: int, c: int)
    requires Linked(l, next) && NestInv(l, s) && Pair(l, o, c) && o < s.k <= c
    ensures s.stack != []
    ensures var t := s.stack[|s.stack| - 1];
      o <= t && exists e :: Pair(l, t, e) && s.k <= e
  {
    var t := s.stack[|s.stack| - 1];
    var e := PairOfOpener(l, next, t);
    LinkOfPair(l, next, s.k, t, e);
    assert Pair(l, t, e) && s.k <= e;
  }

  /** At the closer at `k`, the top of the stack is its opener exactly if the pair is not crossed. */
  lemma {:induction false} TopDecides(l: seq<Node>, next: nat, s: Nest, o: int)
    requires Linked(l, next) && NestInv(l, s) && Pair(l, o, s.k)
    ensures s.stack != []
    ensures s.stack[|s.stack| - 1] == o <==> !Crossed(l, o, s.k)
  {
    TopOpensLast(l, next, s, o, s.k);
    var t := s.stack[|s.stack| - 1];
    if t != o {
      var e :| Pair(l, t, e) && s.k <= e;
      assert e != s.k by {
        if e == s.k { IdsOfPairs(l, next, o, s.k, t, e); }
      }
      assert Crossed(l, o, s.k);
    } else if Crossed(l, o, s.k) {
      var o', c' :| Pair(l, o', c') && o < o' < s.k < c';
      TopOpensLast(l, next, s, o', c');
      assert false;
    }
  }

  lemma {:induction false} NestStepKeeps(l: seq<Node>, next: nat, s: Nest)
    requires Linked(l, next) && NestInv(l, s) && s.k < |l|
    ensures InRange(s) && TopExists(s) && NestInv(l, NestStep(s)) && NestStep(s).k == s.k + 1
  {
    hide Crossed;
    if MatchedClose(s.list[s.k]) {
      var o := PairOfCloser(l, next, s.k);
      LinkOfPair(l, next, s.k, o, s.k);
      TopDecides(l, next, s, o);
      if Crossed(l, o, s.k) {
        DropStep(l, next, s, o);
      } else {
        PopStep(l, next, s, o);
      }
    } else if MatchedOpen(s.list[s.k]) {
      PushStep(l, next, s);
    } else {
      SkipStep(l, next, s);
    }
  }

  lemma {:induction false} StackPush(l: seq<Node>, stack: seq<nat>, k: nat)
    requires k < |l| && StackInv(l, stack, k) && MatchedOpen(l[k]) && forall o :: !Pair(l, o, k)
    ensures StackInv(l, stack + [k], k + 1)
  {
    hide Crossed;
    var r := stack + [k];
    assert r[|stack|] == k;
    forall o, c | Pair(l, o, c) && o < k + 1 <= c ensures o in r {
      assert o < k ==> o in stack;
    }
  }

  /** No pair opens at `k`, and one that closes there is crossed. */
  lemma {:induction false} StackStays(l: seq<Node>, stack: seq<nat>, k: nat)
    requires k < |l| && StackInv(l, stack, k)
    requires forall o, c :: Pair(l, o, c) ==> o != k && (c == k ==> Crossed(l, o, c))
    ensures StackInv(l, stack, k + 1)
  {
    hide Crossed;
  }

  /** The top `o` is closed at `k`; with it go openers that have been unlinked. */
  lemma {:induction false} StackPop(l: seq<Node>, stack: seq<nat>, k: nat, o: int, rest: seq<nat>)
    requires k < |l| && StackInv(l, stack, k) && stack != [] && stack[|stack| - 1] == o
    requires forall o', c :: Pair(l, o', c) ==> o' != k && (c == k ==> o' == o)
    requires |rest| < |stack| && rest == stack[..|rest|]
    requires forall p, c :: Pair(l, p, c) && p < k + 1 <= c ==> p in rest
    ensures StackInv(l, rest, k + 1)
  {
    hide Crossed;
    forall p, c | Pair(l, p, c) && p in rest && c < k + 1 ensures Crossed(l, p, c) {
      var i :| 0 <= i < |rest| && rest[i] == p;
      assert stack[i] == p && p != o;
    }
  }

  lemma {:induction false} ClosesNone(l: seq<Node>, next: nat, k: nat)
    requires Linked(l, next) && k < |l| && !MatchedClose(l[k])
    ensures forall o :: !Pair(l, o, k)
  {
  }

  lemma {:induction false} PushStep(l: seq<Node>, next: nat, s: Nest)
    requires Linked(l, next) && NestInv(l, s) && s.k < |l| && MatchedOpen(s.list[s.k])
    requires InRange(s)
    ensures NestInv(l, NestStep(s))
  {
    hide Crossed, Linked, StackInv, Dropped;
    KeepNext(l, next, s.k);
    ClosesNone(l, next, s.k);
    StackPush(l, s.stack, s.k);
  }

  lemma {:induction false} SkipStep(l: seq<Node>, next: nat, s: Nest)
    requires Linked(l, next) && NestInv(l, s) && s.k < |l|
    requires !MatchedOpen(s.list[s.k]) && !MatchedClose(s.list[s.k])
    requires InRange(s)
    ensures NestInv(l, NestStep(s))
  {
    hide Crossed, KeepUncrossed, StackInv, Linked;
    KeepNext(l, next, s.k);
    forall o, c | Pair(l, o, c) && (o == s.k || c == s.k) ensures false {
      LinkOfPair(l, next, s.k, o, c);
    }
    StackStays(l, s.stack, s.k);
  }

  /** The closer at `k` belongs to one pair only, and opens none. */
  lemma {:induction false} OnePairAt(l: seq<Node>, next: nat, o: int, k: int)
    requires Linked(l, next) && Pair(l, o, k)
    ensures forall o' :: Pair(l, o', k) ==> o' == o
    ensures forall c' :: !Pair(l, k, c')
    ensures forall c' :: Pair(l, o, c') ==> c' == k
    ensures CrossedHere(l, k) <==> Crossed(l, o, k)
  {
    hide Crossed;
    forall o' | Pair(l, o', k) ensures o' == o {
      IdsOfPairs(l, next, o, k, o', k);
    }
    forall c' | Pair(l, o, c') ensures c' == k {
      IdsOfPairs(l, next, o, k, o, c');
    }
    assert !l[k].open;
  }

  lemma {:induction false} DropStep(l: seq<Node>, next: nat, s: Nest, o: int)
    requires Linked(l, next) && NestInv(l, s) && s.k < |l| && InRange(s) && s.stack != []
    requires Pair(l, o, s.k) && Crossed(l, o, s.k) && MatchedClose(s.list[s.k]) && s.list[s.k] == l[s.k]
    requires s.stack[|s.stack| - 1] != o
    ensures NestInv(l, NestStep(s))
  {
    hide Crossed, KeepUncrossed, CrossedHere, StackInv, Linked;
    var t := s.stack[|s.stack| - 1];
    TopKeepsLink(l, next, s, o);
    OnePairAt(l, next, o, s.k);
    KeepNext(l, next, s.k);
    StackStays(l, s.stack, s.k);
    assert NestStep(s) == Nest(KeepUncrossed(l, s.k + 1), s.stack, s.k + 1);
    assert Clear(s.list, l[s.k].id)[t].id == s.list[t].id;
  }

  lemma {:induction false} TopKeepsLink(l: seq<Node>, next: nat, s: Nest, o: int)
    requires Linked(l, next) && NestInv(l, s) && s.k < |l| && InRange(s) && s.stack != []
    requires Pair(l, o, s.k) && s.stack[|s.stack| - 1] != o
    ensures s.list[s.stack[|s.stack| - 1]].id != l[s.k].id
  {
    hide Crossed;
    var t := s.stack[|s.stack| - 1];
    var e := PairOfOpener(l, next, t);
    if l[t].id == l[s.k].id {
      IdsOfPairs(l, next, o, s.k, t, e);
      assert false;
    }
  }

  lemma {:induction false} PopStep(l: seq<Node>, next: nat, s: Nest, o: int)
    requires Linked(l, next) && NestInv(l, s) && s.k < |l| && InRange(s) && s.stack != []
    requires Pair(l, o, s.k) && !Crossed(l, o, s.k) && MatchedClose(s.list[s.k]) && s.list[s.k] == l[s.k]
    requires s.stack[|s.stack| - 1] == o && s.list[o] == l[o]
    ensures NestInv(l, NestStep(s))
  {
    hide Crossed, KeepUncrossed, CrossedHere, PopUnmatched, Linked, StackInv;
    KeepNext(l, next, s.k);
    OnePairAt(l, next, o, s.k);
    var rest := PopUnmatched(s.list, s.stack[..|s.stack| - 1]);
    forall p, c | Pair(l, p, c) && p < s.k + 1 <= c ensures p in rest {
      LinkOfPair(l, next, s.k, p, c);
      OpenIsInStack(l, s, p, c);
      PopLeavesLinked(l, s, o, p);
    }
    StackPop(l, s.stack, s.k, o, rest);
  }

  lemma {:induction false} OpenIsInStack(l: seq<Node>, s: Nest, p: int, c: int)
    requires NestInv(l, s) && Pair(l, p, c) && p < s.k <= c
    ensures p in s.stack
  {
    hide KeepUncrossed, Crossed;
  }

  /** Of the stack, only the top and unlinked markers are popped. */
  lemma {:induction false} PopLeavesLinked(l: seq<Node>, s: Nest, o: int, p: int)
    requires InRange(s) && s.stack != [] && s.stack[|s.stack| - 1] == o && p in s.stack && p != o
    requires s.list[p].id >= 0
    ensures p in PopUnmatched(s.list, s.stack[..|s.stack| - 1])
  {
    var i :| 0 <= i < |s.stack| && s.stack[i] == p;
    assert s.stack[..|s.stack| - 1][i] == p;
  }

  // ---------------------------------------------------------------------------------------
  // The surviving pairs never cross
  // ---------------------------------------------------------------------------------------

  ghost predicate NonCrossing(l: seq<Node>) {
    forall o, c :: Pair(l, o, c) ==> !Crossed(l, o, c)
  }

  /** A pair survives the whole pass exactly if it is not crossed, and no new pair appears. */
  lemma {:induction false} SurvivesExactly(l: seq<Node>, next: nat, o: int, c: int)
    requires Linked(l, next)
    ensures Pair(KeepUncrossed(l, |l|), o, c) <==> Pair(l, o, c) && !Crossed(l, o, c)
  {
    hide Crossed;
    if Pair(l, o, c) {
      LinkOfPair(l, next, |l|, o, c);
    }
  }

  lemma {:induction false} KeepIsSound(l: seq<Node>, next: nat)
    requires Linked(l, next)
    ensures var r := KeepUncrossed(l, |l|);
      Linked(r, next) && NonCrossing(r) && Literal(r) == Literal(l)
  {
    var r := KeepUncrossed(l, |l|);
    forall o, c | Pair(r, o, c) ensures !Crossed(r, o, c) {
      SurvivesExactly(l, next, o, c);
      forall o', c' | Pair(r, o', c') ensures !(o < o' < c < c') {
        SurvivesExactly(l, next, o', c');
      }
    }
    KeepIsLinked(l, next);
    LiteralPointwise(l, r, |l|);
  }

  lemma {:induction false} KeepIsLinked(l: seq<Node>, next: nat)
    requires Linked(l, next)
    ensures Linked(KeepUncrossed(l, |l|), next)
  {
    hide Crossed;
    var r := KeepUncrossed(l, |l|);
    forall i, j | i < j && Mates(r, i, j)
      ensures r[i].open && !r[j].open && Fits(r[i], r[j])
    {
      assert Mates(l, i, j);
    }
    forall i | 0 <= i < |r| && r[i].Marker? && r[i].id >= 0 ensures HasMate(r, i) {
      if r[i].open {
        var c := PairOfOpener(l, next, i);
        LinkOfPair(l, next, |l|, i, c);
        assert Mates(r, i, c);
      } else {
        var o := PairOfCloser(l, next, i);
        LinkOfPair(l, next, |l|, o, i);
        assert Mates(r, i, o);
      }
    }
  }

  /** The list after both passes. */
  ghost function Resolved(l: seq<Node>): seq<Node>
    requires Finishes(l)
  {
    KeepUncrossed(Matched(l), |Matched(l)|)
  }

  // ---------------------------------------------------------------------------------------
  // The HTML that the resolved list writes
  // ---------------------------------------------------------------------------------------

  /** `strong` tells `<strong>` from `<em>`. */
  datatype Piece = Chars(text: string) | OpenTag(strong: bool) | CloseTag(strong: bool)

  function PiecesOf(n: Node): seq<Piece> {
    match n
    case Text(t) => [Chars(t)]
    case Marker(open, ch, size, _, disabled, id) =>
      if disabled then []
      else if id < 0 then [Chars(Copies(ch, size))]
      else if open then
        if size == 1 then [OpenTag(false)] else if size == 2 then [OpenTag(true)]
        else [OpenTag(true), OpenTag(false)]
      else
        if size == 1 then [CloseTag(false)] else if size == 2 then [CloseTag(true)]
        else [CloseTag(false), CloseTag(true)]
  }

  /** All pieces of the first `n` nodes, in order. */
  function Pieces(l: seq<Node>, n: nat): seq<Piece>
    requires n <= |l|
  {
    if n == 0 then [] else Pieces(l, n - 1) + PiecesOf(l[n - 1])
  }

  function HtmlOf(p: Piece): string {
    match p
    case Chars(t) => t
    case OpenTag(strong) => if strong then "<strong>" else "<em>"
    case CloseTag(strong) => if strong then "</strong>" else "</em>"
  }

  function Html(ps: seq<Piece>): string {
    if ps == [] then "" else HtmlOf(ps[0]) + Html(ps[1..])
  }

  lemma {:induction false} HtmlShort(ps: seq<Piece>)
    ensures ps == [] ==> Html(ps) == ""
    ensures |ps| == 1 ==> Html(ps) == HtmlOf(ps[0])
    ensures |ps| == 2 ==> Html(ps) == HtmlOf(ps[0]) + HtmlOf(ps[1])
  {
    if |ps| == 2 {
      assert ps[1..] == [ps[1]] && Html([ps[1]]) == HtmlOf(ps[1]);
    }
  }

  lemma {:induction false} HtmlConcat(a: seq<Piece>, b: seq<Piece>)
    ensures Html(a + b) == Html(a) + Html(b)
  {
    if a == [] {
      assert a + b == b;
    } else {
      assert (a + b)[1..] == a[1..] + b;
      HtmlConcat(a[1..], b);
      assert HtmlOf(a[0]) + (Html(a[1..]) + Html(b)) == (HtmlOf(a[0]) + Html(a[1..])) + Html(b);
    }
  }

  /** A reader of HTML: the tags that are open, innermost last, or an error. */
  datatype Reader = Mismatch | Reading(open: seq<bool>)

  function ReadOne(r: Reader, p: Piece): Reader {
    if r.Mismatch? then r
    else match p
      case Chars(_) => r
      case OpenTag(strong) => Reading(r.open + [strong])
      case CloseTag(strong) =>
        if r.open != [] && r.open[|r.open| - 1] == strong then Reading(r.open[..|r.open| - 1]) else Mismatch
  }

  function Read(r: Reader, ps: seq<Piece>): Reader
    decreases ps
  {
    if ps == [] then r else Read(ReadOne(r, ps[0]), ps[1..])
  }

  /** Every tag is closed by its own kind, in the reverse order of opening. */
  predicate Balanced(ps: seq<Piece>) {
    Read(Reading([]), ps) == Reading([])
  }

  lemma {:induction false} ReadConcat(r: Reader, a: seq<Piece>, b: seq<Piece>)
    ensures Read(r, a + b) == Read(Read(r, a), b)
    decreases a
  {
    if a == [] {
      assert a + b == b;
    } else {
      assert (a + b)[1..] == a[1..] + b;
      ReadConcat(ReadOne(r, a[0]), a[1..], b);
    }
  }

  /** The matched openers among the first `k` nodes that have not been closed yet. */
  function Pending(l: seq<Node>, k: nat): (p: seq<nat>)
    requires k <= |l|
    ensures forall i :: 0 <= i < |p| ==> p[i] < k && MatchedOpen(l[p[i]])
  {
    if k == 0 then []
    else
      var p := Pending(l, k - 1);
      if MatchedOpen(l[k - 1]) then p + [k - 1]
      else if MatchedClose(l[k - 1]) && p != [] then p[..|p| - 1]
      else p
  }

  ghost predicate PendingInv(l: seq<Node>, k: nat)
    requires k <= |l|
  {
    var p := Pending(l, k);
    && (forall i, j :: 0 <= i < j < |p| ==> p[i] < p[j])
    && (forall o, c :: Pair(l, o, c) && o < k <= c ==> o in p)
    && (forall o, c :: Pair(l, o, c) && o in p ==> k <= c)
  }

  lemma {:induction false} CrossedBy(l: seq<Node>, o: int, c: int, o': int, c': int)
    requires Pair(l, o', c') && o < o' < c < c'
    ensures Crossed(l, o, c)
  {
  }

  /** In a list without crossings, the closer at `k` closes the last pending opener. */
  lemma {:induction false} LastPendingCloses(l: seq<Node>, next: nat, k: nat, o: int)
    requires Linked(l, next) && NonCrossing(l) && k < |l| && PendingInv(l, k) && Pair(l, o, k)
    ensures var p := Pending(l, k); p != [] && p[|p| - 1] == o
  {
    var p := Pending(l, k);
    assert o in p;
    var t := p[|p| - 1];
    if t != o {
      var e := PairOfOpener(l, next, t);
      assert o < t;
      if e == k {
        IdsOfPairs(l, next, o, k, t, e);
      } else {
        CrossedBy(l, o, k, t, e);
      }
    }
  }

  lemma {:induction false} PendingIsStack(l: seq<Node>, next: nat, k: nat)
    requires Linked(l, next) && NonCrossing(l) && k <= |l|
    ensures PendingInv(l, k)
  {
    hide PendingInv, Linked, NonCrossing;
    if k == 0 {
      PendingAtStart(l);
    } else {
      PendingIsStack(l, next, k - 1);
      PendingStep(l, next, k - 1);
    }
  }

  lemma {:induction false} PendingAtStart(l: seq<Node>)
    ensures PendingInv(l, 0)
  {
  }

  lemma {:induction false} PendingStep(l: seq<Node>, next: nat, k: nat)
    requires Linked(l, next) && NonCrossing(l) && k < |l| && PendingInv(l, k)
    ensures PendingInv(l, k + 1)
  {
    hide Crossed;
    if MatchedClose(l[k]) {
      var o := PairOfCloser(l, next, k);
      LastPendingCloses(l, next, k, o);
      OnePairAt(l, next, o, k);
      PendingAfterClose(l, k, o);
    } else {
      PendingAfterOther(l, next, k);
    }
  }

  lemma {:induction false} PendingAfterOther(l: seq<Node>, next: nat, k: nat)
    requires Linked(l, next) && k < |l| && PendingInv(l, k) && !MatchedClose(l[k])
    ensures PendingInv(l, k + 1)
  {
    hide Linked;
    ClosesNone(l, next, k);
    var p, q := Pending(l, k), Pending(l, k + 1);
    assert p <= q;
    forall o, c | Pair(l, o, c) && o < k + 1 <= c ensures o in q {
      if o < k {
        assert o in p;
      } else {
        assert q[|p|] == k;
      }
    }
    forall o, c | Pair(l, o, c) && o in q ensures k + 1 <= c {
      assert o in p || o == k;
    }
  }

  lemma {:induction false} PendingAfterClose(l: seq<Node>, k: nat, o: int)
    requires k < |l| && PendingInv(l, k) && MatchedClose(l[k]) && Pair(l, o, k)
    requires var p := Pending(l, k); p != [] && p[|p| - 1] == o
    requires forall o' :: Pair(l, o', k) ==> o' == o
    requires forall c' :: (Pair(l, o, c') ==> c' == k) && !Pair(l, k, c')
    ensures PendingInv(l, k + 1)
  {
    hide Pair;
    var p := Pending(l, k);
    var q := Pending(l, k + 1);
    assert q == p[..|p| - 1];
    forall o', c | Pair(l, o', c) && o' < k + 1 <= c ensures o' in q {
      var i :| 0 <= i < |p| && p[i] == o';
      assert q[i] == o';
    }
    forall o', c | Pair(l, o', c) && o' in q ensures k + 1 <= c {
      assert o' in p;
    }
  }

  /** The tags of one opener, as the reader's stack holds them. */
  function TagsOf(n: Node): seq<bool>
    requires n.Marker?
  {
    if n.size == 1 then [false] else if n.size == 2 then [true] else [true, false]
  }

  function OpenTags(l: seq<Node>, p: seq<nat>): seq<bool>
    requires forall i :: 0 <= i < |p| ==> p[i] < |l| && l[p[i]].Marker?
  {
    if p == [] then [] else OpenTags(l, p[..|p| - 1]) + TagsOf(l[p[|p| - 1]])
  }

  lemma {:induction false} ReadShort(r: Reader, a: Piece, b: Piece)
    ensures Read(r, [a]) == ReadOne(r, a)
    ensures Read(r, [a, b]) == ReadOne(ReadOne(r, a), b)
  {
    assert [a, b][1..] == [b];
    assert Read(ReadOne(r, a), [b]) == ReadOne(ReadOne(r, a), b);
  }

  lemma {:induction false} ReadOpener(open: seq<bool>, n: Node)
    requires MatchedOpen(n) && !n.disabled
    ensures Read(Reading(open), PiecesOf(n)) == Reading(open + TagsOf(n))
  {
    ReadShort(Reading(open), PiecesOf(n)[0], OpenTag(false));
    assert open + [true, false] == open + [true] + [false];
  }

  lemma {:induction false} ReadCloser(open: seq<bool>, n: Node)
    requires MatchedClose(n) && !n.disabled
    ensures Read(Reading(open + TagsOf(n)), PiecesOf(n)) == Reading(open)
  {
    var all := open + TagsOf(n);
    ReadShort(Reading(all), PiecesOf(n)[0], CloseTag(true));
    assert all[..|open|] == open && (open + [true])[..|open|] == open;
    if |TagsOf(n)| == 2 {
      assert all[..|all| - 1] == open + [true];
    }
  }

  lemma {:induction false} ReadOther(r: Reader, n: Node)
    requires !MatchedOpen(n) && !MatchedClose(n) && r.Reading?
    ensures Read(r, PiecesOf(n)) == r
  {
    if PiecesOf(n) != [] {
      ReadShort(r, PiecesOf(n)[0], Chars(""));
    }
  }

  /** After the first `k` nodes the reader holds the tags of the pending openers. */
  predicate ReaderAt(l: seq<Node>, k: nat)
    requires k <= |l|
  {
    Read(Reading([]), Pieces(l, k)) == Reading(OpenTags(l, Pending(l, k)))
  }

  lemma {:induction false} ReaderTracksPending(l: seq<Node>, next: nat, k: nat)
    requires Linked(l, next) && NonCrossing(l) && k <= |l|
    ensures ReaderAt(l, k)
  {
    hide ReaderAt, Linked, NonCrossing;
    if k == 0 {
      ReaderAtStart(l);
    } else {
      ReaderTracksPending(l, next, k - 1);
      ReaderNext(l, next, k - 1);
    }
  }

  lemma {:induction false} ReaderAtStart(l: seq<Node>)
    ensures ReaderAt(l, 0)
  {
  }

  lemma {:induction false} ReaderNext(l: seq<Node>, next: nat, k: nat)
    requires Linked(l, next) && NonCrossing(l) && k < |l| && ReaderAt(l, k)
    ensures ReaderAt(l, k + 1)
  {
    hide Linked, NonCrossing, Read, Pending, OpenTags, PiecesOf;
    ReaderStep(l, next, k);
    ReadConcat(Reading([]), Pieces(l, k), PiecesOf(l[k]));
    assert Pieces(l, k + 1) == Pieces(l, k) + PiecesOf(l[k]);
  }

  lemma {:induction false} ReaderStep(l: seq<Node>, next: nat, k: nat)
    requires Linked(l, next) && NonCrossing(l) && k < |l|
    ensures Read(Reading(OpenTags(l, Pending(l, k))), PiecesOf(l[k])) == Reading(OpenTags(l, Pending(l, k + 1)))
  {
    hide Crossed, Read;
    var p, q := Pending(l, k), Pending(l, k + 1);
    if MatchedOpen(l[k]) {
      ReadOpener(OpenTags(l, p), l[k]);
      assert q[..|q| - 1] == p;
    } else if MatchedClose(l[k]) {
      PendingIsStack(l, next, k);
      var o := PairOfCloser(l, next, k);
      LastPendingCloses(l, next, k, o);
      assert TagsOf(l[o]) == TagsOf(l[k]);
      ReadCloser(OpenTags(l, q), l[k]);
    } else {
      ReadOther(Reading(OpenTags(l, p)), l[k]);
    }
  }

  lemma {:induction false} NestedTagsBalance(l: seq<Node>, next: nat)
    requires Linked(l, next) && NonCrossing(l)
    ensures Balanced(Pieces(l, |l|))
  {
    hide Crossed;
    ReaderTracksPending(l, next, |l|);
    PendingIsStack(l, next, |l|);
    var p := Pending(l, |l|);
    if p != [] {
      var c := PairOfOpener(l, next, p[0]);
      assert false;
    }
  }

  // ---------------------------------------------------------------------------------------
  // Both passes together
  // ---------------------------------------------------------------------------------------

  lemma {:induction false} RunKeepsSizes(l: seq<Node>, n: nat)
    requires Untouched(l) && !EverClashes(l)
    ensures NoEmptyMarkers(Run(Start(l), n).list)
  {
    hide Step, Clash, EverClashes;
    if n > 0 {
      RunKeepsSizes(l, n - 1);
      NeverClashes(l, n - 1);
      StepKeepsRoom(Run(Start(l), n - 1));
    }
  }

  /**
   * Whatever the input, once the matching pass ends: the tags written are balanced, every marker
   * still has one to three characters, every character of the text is still there, and the pairs
   * are those of the matching pass that no other pair crosses.
   */
  lemma {:induction false} ResolvedIsSound(l: seq<Node>)
    requires Untouched(l) && Finishes(l)
    ensures var m, r := Matched(l), Resolved(l);
      && Balanced(Pieces(r, |r|))
      && NonCrossing(r)
      && NoEmptyMarkers(r)
      && Literal(r) == Literal(l)
      && forall o, c :: Pair(r, o, c) <==> Pair(m, o, c) && !Crossed(m, o, c)
  {
    hide Crossed, Balanced, Step;
    MatchedIsSound(l);
    var m := Matched(l);
    var next: nat :| Linked(m, next);
    KeepIsSound(m, next);
    NestedTagsBalance(Resolved(l), next);
    FinishesExactly(l);
    var n: nat :| Done(Run(Start(l), n)) && m == Run(Start(l), n).list;
    RunKeepsSizes(l, n);
    forall o, c ensures Pair(Resolved(l), o, c) <==> Pair(m, o, c) && !Crossed(m, o, c) {
      SurvivesExactly(m, next, o, c);
    }
  }
}
