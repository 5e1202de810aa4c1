/**
 * The matching pass of `_processBoldAndItalicSpans`, as a transition system over values.
 *
 * A list of tokens is a sequence of nodes; a state has the list together with the two list
 * iterators of the program.  `EmphasisTermination` says when the pass ends, `EmphasisNesting` has
 * the pass with the stack, and `Emphasis` proves that the pointer-based program runs them both.
 */
module EmphasisSpec {
  /** A marker is one, two or three copies of its character; a bad split can produce none. */
  type Size = n: nat | n <= 3

  /** `id` is -1 exactly when the marker is linked to no other marker. */
  datatype Node =
    | Text(text: string)
    | Marker(open: bool, ch: char, size: Size, cannotMatch: bool, disabled: bool, id: int)

  predicate LiveOpen(n: Node) {
    n.Marker? && n.open && n.id < 0 && !n.cannotMatch
  }

  predicate LiveClose(n: Node) {
    n.Marker? && !n.open && n.id < 0 && !n.cannotMatch
  }

  predicate MatchedOpen(n: Node) {
    n.Marker? && n.open && n.id >= 0
  }

  predicate MatchedClose(n: Node) {
    n.Marker? && !n.open && n.id >= 0
  }

  predicate Fits(o: Node, c: Node)
    requires o.Marker? && c.Marker?
  {
    o.ch == c.ch && o.size == c.size
  }

  function NewMarker(open: bool, ch: char, size: Size): Node {
    Marker(open, ch, size, false, false, -1)
  }

  /** Disables the marker at `k` and puts two markers of sizes `a` and `b` right after it. */
  function Split(l: seq<Node>, k: nat, a: Size, b: Size): (r: seq<Node>)
    requires k < |l| && l[k].Marker?
    ensures |r| == |l| + 2
    ensures forall i {:trigger r[i]} :: 0 <= i < k ==> r[i] == l[i]
    ensures r[k] == l[k].(cannotMatch := true, disabled := true)
    ensures r[k + 1] == NewMarker(l[k].open, l[k].ch, a)
    ensures r[k + 2] == NewMarker(l[k].open, l[k].ch, b)
    ensures forall i {:trigger r[i]} :: k + 2 < i < |r| ==> r[i] == l[i - 2]
  {
    seq(|l| + 2, i requires 0 <= i < |l| + 2 =>
      if i < k then l[i]
      else if i == k then l[k].(cannotMatch := true, disabled := true)
      else if i == k + 1 then NewMarker(l[k].open, l[k].ch, a)
      else if i == k + 2 then NewMarker(l[k].open, l[k].ch, b)
      else l[i - 2])
  }

  // ---------------------------------------------------------------------------------------
  // The matching pass
  // ---------------------------------------------------------------------------------------

  /** `AtOpener` is the head of the outer loop, `AtCloser` the head of the inner one. */
  datatype State =
    | AtOpener(list: seq<Node>, ii: nat, next: nat)
    | AtCloser(list: seq<Node>, ii: nat, iii: nat, next: nat)

  predicate Ok(s: State) {
    && s.ii <= |s.list|
    && (s.AtCloser? ==> s.ii < s.iii <= |s.list| && LiveOpen(s.list[s.ii]))
  }

  predicate Done(s: State) {
    s.AtOpener? && s.ii == |s.list|
  }

  function Start(l: seq<Node>): (s: State)
    ensures Ok(s)
  {
    AtOpener(l, 0, 0)
  }

  function Step(s: State): (r: State)
    requires Ok(s)
    ensures Ok(r)
  {
    var l := s.list;
    if s.AtOpener? then
      if s.ii == |l| then s
      else if LiveOpen(l[s.ii]) then AtCloser(l, s.ii, s.ii + 1, s.next)
      else AtOpener(l, s.ii + 1, s.next)
    else if s.iii == |l| then AtOpener(l, s.ii + 1, s.next)
    else if !LiveClose(l[s.iii]) then s.(iii := s.iii + 1)
    else
      var o, c := l[s.ii], l[s.iii];
      if c.size == 3 && o.size != 3 then
        AtCloser(Split(l, s.iii, 3 - o.size, o.size), s.ii, s.iii + 1, s.next)
      else if Fits(o, c) then
        AtOpener(Link(l, s.ii, s.iii, s.next), s.ii + 1, s.next + 1)
      else if o.size == 3 then
        AtOpener(Split(l, s.ii, 3 - c.size, c.size), s.ii + 1, s.next)
      else s.(iii := s.iii + 1)
  }

  function Link(l: seq<Node>, o: nat, c: nat, id: nat): seq<Node>
    requires o < c < |l| && l[o].Marker? && l[c].Marker?
  {
    l[o := l[o].(id := id)][c := l[c].(id := id)]
  }

  function Run(s: State, n: nat): (r: State)
    requires Ok(s)
    ensures Ok(r)
  {
    if n == 0 then s else Step(Run(s, n - 1))
  }

  /** The tokens as the tokenizer leaves them: nothing linked, nothing disabled, sizes 1 to 3. */
  predicate Untouched(l: seq<Node>) {
    forall i :: 0 <= i < |l| && l[i].Marker? ==>
      l[i].id == -1 && !l[i].cannotMatch && !l[i].disabled && l[i].size >= 1
  }

  // ---------------------------------------------------------------------------------------
  // Links: every matched marker has exactly one mate, on the right side and of the same kind
  // ---------------------------------------------------------------------------------------

  predicate Mates(l: seq<Node>, i: int, j: int) {
    && 0 <= i < |l| && 0 <= j < |l| && i != j
    && l[i].Marker? && l[j].Marker? && l[i].id == l[j].id && l[i].id >= 0
  }

  predicate Sound(n: Node, next: nat) {
    n.Marker? ==> (n.disabled <==> n.cannotMatch) && -1 <= n.id < next && (n.id >= 0 ==> !n.disabled)
  }

  ghost predicate Linked(l: seq<Node>, next: nat) {
    && (forall i :: 0 <= i < |l| ==> Sound(l[i], next))
    && (forall i, j :: i < j && Mates(l, i, j) ==> l[i].open && !l[j].open && Fits(l[i], l[j]))
    && (forall i {:trigger HasMate(l, i)} :: 0 <= i < |l| && l[i].Marker? && l[i].id >= 0 ==> HasMate(l, i))
  }

  ghost predicate HasMate(l: seq<Node>, i: int) {
    exists j :: Mates(l, i, j)
  }

  /** A pair: the opener at `o` and the closer at `c` are each other's mates. */
  predicate Pair(l: seq<Node>, o: int, c: int) {
    o < c && Mates(l, o, c)
  }

  lemma {:induction false} PairsSplit(l: seq<Node>, next: nat, k: nat, a: Size, b: Size, i: int, j: int)
    requires Linked(l, next) && k < |l| && l[k].Marker? && l[k].id < 0
    requires i < j && Mates(Split(l, k, a, b), i, j)
    ensures var r := Split(l, k, a, b); r[i].open && !r[j].open && Fits(r[i], r[j])
  {
    assert Mates(l, if i < k then i else i - 2, if j < k then j else j - 2);
  }

  lemma {:induction false} HasMateSplit(l: seq<Node>, next: nat, k: nat, a: Size, b: Size, i: nat)
    requires Linked(l, next) && k < |l| && l[k].Marker? && l[k].id < 0
    requires i < |l| + 2 && var n := Split(l, k, a, b)[i]; n.Marker? && n.id >= 0
    ensures HasMate(Split(l, k, a, b), i)
  {
    var i' := if i < k then i else i - 2;
    assert HasMate(l, i');
    var j :| Mates(l, i', j);
    assert Mates(Split(l, k, a, b), i, if j < k then j else j + 2);
  }

  lemma {:induction false} LinkedSplit(l: seq<Node>, next: nat, k: nat, a: Size, b: Size)
    requires Linked(l, next) && k < |l| && (LiveOpen(l[k]) || LiveClose(l[k]))
    ensures Linked(Split(l, k, a, b), next)
  {
    var r := Split(l, k, a, b);
    forall i, j | i < j && Mates(r, i, j)
      ensures r[i].open && !r[j].open && Fits(r[i], r[j])
    {
      PairsSplit(l, next, k, a, b, i, j);
    }
    forall i | 0 <= i < |r| && r[i].Marker? && r[i].id >= 0
      ensures HasMate(r, i)
    {
      HasMateSplit(l, next, k, a, b, i);
    }
  }

  lemma {:induction false} LinkedLink(l: seq<Node>, next: nat, o: nat, c: nat)
    requires Linked(l, next) && o < c < |l|
    requires LiveOpen(l[o]) && LiveClose(l[c]) && Fits(l[o], l[c])
    ensures Linked(Link(l, o, c, next), next + 1)
  {
    var r := Link(l, o, c, next);
    forall i, j | i < j && Mates(r, i, j)
      ensures r[i].open && !r[j].open && Fits(r[i], r[j])
    {
      if i != o && j != c {
        assert Mates(l, i, j);
      }
    }
    forall i | 0 <= i < |r| && r[i].Marker? && r[i].id >= 0
      ensures HasMate(r, i)
    {
      if i == o {
        assert Mates(r, o, c);
      } else if i == c {
        assert Mates(r, c, o);
      } else {
        assert HasMate(l, i);
        var j :| Mates(l, i, j);
        assert Mates(r, i, j);
      }
    }
  }

  // ---------------------------------------------------------------------------------------
  // Maximality: what has been searched leaves no opener and later closer that should meet
  // ---------------------------------------------------------------------------------------

  /** Neither a match nor a split would be possible between these two. */
  predicate Settled(o: Node, c: Node) {
    LiveOpen(o) && LiveClose(c) ==> !Fits(o, c) && o.size != 3 && c.size != 3
  }

  ghost predicate Searched(l: seq<Node>, upTo: nat) {
    forall i, j :: 0 <= i < upTo && i < j < |l| ==> Settled(l[i], l[j])
  }

  ghost predicate ScanSettled(l: seq<Node>, ii: nat, iii: nat)
    requires ii < iii <= |l|
  {
    forall j :: ii < j < iii ==> Settled(l[ii], l[j])
  }

  // ---------------------------------------------------------------------------------------
  // Literal text: every enabled marker reads as `size` copies of its character
  // ---------------------------------------------------------------------------------------

  function Copies(c: char, n: nat): string {
    seq(n, _ => c)
  }

  function LiteralOf(n: Node): string {
    match n
    case Text(t) => t
    case Marker(_, ch, size, _, disabled, _) => if disabled then "" else Copies(ch, size)
  }

  function LiteralUpTo(l: seq<Node>, n: nat): string
    requires n <= |l|
  {
    if n == 0 then "" else LiteralUpTo(l, n - 1) + LiteralOf(l[n - 1])
  }

  function Literal(l: seq<Node>): string {
    LiteralUpTo(l, |l|)
  }

  lemma {:induction false} LiteralPointwise(a: seq<Node>, b: seq<Node>, n: nat)
    requires n <= |a| && n <= |b| && forall i :: 0 <= i < n ==> LiteralOf(a[i]) == LiteralOf(b[i])
    ensures LiteralUpTo(a, n) == LiteralUpTo(b, n)
  {
    if n > 0 {
      LiteralPointwise(a, b, n - 1);
    }
  }

  lemma {:induction false} CopiesAdd(before: string, c: char, a: nat, b: nat)
    ensures before + "" + Copies(c, a) + Copies(c, b) == before + Copies(c, a + b)
  {
  }

  lemma {:induction false} LiteralSplitHere(l: seq<Node>, k: nat, a: Size, b: Size)
    requires k < |l| && l[k].Marker? && !l[k].disabled && a + b == l[k].size
    ensures LiteralUpTo(Split(l, k, a, b), k + 3) == LiteralUpTo(l, k + 1)
  {
    var r := Split(l, k, a, b);
    LiteralPointwise(l, r, k);
    CopiesAdd(LiteralUpTo(l, k), l[k].ch, a, b);
    assert LiteralUpTo(r, k + 1) == LiteralUpTo(r, k) + "";
  }

  lemma {:induction false} LiteralNext(l: seq<Node>, m: nat, r: seq<Node>, n: nat)
    requires m < |l| && n < |r| && l[m] == r[n] && LiteralUpTo(l, m) == LiteralUpTo(r, n)
    ensures LiteralUpTo(l, m + 1) == LiteralUpTo(r, n + 1)
  {
  }

  lemma {:induction false} LiteralSplit(l: seq<Node>, k: nat, a: Size, b: Size, n: nat)
    requires k < n <= |l| && l[k].Marker? && !l[k].disabled && a + b == l[k].size
    ensures LiteralUpTo(Split(l, k, a, b), n + 2) == LiteralUpTo(l, n)
  {
    hide LiteralUpTo;
    if n == k + 1 {
      LiteralSplitHere(l, k, a, b);
    } else {
      LiteralSplit(l, k, a, b, n - 1);
      LiteralNext(l, n - 1, Split(l, k, a, b), n + 1);
    }
  }

  // ---------------------------------------------------------------------------------------
  // Safety of every reachable state
  // ---------------------------------------------------------------------------------------

  ghost predicate Inv(s: State) {
    && Ok(s)
    && Linked(s.list, s.next)
    && Searched(s.list, s.ii)
    && (s.AtCloser? ==> ScanSettled(s.list, s.ii, s.iii))
  }

  lemma {:induction false} StepKeepsInv(s: State)
    requires Inv(s)
    ensures Inv(Step(s))
  {
    if AtLiveCloser(s) {
      var o, c := s.list[s.ii], s.list[s.iii];
      if c.size == 3 && o.size != 3 {
        SplitCloserKeepsInv(s);
      } else if Fits(o, c) {
        LinkKeepsInv(s);
      } else if o.size == 3 {
        SplitOpenerKeepsInv(s);
      }
    }
  }

  /** The scan has reached a closer that may be matched, split, or decide a split. */
  predicate AtLiveCloser(s: State)
    requires Ok(s)
  {
    s.AtCloser? && s.iii < |s.list| && LiveClose(s.list[s.iii])
  }

  lemma {:induction false} SplitCloserKeepsInv(s: State)
    requires Inv(s) && AtLiveCloser(s)
    requires s.list[s.iii].size == 3 && s.list[s.ii].size != 3
    ensures Inv(Step(s))
  {
    var k := s.list[s.ii].size;
    LinkedSplit(s.list, s.next, s.iii, 3 - k, k);
    assert Step(s) == AtCloser(Split(s.list, s.iii, 3 - k, k), s.ii, s.iii + 1, s.next);
    SearchedSplitCloser(s);
  }

  lemma {:induction false} LinkKeepsInv(s: State)
    requires Inv(s) && AtLiveCloser(s)
    requires Fits(s.list[s.ii], s.list[s.iii])
    ensures Inv(Step(s))
  {
    SearchedLink(s);
    LinkedLink(s.list, s.next, s.ii, s.iii);
  }

  lemma {:induction false} SplitOpenerKeepsInv(s: State)
    requires Inv(s) && AtLiveCloser(s)
    requires !Fits(s.list[s.ii], s.list[s.iii]) && s.list[s.ii].size == 3
    ensures Inv(Step(s))
  {
    hide Linked, Searched, Split;
    var k := s.list[s.iii].size;
    LinkedSplit(s.list, s.next, s.ii, 3 - k, k);
    assert Step(s) == AtOpener(Split(s.list, s.ii, 3 - k, k), s.ii + 1, s.next);
    SearchedSplitOpener(s);
  }

  lemma {:induction false} SearchedSplitCloser(s: State)
    requires Ok(s) && s.AtCloser? && s.iii < |s.list| && LiveClose(s.list[s.iii])
    requires s.list[s.iii].size == 3 && s.list[s.ii].size != 3
    requires Searched(s.list, s.ii) && ScanSettled(s.list, s.ii, s.iii)
    ensures Searched(Step(s).list, s.ii) && ScanSettled(Step(s).list, s.ii, s.iii + 1)
  {
    var r := Step(s).list;
    forall i, j | 0 <= i < s.ii && i < j < |r| ensures Settled(r[i], r[j]) {
      assert r[i] == s.list[i] && Settled(s.list[i], s.list[s.iii]);
    }
  }

  lemma {:induction false} SearchedSplitOpener(s: State)
    requires Ok(s) && s.AtCloser? && s.iii < |s.list| && LiveClose(s.list[s.iii])
    requires !Fits(s.list[s.ii], s.list[s.iii]) && s.list[s.ii].size == 3
    requires Searched(s.list, s.ii)
    ensures Searched(Step(s).list, s.ii + 1)
  {
    var r := Step(s).list;
    forall i, j | 0 <= i < s.ii + 1 && i < j < |r| ensures Settled(r[i], r[j]) {
      if i < s.ii {
        assert r[i] == s.list[i];
        if j > s.ii + 2 {
          assert r[j] == s.list[j - 2] && Settled(s.list[i], s.list[j - 2]);
        } else if j < s.ii {
          assert r[j] == s.list[j] && Settled(s.list[i], s.list[j]);
        }
      }
    }
  }

  lemma {:induction false} SearchedLink(s: State)
    requires Ok(s) && s.AtCloser? && s.iii < |s.list| && LiveClose(s.list[s.iii])
    requires Searched(s.list, s.ii)
    ensures Searched(Link(s.list, s.ii, s.iii, s.next), s.ii + 1)
  {
    var r := Link(s.list, s.ii, s.iii, s.next);
    forall i, j | 0 <= i < s.ii + 1 && i < j < |r| ensures Settled(r[i], r[j]) {
      if i < s.ii {
        assert Settled(s.list[i], s.list[j]);
      }
    }
  }

  lemma {:induction false} StepKeepsLiteral(s: State)
    requires Ok(s) && forall i :: 0 <= i < |s.list| ==> Sound(s.list[i], s.next)
    ensures Literal(Step(s).list) == Literal(s.list)
  {
    hide LiteralUpTo;
    var l, r := s.list, Step(s).list;
    if AtLiveCloser(s) {
      var o, c := l[s.ii], l[s.iii];
      if c.size == 3 && o.size != 3 {
        assert r == Split(l, s.iii, 3 - o.size, o.size);
        LiteralSplit(l, s.iii, 3 - o.size, o.size, |l|);
      } else if Fits(o, c) {
        assert r == Link(l, s.ii, s.iii, s.next);
        LiteralPointwise(l, r, |l|);
      } else if o.size == 3 {
        assert r == Split(l, s.ii, 3 - c.size, c.size);
        LiteralSplit(l, s.ii, 3 - c.size, c.size, |l|);
      } else {
        assert r == l;
      }
    } else {
      assert r == l;
    }
  }

  lemma {:induction false} RunKeepsInv(l: seq<Node>, n: nat)
    requires Untouched(l)
    ensures Inv(Run(Start(l), n)) && Literal(Run(Start(l), n).list) == Literal(l)
  {
    hide Step;
    if n > 0 {
      RunKeepsInv(l, n - 1);
      StepKeepsInv(Run(Start(l), n - 1));
      StepKeepsLiteral(Run(Start(l), n - 1));
    } else {
      assert forall i, j :: !Mates(l, i, j);
    }
  }

  // ---------------------------------------------------------------------------------------
  // First fit: a pair encloses no pair of its own kind, and no live closer of its own kind
  // ---------------------------------------------------------------------------------------

  ghost predicate FirstFit(l: seq<Node>) {
    && (forall o, c, j {:trigger Pair(l, o, c), LiveClose(l[j])} :: Pair(l, o, c) && o < j < c && LiveClose(l[j]) ==>
          !Fits(l[o], l[j]) && l[j].size != 3)
    && (forall o, c, p, q {:trigger Pair(l, o, c), Pair(l, p, q)} ::
          Pair(l, o, c) && Pair(l, p, q) && o < p && q < c ==>
          !Fits(l[o], l[p]))
  }

  /** Openers are matched from left to right. */
  ghost predicate MatchedBefore(l: seq<Node>, ii: nat) {
    forall i :: ii <= i < |l| ==> !MatchedOpen(l[i])
  }

  lemma {:induction false} PairUnsplit(l: seq<Node>, k: nat, a: Size, b: Size, o: int, c: int)
    returns (o': int, c': int)
    requires k < |l| && l[k].Marker? && l[k].id < 0 && Pair(Split(l, k, a, b), o, c)
    ensures Pair(l, o', c') && o' == (if o < k then o else o - 2) && c' == (if c < k then c else c - 2)
    ensures o' != k && c' != k && l[o'] == Split(l, k, a, b)[o] && l[c'] == Split(l, k, a, b)[c]
  {
    o', c' := if o < k then o else o - 2, if c < k then c else c - 2;
  }

  lemma {:induction false} FirstFitSplit(l: seq<Node>, k: nat, a: Size, b: Size)
    requires FirstFit(l) && k < |l| && l[k].Marker?
    requires LiveOpen(l[k]) || (LiveClose(l[k]) && l[k].size == 3)
    ensures FirstFit(Split(l, k, a, b))
  {
    var r := Split(l, k, a, b);
    forall o, c, j | Pair(r, o, c) && o < j < c && LiveClose(r[j]) ensures !Fits(r[o], r[j]) && r[j].size != 3 {
      var o', c' := PairUnsplit(l, k, a, b, o, c);
      assert o' < k < c' ==> !LiveClose(l[k]);
      var j' := if j < k then j else j - 2;
      assert LiveClose(l[j']);
    }
    forall o, c, p, q | Pair(r, o, c) && Pair(r, p, q) && o < p && q < c ensures !Fits(r[o], r[p]) {
      var o', c' := PairUnsplit(l, k, a, b, o, c);
      var p', q' := PairUnsplit(l, k, a, b, p, q);
    }
  }

  lemma {:induction false} FirstFitLink(s: State)
    requires Inv(s) && FirstFit(s.list) && MatchedBefore(s.list, s.ii) && AtLiveCloser(s)
    requires Fits(s.list[s.ii], s.list[s.iii])
    ensures FirstFit(Link(s.list, s.ii, s.iii, s.next))
  {
    hide Linked, Searched;
    var l, r := s.list, Link(s.list, s.ii, s.iii, s.next);
    NewPairOnly(s);
    forall o, c, j | Pair(r, o, c) && o < j < c && LiveClose(r[j]) ensures !Fits(r[o], r[j]) && r[j].size != 3 {
      assert LiveClose(l[j]);
      if o == s.ii {
        assert Settled(l[s.ii], l[j]);
      }
    }
    forall o, c, p, q | Pair(r, o, c) && Pair(r, p, q) && o < p && q < c ensures !Fits(r[o], r[p]) {
      assert p < s.ii || p == s.ii;
      if p == s.ii {
        assert Pair(l, o, c) && LiveClose(l[s.iii]);
      }
    }
  }

  /** Linking adds one pair; all openers of pairs are now at or before `ii`. */
  lemma {:induction false} NewPairOnly(s: State)
    requires Inv(s) && MatchedBefore(s.list, s.ii) && AtLiveCloser(s) && Fits(s.list[s.ii], s.list[s.iii])
    ensures forall o, c :: Pair(Link(s.list, s.ii, s.iii, s.next), o, c) ==>
      (o == s.ii && c == s.iii) || (Pair(s.list, o, c) && o < s.ii && c != s.iii)
  {
    var l, r := s.list, Link(s.list, s.ii, s.iii, s.next);
    LinkedLink(l, s.next, s.ii, s.iii);
    forall o, c | Pair(r, o, c) ensures (o == s.ii && c == s.iii) || (Pair(l, o, c) && o < s.ii && c != s.iii) {
      if r[o].id == s.next {
        assert o == s.ii && c == s.iii;
      } else {
        assert Mates(l, o, c) && MatchedOpen(l[o]);
      }
    }
  }

  lemma {:induction false} StepKeepsFirstFit(s: State)
    requires Inv(s) && FirstFit(s.list) && MatchedBefore(s.list, s.ii)
    ensures FirstFit(Step(s).list) && MatchedBefore(Step(s).list, Step(s).ii)
  {
    hide Linked, FirstFit, Searched;
    if AtLiveCloser(s) {
      var o, c := s.list[s.ii], s.list[s.iii];
      if c.size == 3 && o.size != 3 {
        FirstFitSplit(s.list, s.iii, 3 - o.size, o.size);
      } else if Fits(o, c) {
        FirstFitLink(s);
      } else if o.size == 3 {
        FirstFitSplit(s.list, s.ii, 3 - c.size, c.size);
      }
    }
  }

  lemma {:induction false} UntouchedFirstFit(l: seq<Node>)
    requires Untouched(l)
    ensures FirstFit(l) && MatchedBefore(l, 0)
  {
  }

  lemma {:induction false} RunKeepsFirstFit(l: seq<Node>, n: nat)
    requires Untouched(l)
    ensures var s := Run(Start(l), n); FirstFit(s.list) && MatchedBefore(s.list, s.ii)
  {
    hide FirstFit, MatchedBefore, Inv, Step, Untouched;
    if n == 0 {
      UntouchedFirstFit(l);
    } else {
      RunKeepsFirstFit(l, n - 1);
      RunKeepsInv(l, n - 1);
      StepKeepsFirstFit(Run(Start(l), n - 1));
    }
  }
}
