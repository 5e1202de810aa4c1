/**
 * Emphasis markers as the program holds them: objects that point at each other, in a list that
 * is spliced while it is walked.  Every method is proved to run the machines of `EmphasisSpec`
 * and `EmphasisNesting`, so everything proved there holds of the objects.
 */
module Emphasis {
  import opened EmphasisSpec
  import opened EmphasisTermination
  import opened EmphasisNesting

  class BoldOrItalicMarker {
    const openMarker: bool
    const tokenCharacter: char
    const size: Size
    var match_: BoldOrItalicMarker?
    var cannotMatch: bool
    var disabled: bool
    var id: int

    constructor (open: bool, c: char, size: Size)
      ensures Node() == NewMarker(open, c, size) && match_ == null
    {
      this.openMarker, this.tokenCharacter, this.size := open, c, size;
      match_, cannotMatch, disabled, id := null, false, false, -1;
    }

    /** The marker as a value. */
    ghost function Node(): (n: Node)
      reads this
      ensures n.Marker?
    {
      Marker(openMarker, tokenCharacter, size, cannotMatch, disabled, id)
    }

    /** Being linked and having an id go together. */
    ghost predicate Valid()
      reads this
    {
      (match_ == null <==> id < 0) && id >= -1
    }

    /** What writing asserts: a linked marker stands for some tag. */
    ghost predicate Writable()
      reads this
    {
      Valid() && (match_ != null && !disabled ==> 1 <= size <= 3)
    }

    predicate IsUnmatchedOpenMarker()
      reads this
    {
      openMarker && match_ == null && !cannotMatch
    }

    predicate IsUnmatchedCloseMarker()
      reads this
    {
      !openMarker && match_ == null && !cannotMatch
    }

    predicate IsMatchedOpenMarker()
      reads this
    {
      openMarker && match_ != null
    }

    predicate IsMatchedCloseMarker()
      reads this
    {
      !openMarker && match_ != null
    }

    method Matched(m: BoldOrItalicMarker?, id: int := -1)
      modifies this`match_, this`id
      ensures match_ == m && this.id == id
    {
      this.match_, this.id := m, id;
    }

    method Disable()
      modifies this`cannotMatch, this`disabled
      ensures cannotMatch && disabled
    {
      cannotMatch, disabled := true, true;
    }

    method WriteAsHtml() returns (out: string)
      requires Writable()
      ensures out == Html(PiecesOf(Node()))
      ensures disabled ==> out == ""
      ensures !disabled && match_ == null ==> |out| == size && forall i :: 0 <= i < |out| ==> out[i] == tokenCharacter
      ensures !disabled && match_ != null && openMarker ==>
        out == if size == 1 then "<em>" else if size == 2 then "<strong>" else "<strong><em>"
      ensures !disabled && match_ != null && !openMarker ==>
        out == if size == 1 then "</em>" else if size == 2 then "</strong>" else "</em></strong>"
    {
      HtmlShort(PiecesOf(Node()));
      if disabled {
        out := "";
      } else if match_ != null {
        if openMarker {
          out := if size == 1 then "<em>" else if size == 2 then "<strong>" else "<strong><em>";
        } else {
          out := if size == 1 then "</em>" else if size == 2 then "</strong>" else "</em></strong>";
        }
      } else {
        out := Copies(tokenCharacter, size);
      }
    }
  }

  // ---------------------------------------------------------------------------------------
  // The list
  // ---------------------------------------------------------------------------------------

  datatype Token = TextToken(text: string) | MarkerToken(marker: BoldOrItalicMarker)

  ghost function Markers(ts: seq<Token>): set<BoldOrItalicMarker> {
    set i | 0 <= i < |ts| && ts[i].MarkerToken? :: ts[i].marker
  }

  ghost function NodeOf(t: Token): Node
    reads if t.MarkerToken? then {t.marker} else {}
  {
    if t.MarkerToken? then t.marker.Node() else Text(t.text)
  }

  /** The list as a value. */
  ghost function View(ts: seq<Token>): (l: seq<Node>)
    reads Markers(ts)
    ensures |l| == |ts| && forall i :: 0 <= i < |ts| ==> l[i] == NodeOf(ts[i])
  {
    seq(|ts|, i requires 0 <= i < |ts| reads Markers(ts) => NodeOf(ts[i]))
  }

  ghost predicate Distinct(ts: seq<Token>) {
    forall i, j :: 0 <= i < j < |ts| && ts[i].MarkerToken? && ts[j].MarkerToken? ==> ts[i].marker != ts[j].marker
  }

  /** The marker at `i` points at the marker of its mate in `l`. */
  ghost predicate PointsAtMate(ts: seq<Token>, l: seq<Node>, i: nat)
    requires i < |ts| == |l| && ts[i].MarkerToken?
    reads ts[i].marker
  {
    exists j :: Mates(l, i, j) && ts[j].MarkerToken? && ts[i].marker.match_ == ts[j].marker
  }

  /** Every marker is valid, and a linked one points at its mate in `l`. */
  ghost predicate Wired(ts: seq<Token>, l: seq<Node>)
    reads Markers(ts)
  {
    && |ts| == |l|
    && (forall i :: 0 <= i < |ts| && ts[i].MarkerToken? ==> ts[i].marker.Valid())
    && (forall i {:trigger PointsAtMate(ts, l, i)} ::
          0 <= i < |ts| && ts[i].MarkerToken? && ts[i].marker.match_ != null ==>
          PointsAtMate(ts, l, i))
  }

  /** The token list as the tokenizer has just built it. */
  ghost predicate JustBuilt(ts: seq<Token>)
    reads Markers(ts)
  {
    && Distinct(ts) && Untouched(View(ts))
    && forall i :: 0 <= i < |ts| && ts[i].MarkerToken? ==> ts[i].marker.match_ == null
  }

  lemma {:induction false} WiredSplit(ts: seq<Token>, l: seq<Node>, k: nat, a: Size, b: Size, r: seq<Token>)
    requires k < |ts| && Wired(ts, l) && l[k].Marker? && l[k].id < 0
    requires |r| == |ts| + 2 && r[..k + 1] == ts[..k + 1] && r[k + 3..] == ts[k + 1..]
    requires forall i :: k + 1 <= i <= k + 2 ==>
      r[i].MarkerToken? && r[i].marker.Valid() && r[i].marker.match_ == null
    ensures Wired(r, Split(l, k, a, b))
  {
    var new_l := Split(l, k, a, b);
    forall i | k + 3 <= i < |r| ensures r[i] == ts[i - 2] {
      assert r[k + 3..][i - k - 3] == ts[k + 1..][i - k - 3];
    }
    forall i | 0 <= i < k + 1 ensures r[i] == ts[i] {
      assert r[..k + 1][i] == ts[..k + 1][i];
    }
    forall i | 0 <= i < |r| && r[i].MarkerToken? && r[i].marker.match_ != null
      ensures PointsAtMate(r, new_l, i)
    {
      var i' := if i <= k then i else i - 2;
      assert PointsAtMate(ts, l, i');
      var j' :| Mates(l, i', j') && ts[j'].MarkerToken? && ts[i'].marker.match_ == ts[j'].marker;
      var j := if j' <= k then j' else j' + 2;
      assert Mates(new_l, i, j) && r[j] == ts[j'];
    }
  }

  lemma {:induction false} ViewSplit(ts: seq<Token>, l: seq<Node>, k: nat, a: Size, b: Size, r: seq<Token>)
    requires k < |ts| == |l| && l[k].Marker? && View(ts) == l[k := l[k].(cannotMatch := true, disabled := true)]
    requires |r| == |ts| + 2 && r[..k + 1] == ts[..k + 1] && r[k + 3..] == ts[k + 1..]
    requires NodeOf(r[k + 1]) == NewMarker(l[k].open, l[k].ch, a)
    requires NodeOf(r[k + 2]) == NewMarker(l[k].open, l[k].ch, b)
    ensures View(r) == Split(l, k, a, b)
  {
    forall i | 0 <= i < |r| ensures View(r)[i] == Split(l, k, a, b)[i] {
      if i <= k {
        assert r[..k + 1][i] == ts[..k + 1][i];
      } else if i > k + 2 {
        assert r[k + 3..][i - k - 3] == ts[k + 1..][i - k - 3];
      }
    }
  }

  /** Disables the marker at `k` and splices two new markers in after it. */
  method SplitMarker(ts: seq<Token>, k: nat, a: Size, b: Size) returns (r: seq<Token>)
    requires k < |ts| && ts[k].MarkerToken? && ts[k].marker.match_ == null
    requires Distinct(ts) && Wired(ts, View(ts))
    modifies ts[k].marker
    ensures View(r) == Split(old(View(ts)), k, a, b)
    ensures Distinct(r) && Wired(r, View(r))
    ensures forall m :: m in Markers(r) ==> m in Markers(ts) || fresh(m)
    ensures |r| == |ts| + 2 && r[..k + 1] == ts[..k + 1]
  {
    hide Split, Markers;
    ghost var l := View(ts);
    var m := ts[k].marker;
    var x, y := DisableAndRenew(ts, k, a, b);
    r := ts[..k + 1] + [MarkerToken(x), MarkerToken(y)] + ts[k + 1..];
    SplitKeepsMarkers(ts, k, x, y, r);
    WiredSplit(ts, l, k, a, b, r);
    ViewSplit(ts, l, k, a, b, r);
  }

  method DisableAndRenew(ts: seq<Token>, k: nat, a: Size, b: Size)
    returns (x: BoldOrItalicMarker, y: BoldOrItalicMarker)
    requires k < |ts| && ts[k].MarkerToken? && ts[k].marker.match_ == null
    requires Distinct(ts) && Wired(ts, View(ts))
    modifies ts[k].marker
    ensures var l := old(View(ts));
      && l[k].Marker?
      && View(ts) == l[k := l[k].(cannotMatch := true, disabled := true)]
      && x.Node() == NewMarker(l[k].open, l[k].ch, a) && x.match_ == null
      && y.Node() == NewMarker(l[k].open, l[k].ch, b) && y.match_ == null
    ensures Wired(ts, old(View(ts)))
    ensures fresh(x) && fresh(y) && x != y && x !in Markers(ts) && y !in Markers(ts)
  {
    ghost var l := View(ts);
    var m := ts[k].marker;
    assert l[k] == m.Node();
    m.Disable();
    assert View(ts) == l[k := l[k].(cannotMatch := true, disabled := true)];
    forall i | 0 <= i < |ts| && ts[i].MarkerToken? && ts[i].marker.match_ != null ensures PointsAtMate(ts, l, i) {
      assert old(PointsAtMate(ts, l, i));
    }
    x := new BoldOrItalicMarker(m.openMarker, m.tokenCharacter, a);
    y := new BoldOrItalicMarker(m.openMarker, m.tokenCharacter, b);
  }

  lemma {:induction false} SplitKeepsMarkers(ts: seq<Token>, k: nat, x: BoldOrItalicMarker,
                                             y: BoldOrItalicMarker, r: seq<Token>)
    requires k < |ts| && Distinct(ts) && x !in Markers(ts) && y !in Markers(ts) && x != y
    requires r == ts[..k + 1] + [MarkerToken(x), MarkerToken(y)] + ts[k + 1..]
    ensures Distinct(r) && Markers(r) == Markers(ts) + {x, y}
    ensures r[..k + 1] == ts[..k + 1] && r[k + 3..] == ts[k + 1..]
  {
    assert forall i {:trigger r[i]} :: k + 3 <= i < |r| ==> r[i] == ts[i - 2];
    forall i, j | 0 <= i < j < |r| && r[i].MarkerToken? && r[j].MarkerToken? ensures r[i].marker != r[j].marker {
    }
    forall m | m in Markers(ts) ensures m in Markers(r) {
      var i :| 0 <= i < |ts| && ts[i].MarkerToken? && ts[i].marker == m;
      assert r[if i <= k then i else i + 2].marker == m;
    }
    assert r[k + 1].marker == x && r[k + 2].marker == y;
  }

  /** Points two markers at each other and gives both the same id. */
  method LinkMarkers(ts: seq<Token>, o: nat, c: nat, id: nat)
    requires o < c < |ts| && ts[o].MarkerToken? && ts[c].MarkerToken?
    requires ts[o].marker.match_ == null && ts[c].marker.match_ == null
    requires Distinct(ts) && Wired(ts, View(ts))
    modifies ts[o].marker, ts[c].marker
    ensures View(ts) == Link(old(View(ts)), o, c, id)
    ensures Wired(ts, View(ts))
  {
    ghost var l := View(ts);
    ghost var r := Link(l, o, c, id);
    ts[o].marker.Matched(ts[c].marker, id);
    ts[c].marker.Matched(ts[o].marker, id);
    assert View(ts) == r;
    forall i | 0 <= i < |ts| && ts[i].MarkerToken? && ts[i].marker.match_ != null
      ensures PointsAtMate(ts, r, i)
    {
      if i == o {
        assert Mates(r, o, c);
      } else if i == c {
        assert Mates(r, c, o);
      } else {
        assert old(PointsAtMate(ts, l, i));
        var j :| Mates(l, i, j) && ts[j].MarkerToken? && ts[i].marker.match_ == ts[j].marker;
        assert Mates(r, i, j);
      }
    }
  }

  /**
   * The matching pass.  It ends exactly if it meets no clash, so `Finishes` is what its callers
   * owe it; `UniformTriplesFinish` gives a condition that can be read off the tokens.
   */
  method MatchMarkers(ts: seq<Token>) returns (tgt: seq<Token>)
    requires JustBuilt(ts) && Finishes(View(ts))
    modifies Markers(ts)
    ensures View(tgt) == EmphasisTermination.Matched(old(View(ts)))
    ensures Distinct(tgt) && Wired(tgt, View(tgt)) && forall m :: m in Markers(tgt) ==> m in Markers(ts) || fresh(m)
  {
    hide Wired, Distinct, Linked;
    ghost var l := View(ts);
    ghost var end: nat :| Done(Run(Start(l), end));
    ghost var n: nat := 0;
    BuiltIsWired(ts);
    tgt := ts;
    var id := 0;
    var ii := 0;
    while ii < |tgt|
      invariant Distinct(tgt) && Wired(tgt, View(tgt)) && forall m :: m in Markers(tgt) ==> m in Markers(ts) || fresh(m)
      invariant ii <= |tgt| && id >= 0 && Run(Start(l), n) == AtOpener(View(tgt), ii, id)
      decreases end - n
    {
      NotDoneYet(l, n, end);
      MarkerState(tgt, ii);
      n := n + 1;
      if tgt[ii].MarkerToken? && tgt[ii].marker.IsUnmatchedOpenMarker() {
        tgt, id, n := MatchOpener(l, n, end, tgt, ii, id);
      }
      ii := ii + 1;
    }
    MatchedIs(l, n);
  }

  lemma {:induction false} BuiltIsWired(ts: seq<Token>)
    requires JustBuilt(ts)
    ensures Wired(ts, View(ts))
  {
    forall i | 0 <= i < |ts| && ts[i].MarkerToken? ensures ts[i].marker.Valid() {
      assert View(ts)[i] == ts[i].marker.Node();
    }
  }

  /** What the program reads off the pointers is what the machine reads off the ids. */
  lemma {:induction false} MarkerState(ts: seq<Token>, i: nat)
    requires i < |ts| && Wired(ts, View(ts))
    ensures View(ts)[i] == NodeOf(ts[i])
    ensures ts[i].MarkerToken? ==> ts[i].marker in Markers(ts)
    ensures ts[i].MarkerToken? ==> (ts[i].marker.match_ == null <==> View(ts)[i].id < 0)
  {
  }

  /** One turn of the inner loop, case by case. */
  lemma {:induction false} ScanStep(s: State)
    requires Ok(s) && s.AtCloser? && s.iii < |s.list|
    ensures var t, o, c := Step(s), s.list[s.ii], s.list[s.iii];
      if !LiveClose(c) then t == AtCloser(s.list, s.ii, s.iii + 1, s.next)
      else if c.size == 3 && o.size != 3 then
        t == AtCloser(Split(s.list, s.iii, 3 - o.size, o.size), s.ii, s.iii + 1, s.next)
      else if Fits(o, c) then t == AtOpener(Link(s.list, s.ii, s.iii, s.next), s.ii + 1, s.next + 1)
      else if o.size == 3 then t == AtOpener(Split(s.list, s.ii, 3 - c.size, c.size), s.ii + 1, s.next)
      else t == AtCloser(s.list, s.ii, s.iii + 1, s.next)
  {
    hide Split, Link;
  }

  lemma {:induction false} RunNext(l: seq<Node>, n: nat)
    ensures Ok(Run(Start(l), n)) && Run(Start(l), n + 1) == Step(Run(Start(l), n))
  {
    hide Step;
  }

  /** The body of the inner loop, at an unmatched closer; `done` is set where it breaks off. */
  method MatchCloser(ts: seq<Token>, ii: nat, iii: nat, id0: nat) returns (tgt: seq<Token>, id: nat, done: bool)
    requires Distinct(ts) && Wired(ts, View(ts)) && ii < iii < |ts| && Ok(AtCloser(View(ts), ii, iii, id0))
    requires ts[ii].MarkerToken? && ts[iii].MarkerToken? && ts[iii].marker.IsUnmatchedCloseMarker()
    modifies Markers(ts)
    ensures Distinct(tgt) && Wired(tgt, View(tgt)) && forall m :: m in Markers(tgt) ==> m in Markers(ts) || fresh(m)
    ensures ii < |tgt| && (!done ==> iii < |tgt| && tgt[ii] == ts[ii])
    ensures Step(AtCloser(old(View(ts)), ii, iii, id0)) ==
      if done then AtOpener(View(tgt), ii + 1, id) else AtCloser(View(tgt), ii, iii + 1, id)
    ensures var o, c := ts[ii].marker, ts[iii].marker;
      id == if o.tokenCharacter == c.tokenCharacter && o.size == c.size then id0 + 1 else id0
  {
    hide Wired, Distinct, Linked, Split, Link, Step, Markers;
    tgt, id, done := ts, id0, false;
    var openToken, closeToken := ts[ii].marker, ts[iii].marker;
    MarkerState(tgt, ii);
    MarkerState(tgt, iii);
    ScanStep(AtCloser(View(tgt), ii, iii, id));
    if closeToken.size == 3 && openToken.size != 3 {
      tgt := SplitMarker(tgt, iii, closeToken.size - openToken.size, openToken.size);
    } else if closeToken.tokenCharacter == openToken.tokenCharacter && closeToken.size == openToken.size {
      LinkMarkers(tgt, ii, iii, id);
      id := id + 1;
      done := true;
    } else if openToken.size == 3 {
      tgt := SplitMarker(tgt, ii, openToken.size - closeToken.size, closeToken.size);
      done := true;
    }
  }

  /** The inner loop: looks for a closer for the opener at `ii`. */
  method MatchOpener(ghost l: seq<Node>, ghost n0: nat, ghost end: nat, ts: seq<Token>, ii: nat, id0: nat)
    returns (tgt: seq<Token>, id: nat, ghost n: nat)
    requires Distinct(ts) && Wired(ts, View(ts)) && ii < |ts| && ts[ii].MarkerToken?
    requires Run(Start(l), n0) == AtCloser(View(ts), ii, ii + 1, id0)
    requires Done(Run(Start(l), end)) && n0 <= end
    modifies Markers(ts)
    ensures Distinct(tgt) && Wired(tgt, View(tgt)) && forall m :: m in Markers(tgt) ==> m in Markers(ts) || fresh(m)
    ensures n0 < n && ii < |tgt| && Run(Start(l), n) == AtOpener(View(tgt), ii + 1, id)
  {
    hide Wired, Distinct, Linked, Step, Run, Markers;
    n := n0;
    tgt, id := ts, id0;
    var openToken := ts[ii].marker;
    var iii := ii + 1;
    while iii < |tgt|
      invariant Distinct(tgt) && Wired(tgt, View(tgt)) && forall m :: m in Markers(tgt) ==> m in Markers(ts) || fresh(m)
      invariant ii < iii <= |tgt| && tgt[ii] == MarkerToken(openToken) && n0 <= n
      invariant Run(Start(l), n) == AtCloser(View(tgt), ii, iii, id)
      decreases end - n
    {
      NotDoneYet(l, n, end);
      RunNext(l, n);
      n := n + 1;
      if tgt[iii].MarkerToken? && tgt[iii].marker.IsUnmatchedCloseMarker() {
        var done;
        tgt, id, done := MatchCloser(tgt, ii, iii, id);
        if done {
          return;
        }
      } else {
        MarkerState(tgt, iii);
        ScanStep(AtCloser(View(tgt), ii, iii, id));
      }
      iii := iii + 1;
    }
    ScanEnd(l, n);
    n := n + 1;
  }

  lemma {:induction false} ScanEnd(l: seq<Node>, n: nat)
    requires var s := Run(Start(l), n); s.AtCloser? && s.iii == |s.list|
    ensures var s := Run(Start(l), n); Run(Start(l), n + 1) == AtOpener(s.list, s.ii + 1, s.next)
  {
  }

  lemma {:induction false} NotDoneYet(l: seq<Node>, n: nat, end: nat)
    requires Done(Run(Start(l), end)) && !Done(Run(Start(l), n))
    ensures n < end
  {
    if end <= n {
      DoneStays(Start(l), end, n);
    }
  }

  // ---------------------------------------------------------------------------------------
  // The unmatching pass
  // ---------------------------------------------------------------------------------------

  /** The stack of the program holds the markers at the positions in `at`. */
  ghost predicate StackIs(ts: seq<Token>, stack: seq<BoldOrItalicMarker>, at: seq<nat>) {
    && |stack| == |at|
    && forall i :: 0 <= i < |at| ==> at[i] < |ts| && ts[at[i]] == MarkerToken(stack[i])
  }

  /** `top()` is called on a non-empty stack only, and its marker is linked. */
  method UnmatchCrossed(ts: seq<Token>, ghost next: nat)
    requires Distinct(ts) && Wired(ts, View(ts)) && Linked(View(ts), next)
    modifies Markers(ts)
    ensures View(ts) == KeepUncrossed(old(View(ts)), |ts|)
    ensures forall i :: 0 <= i < |ts| && ts[i].MarkerToken? ==> ts[i].marker.Valid()
  {
    hide Crossed, KeepUncrossed, Linked, Distinct, NestStep, Markers;
    ghost var l := View(ts);
    ghost var at: seq<nat> := [];
    var openMatches: seq<BoldOrItalicMarker> := [];
    var ii := 0;
    NestStart(l, next);
    while ii < |ts|
      invariant ii <= |ts| && NestInv(l, Nest(View(ts), at, ii))
      invariant Wired(ts, l) && StackIs(ts, openMatches, at)
    {
      ghost var s := Nest(View(ts), at, ii);
      NestStepKeeps(l, next, s);
      KeepUnlinks(l, ii);
      at := NestStep(s).stack;
      openMatches := UnmatchAt(l, next, s, ts, ii, openMatches);
      ii := ii + 1;
    }
  }

  lemma {:induction false} NestStart(l: seq<Node>, next: nat)
    ensures KeepUncrossed(l, 0) == l && NestInv(l, Nest(l, [], 0))
  {
    forall o, c ensures !(Pair(l, o, c) && o < 0) {
    }
  }

  /** `now` is `l` with some markers unlinked. */
  ghost predicate Unlinking(l: seq<Node>, now: seq<Node>) {
    |now| == |l| && forall i :: 0 <= i < |l| ==> now[i] == l[i] || (l[i].Marker? && now[i] == l[i].(id := -1))
  }

  lemma {:induction false} KeepUnlinks(l: seq<Node>, k: nat)
    ensures Unlinking(l, KeepUncrossed(l, k))
  {
  }

  /** The body of the loop, at position `s.k`. */
  method UnmatchAt(ghost l: seq<Node>, ghost next: nat, ghost s: Nest, ts: seq<Token>, k: nat,
                   openMatches: seq<BoldOrItalicMarker>)
    returns (r: seq<BoldOrItalicMarker>)
    requires Linked(l, next) && Distinct(ts) && Wired(ts, l) && k < |ts| && Unlinking(l, View(ts))
    requires s == Nest(View(ts), s.stack, k) && InRange(s) && TopExists(s)
    requires StackIs(ts, openMatches, s.stack)
    modifies Markers(ts)
    ensures Wired(ts, l) && View(ts) == NestStep(s).list && StackIs(ts, r, NestStep(s).stack)
  {
    hide Linked, Wired;
    r := openMatches;
    MarkerNow(ts, l, k);
    if ts[k].MarkerToken? && ts[k].marker.IsMatchedOpenMarker() {
      r := r + [ts[k].marker];
    } else if ts[k].MarkerToken? && ts[k].marker.IsMatchedCloseMarker() {
      assert NodeOf(ts[s.stack[|s.stack| - 1]]) == s.list[s.stack[|s.stack| - 1]];
      if ts[k].marker.id != r[|r| - 1].id {
        UnlinkPair(l, next, ts, k);
      } else {
        r := r[..|r| - 1];
        r := PopWhileUnmatched(l, ts, s.stack[..|s.stack| - 1], r);
      }
    }
  }

  lemma {:induction false} MarkerNow(ts: seq<Token>, l: seq<Node>, i: nat)
    requires i < |ts| && Wired(ts, l)
    ensures View(ts)[i] == NodeOf(ts[i])
    ensures ts[i].MarkerToken? ==> ts[i].marker in Markers(ts)
    ensures ts[i].MarkerToken? ==> (ts[i].marker.match_ == null <==> View(ts)[i].id < 0)
  {
  }

  lemma {:induction false} PopOne(l: seq<Node>, at: seq<nat>)
    requires InRange(Nest(l, at, 0)) && at != []
    ensures PopUnmatched(l, at) == if l[at[|at| - 1]].id < 0 then PopUnmatched(l, at[..|at| - 1]) else at
  {
  }

  lemma {:induction false} StackShorter(ts: seq<Token>, l: seq<Node>, stack: seq<BoldOrItalicMarker>, at: seq<nat>)
    requires StackIs(ts, stack, at) && stack != [] && InRange(Nest(l, at, 0))
    ensures StackIs(ts, stack[..|stack| - 1], at[..|at| - 1]) && InRange(Nest(l, at[..|at| - 1], 0))
    ensures at[|at| - 1] < |ts| && ts[at[|at| - 1]] == MarkerToken(stack[|stack| - 1])
  {
  }

  method PopWhileUnmatched(ghost l: seq<Node>, ts: seq<Token>, ghost at0: seq<nat>, stack: seq<BoldOrItalicMarker>)
    returns (r: seq<BoldOrItalicMarker>)
    requires Wired(ts, l) && StackIs(ts, stack, at0) && InRange(Nest(View(ts), at0, 0))
    ensures StackIs(ts, r, PopUnmatched(View(ts), at0))
  {
    hide Wired, PopUnmatched, StackIs, InRange;
    ghost var at, now := at0, View(ts);
    r := stack;
    StackSizes(ts, r, at);
    while r != [] && r[|r| - 1].match_ == null
      invariant StackIs(ts, r, at) && InRange(Nest(now, at, 0)) && |r| == |at|
      invariant PopUnmatched(now, at) == PopUnmatched(now, at0)
      invariant Wired(ts, l) && View(ts) == now
      decreases |r|
    {
      StackShorter(ts, now, r, at);
      MarkerNow(ts, l, at[|at| - 1]);
      PopOne(now, at);
      r, at := r[..|r| - 1], at[..|at| - 1];
    }
    if r != [] {
      StackShorter(ts, now, r, at);
      MarkerNow(ts, l, at[|at| - 1]);
      PopOne(now, at);
    } else {
      PopNone(now);
    }
  }

  lemma {:induction false} PopNone(l: seq<Node>)
    ensures InRange(Nest(l, [], 0)) && PopUnmatched(l, []) == []
  {
  }

  lemma {:induction false} StackSizes(ts: seq<Token>, stack: seq<BoldOrItalicMarker>, at: seq<nat>)
    requires StackIs(ts, stack, at)
    ensures |stack| == |at|
  {
  }

  /** Unlinks the closer at `k` and the marker it points at. */
  method UnlinkPair(ghost l: seq<Node>, ghost next: nat, ts: seq<Token>, k: nat)
    requires Linked(l, next) && Distinct(ts) && Wired(ts, l) && Unlinking(l, View(ts))
    requires k < |ts| && ts[k].MarkerToken? && ts[k].marker.match_ != null
    modifies Markers(ts)
    ensures Wired(ts, l) && View(ts) == Clear(old(View(ts)), old(ts[k].marker.id))
  {
    hide Linked, Mates;
    ghost var was := View(ts);
    var close := ts[k].marker;
    ghost var j := MateOf(ts, l, k);
    OnlyMate(l, next, k, j);
    close.match_.Matched(null);
    close.Matched(null);
    forall i | 0 <= i < |ts| ensures View(ts)[i] == Clear(was, was[k].id)[i] {
    }
    forall i | 0 <= i < |ts| && ts[i].MarkerToken? && ts[i].marker.match_ != null ensures PointsAtMate(ts, l, i) {
      assert old(PointsAtMate(ts, l, i));
    }
  }

  lemma {:induction false} MateOf(ts: seq<Token>, l: seq<Node>, k: nat) returns (j: int)
    requires Wired(ts, l) && k < |ts| && ts[k].MarkerToken? && ts[k].marker.match_ != null
    ensures ts[k].marker.Valid() && |ts| == |l|
    ensures Mates(l, k, j) && ts[j].MarkerToken? && ts[k].marker.match_ == ts[j].marker
  {
    assert PointsAtMate(ts, l, k);
    j :| Mates(l, k, j) && ts[j].MarkerToken? && ts[k].marker.match_ == ts[j].marker;
  }

  lemma {:induction false} OnlyMate(l: seq<Node>, next: nat, k: int, j: int)
    requires Linked(l, next) && Mates(l, k, j)
    ensures forall i :: 0 <= i < |l| && l[i].Marker? && l[i].id == l[k].id ==> i == k || i == j
  {
    forall i | 0 <= i < |l| && l[i].Marker? && l[i].id == l[k].id ensures i == k || i == j {
      if i != k && i != j {
        assert Mates(l, if i < j then i else j, if i < j then j else i);
        assert Mates(l, if i < k then i else k, if i < k then k else i);
        assert Mates(l, if k < j then k else j, if k < j then j else k);
      }
    }
  }

  // ---------------------------------------------------------------------------------------
  // Both passes, and the HTML
  // ---------------------------------------------------------------------------------------

  /** The resolver from the token list on. */
  method Resolve(ts: seq<Token>) returns (tgt: seq<Token>)
    requires JustBuilt(ts) && Finishes(View(ts))
    modifies Markers(ts)
    ensures View(tgt) == Resolved(old(View(ts)))
    ensures forall i :: 0 <= i < |tgt| && tgt[i].MarkerToken? ==> tgt[i].marker.Writable()
  {
    ghost var l := View(ts);
    tgt := MatchMarkers(ts);
    MatchedIsSound(l);
    ghost var next: nat :| Linked(View(tgt), next);
    UnmatchCrossed(tgt, next);
    ResolvedIsSound(l);
    forall i | 0 <= i < |tgt| && tgt[i].MarkerToken? ensures tgt[i].marker.Writable() {
      assert View(tgt)[i] == tgt[i].marker.Node();
    }
  }

  method WriteTokens(ts: seq<Token>) returns (out: string)
    requires forall i :: 0 <= i < |ts| && ts[i].MarkerToken? ==> ts[i].marker.Writable()
    ensures out == Html(Pieces(View(ts), |ts|))
  {
    hide Html, PiecesOf;
    ghost var l := View(ts);
    out := "";
    HtmlShort([]);
    for i := 0 to |ts|
      invariant out == Html(Pieces(l, i)) && View(ts) == l
    {
      HtmlConcat(Pieces(l, i), PiecesOf(l[i]));
      var piece;
      if ts[i].MarkerToken? {
        piece := ts[i].marker.WriteAsHtml();
      } else {
        piece := ts[i].text;
        TextHtml(piece);
      }
      out := out + piece;
    }
  }

  lemma {:induction false} TextHtml(t: string)
    ensures Html(PiecesOf(Text(t))) == t
  {
    HtmlShort(PiecesOf(Text(t)));
  }
}
