/**
 * What the two passes promise, in terms of characters, sizes and literal tags: which markers are
 * paired, which are left alone, and what a pair writes.
 */
module EmphasisLaws {
  import opened EmphasisNesting
  import opened EmphasisSpec
  import opened EmphasisTermination

  // ---------------------------------------------------------------------------------------
  // Which markers are paired
  // ---------------------------------------------------------------------------------------

  /** An enabled opener without a mate. */
  predicate FreeOpener(n: Node) {
    n.Marker? && n.open && n.id < 0 && !n.disabled
  }

  /** An enabled closer without a mate. */
  predicate FreeCloser(n: Node) {
    n.Marker? && !n.open && n.id < 0 && !n.disabled
  }

  lemma {:induction false} FreeIsLive(l: seq<Node>, next: nat, i: nat)
    requires Linked(l, next) && i < |l|
    ensures FreeOpener(l[i]) <==> LiveOpen(l[i])
    ensures FreeCloser(l[i]) <==> LiveClose(l[i])
  {
    assert Sound(l[i], next);
  }

  /** An opener in front of a pair of its kind is not left alone. */
  ghost predicate OpenersFirst(l: seq<Node>) {
    forall o, c, i {:trigger Pair(l, o, c), LiveOpen(l[i])} :: Pair(l, o, c) && 0 <= i < o && LiveOpen(l[i]) ==>
      !Fits(l[i], l[o])
  }

  lemma {:induction false} PairsOpen(l: seq<Node>, next: nat)
    requires Linked(l, next)
    ensures forall o, c :: Pair(l, o, c) ==> MatchedOpen(l[o])
  {
  }

  lemma {:induction false} OpenersFirstSplit(l: seq<Node>, next: nat, k: nat, a: Size, b: Size)
    requires Linked(l, next) && OpenersFirst(l) && k < |l| && l[k].Marker? && l[k].id < 0
    requires LiveClose(l[k]) || MatchedBefore(l, k)
    ensures OpenersFirst(Split(l, k, a, b))
  {
    hide Linked;
    PairsOpen(l, next);
    var r := Split(l, k, a, b);
    forall o, c, i | Pair(r, o, c) && 0 <= i < o && LiveOpen(r[i]) ensures !Fits(r[i], r[o]) {
      var o', c' := PairUnsplit(l, k, a, b, o, c);
      var i' := if i < k then i else i - 2;
      assert MatchedBefore(l, k) ==> o' < k;
      if i < k || i > k + 2 {
        assert LiveOpen(l[i']);
      }
    }
  }

  lemma {:induction false} OpenersFirstLink(s: State)
    requires Inv(s) && OpenersFirst(s.list) && MatchedBefore(s.list, s.ii) && AtLiveCloser(s)
    requires Fits(s.list[s.ii], s.list[s.iii])
    ensures OpenersFirst(Link(s.list, s.ii, s.iii, s.next))
  {
    hide Linked, Searched;
    var l, r := s.list, Link(s.list, s.ii, s.iii, s.next);
    NewPairOnly(s);
    forall o, c, i | Pair(r, o, c) && 0 <= i < o && LiveOpen(r[i]) ensures !Fits(r[i], r[o]) {
      assert LiveOpen(l[i]);
      if o == s.ii {
        SettledBefore(s, i);
      }
    }
  }

  lemma {:induction false} SettledBefore(s: State, i: nat)
    requires Inv(s) && AtLiveCloser(s) && i < s.ii
    ensures Settled(s.list[i], s.list[s.iii])
  {
  }

  lemma {:induction false} StepKeepsOpenersFirst(s: State)
    requires Inv(s) && OpenersFirst(s.list) && MatchedBefore(s.list, s.ii)
    ensures OpenersFirst(Step(s).list)
  {
    hide Linked, OpenersFirst, Searched, Split;
    if AtLiveCloser(s) {
      var o, c := s.list[s.ii], s.list[s.iii];
      if c.size == 3 && o.size != 3 {
        OpenersFirstSplit(s.list, s.next, s.iii, 3 - o.size, o.size);
      } else if Fits(o, c) {
        OpenersFirstLink(s);
      } else if o.size == 3 {
        OpenersFirstSplit(s.list, s.next, s.ii, 3 - c.size, c.size);
      }
    }
  }

  lemma {:induction false} RunKeepsOpenersFirst(l: seq<Node>, n: nat)
    requires Untouched(l)
    ensures OpenersFirst(Run(Start(l), n).list)
  {
    hide FirstFit, Inv, Step;
    if n > 0 {
      RunKeepsOpenersFirst(l, n - 1);
      RunKeepsInv(l, n - 1);
      RunKeepsFirstFit(l, n - 1);
      StepKeepsOpenersFirst(Run(Start(l), n - 1));
    }
  }

  /** The markers of a pair are an opener and a later closer of one character and one size. */
  lemma {:induction false} PairsAreOfOneKind(l: seq<Node>)
    requires Untouched(l) && Finishes(l)
    ensures var m := Matched(l);
      forall o, c :: Pair(m, o, c) ==>
        o < c && m[o].open && !m[c].open && m[o].ch == m[c].ch && m[o].size == m[c].size
  {
    MatchedIsSound(l);
  }

  /** No opener is left alone with a later closer that it could be paired with or split against. */
  lemma {:induction false} NothingIsLeft(l: seq<Node>)
    requires Untouched(l) && Finishes(l)
    ensures var m := Matched(l);
      forall i, j :: 0 <= i < j < |m| && FreeOpener(m[i]) && FreeCloser(m[j]) ==>
        (m[i].ch != m[j].ch || m[i].size != m[j].size) && m[i].size != 3 && m[j].size != 3
  {
    MatchedIsSound(l);
    var m := Matched(l);
    var next: nat :| Linked(m, next);
    forall i, j | 0 <= i < j < |m| && FreeOpener(m[i]) && FreeCloser(m[j])
      ensures (m[i].ch != m[j].ch || m[i].size != m[j].size) && m[i].size != 3 && m[j].size != 3
    {
      FreeIsLive(m, next, i);
      FreeIsLive(m, next, j);
    }
  }

  /**
   * Openers are served from left to right, each with the first closer that will do: no free closer
   * and no pair of a pair's kind is inside it, and no free opener of its kind in front of it.
   */
  lemma {:induction false} FirstComesFirst(l: seq<Node>, o: int, c: int)
    requires Untouched(l) && Finishes(l) && Pair(Matched(l), o, c)
    ensures var m := Matched(l);
      && (forall j :: o < j < c && FreeCloser(m[j]) ==>
            (m[j].ch != m[o].ch || m[j].size != m[o].size) && m[j].size != 3)
      && (forall p, q :: Pair(m, p, q) && o < p && q < c ==> m[p].ch != m[o].ch || m[p].size != m[o].size)
      && (forall i :: 0 <= i < o && FreeOpener(m[i]) ==> m[i].ch != m[o].ch || m[i].size != m[o].size)
  {
    hide Step;
    MatchedIsSound(l);
    var m := Matched(l);
    var next: nat :| Linked(m, next);
    var n: nat :| Done(Run(Start(l), n)) && m == Run(Start(l), n).list;
    RunKeepsOpenersFirst(l, n);
    forall j | 0 <= j < |m|
      ensures FreeOpener(m[j]) <==> LiveOpen(m[j])
      ensures FreeCloser(m[j]) <==> LiveClose(m[j])
    {
      FreeIsLive(m, next, j);
    }
  }

  // ---------------------------------------------------------------------------------------
  // What is written
  // ---------------------------------------------------------------------------------------

  /** What the first `n` nodes write. */
  function Written(l: seq<Node>, n: nat): string
    requires n <= |l|
  {
    Html(Pieces(l, n))
  }

  /** What the nodes from `i` up to `j` write. */
  function Between(l: seq<Node>, i: nat, j: nat): string
    requires i <= j <= |l|
    decreases j - i
  {
    if i == j then "" else Between(l, i, j - 1) + Html(PiecesOf(l[j - 1]))
  }

  lemma {:induction false} WrittenSplits(l: seq<Node>, i: nat, j: nat)
    requires i <= j <= |l|
    ensures Written(l, j) == Written(l, i) + Between(l, i, j)
    decreases j - i
  {
    hide Html, PiecesOf;
    if i < j {
      WrittenSplits(l, i, j - 1);
      HtmlConcat(Pieces(l, j - 1), PiecesOf(l[j - 1]));
      var a, b, c := Written(l, i), Between(l, i, j - 1), Html(PiecesOf(l[j - 1]));
      assert a + (b + c) == a + b + c;
    }
  }

  /** Text writes itself, a free marker its characters, a disabled one nothing, and a linked one tags. */
  lemma {:induction false} NodeWrites(n: Node)
    ensures Html(PiecesOf(n)) == match n
      case Text(t) => t
      case Marker(open, ch, size, _, disabled, id) =>
        if disabled then ""
        else if id < 0 then Copies(ch, size)
        else if open then (if size == 1 then "<em>" else if size == 2 then "<strong>" else "<strong><em>")
        else (if size == 1 then "</em>" else if size == 2 then "</strong>" else "</em></strong>")
  {
    hide Html;
    HtmlShort(PiecesOf(n));
  }

  /** A pair writes its opening tags, what stands between, and its closing tags. */
  lemma {:induction false} PairWrites(l: seq<Node>, o: int, c: int)
    requires Untouched(l) && Finishes(l) && Pair(Resolved(l), o, c)
    ensures var r := Resolved(l);
      var before, inside, behind := Written(r, o), Between(r, o + 1, c), Between(r, c + 1, |r|);
      && 1 <= r[o].size <= 3
      && (r[o].size == 1 ==> Written(r, |r|) == before + "<em>" + inside + "</em>" + behind)
      && (r[o].size == 2 ==> Written(r, |r|) == before + "<strong>" + inside + "</strong>" + behind)
      && (r[o].size == 3 ==> Written(r, |r|) == before + "<strong><em>" + inside + "</em></strong>" + behind)
  {
    hide Html, PiecesOf, Written, Between, Resolved;
    var r := Resolved(l);
    PairIsEnabled(l, o, c);
    NodeWrites(r[o]);
    NodeWrites(r[c]);
    WrittenSplits(r, o + 1, c);
    WrittenSplits(r, c + 1, |r|);
    WrittenNext(r, o);
    WrittenNext(r, c);
  }

  lemma {:induction false} WrittenNext(l: seq<Node>, k: nat)
    requires k < |l|
    ensures Written(l, k + 1) == Written(l, k) + Html(PiecesOf(l[k]))
  {
    hide Html, PiecesOf;
    HtmlConcat(Pieces(l, k), PiecesOf(l[k]));
  }

  lemma {:induction false} PairIsEnabled(l: seq<Node>, o: int, c: int)
    requires Untouched(l) && Finishes(l) && Pair(Resolved(l), o, c)
    ensures var r := Resolved(l);
      && 1 <= r[o].size == r[c].size && r[o].open && !r[c].open && !r[o].disabled && !r[c].disabled
      && r[o].id >= 0 && r[c].id >= 0
  {
    hide Balanced, Crossed;
    var m, r := Matched(l), Resolved(l);
    MatchedIsSound(l);
    var next: nat :| Linked(m, next);
    KeepIsSound(m, next);
    ResolvedIsSound(l);
    assert Sound(r[o], next) && Sound(r[c], next);
  }
}
