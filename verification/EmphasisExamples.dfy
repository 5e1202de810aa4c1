/** Small texts with emphasis, from their tokens to their HTML. */
module EmphasisExamples {
  import opened EmphasisLaws
  import opened EmphasisNesting
  import opened EmphasisSpec
  import opened EmphasisTermination

  // ---------------------------------------------------------------------------------------
  // Runs
  // ---------------------------------------------------------------------------------------

  ghost predicate Reaches(s: State, t: State)
    requires Ok(s)
  {
    exists n: nat :: Run(s, n) == t
  }

  lemma {:induction false} ReachesItself(s: State)
    requires Ok(s)
    ensures Reaches(s, s)
  {
    assert Run(s, 0) == s;
  }

  lemma {:induction false} ReachesNext(s: State, t: State)
    requires Ok(s) && Reaches(s, t)
    ensures Ok(t) && Reaches(s, Step(t))
  {
    hide Step;
    var n: nat :| Run(s, n) == t;
    assert Run(s, n + 1) == Step(t);
  }

  /** The outer loop passes what is no free opener. */
  lemma {:induction false} PassesOthers(s: State, l: seq<Node>, ii: nat, goal: nat, next: nat)
    requires Ok(s) && ii <= goal <= |l| && Reaches(s, AtOpener(l, ii, next))
    requires forall j :: ii <= j < goal ==> !LiveOpen(l[j])
    ensures Reaches(s, AtOpener(l, goal, next))
    decreases goal - ii
  {
    hide Reaches;
    if ii < goal {
      ReachesNext(s, AtOpener(l, ii, next));
      PassesOthers(s, l, ii + 1, goal, next);
    }
  }

  /** The inner loop passes what is no free closer. */
  lemma {:induction false} LooksPast(s: State, l: seq<Node>, ii: nat, iii: nat, goal: nat, next: nat)
    requires Ok(s) && ii < iii <= goal <= |l| && LiveOpen(l[ii]) && Reaches(s, AtCloser(l, ii, iii, next))
    requires forall j :: iii <= j < goal ==> !LiveClose(l[j])
    ensures Reaches(s, AtCloser(l, ii, goal, next))
    decreases goal - iii
  {
    hide Reaches;
    if iii < goal {
      ReachesNext(s, AtCloser(l, ii, iii, next));
      LooksPast(s, l, ii, iii + 1, goal, next);
    }
  }

  /** The opener at `ii` is linked to the closer at `c`, the first that is free. */
  lemma {:induction false} LinksFirst(s: State, l: seq<Node>, ii: nat, iii: nat, c: nat, next: nat)
    requires Ok(s) && ii < iii <= c < |l| && LiveOpen(l[ii]) && Reaches(s, AtCloser(l, ii, iii, next))
    requires forall j :: iii <= j < c ==> !LiveClose(l[j])
    requires LiveClose(l[c]) && l[ii].ch == l[c].ch && l[ii].size == l[c].size
    ensures Reaches(s, AtOpener(Link(l, ii, c, next), ii + 1, next + 1))
  {
    hide Reaches, Link;
    LooksPast(s, l, ii, iii, c, next);
    ReachesNext(s, AtCloser(l, ii, c, next));
  }

  lemma {:induction false} ReachedEnd(l: seq<Node>, r: seq<Node>, next: nat)
    requires Untouched(l) && Reaches(Start(l), AtOpener(r, |r|, next))
    ensures Finishes(l) && Matched(l) == r
  {
    hide Step;
    var n: nat :| Run(Start(l), n) == AtOpener(r, |r|, next);
    MatchedIs(l, n);
  }

  lemma {:induction false} KeepsAll(l: seq<Node>, k: nat)
    requires NonCrossing(l)
    ensures KeepUncrossed(l, k) == l
  {
    hide Crossed;
    assert forall i {:trigger l[i]} :: 0 <= i < |l| && l[i].Marker? ==> !Dropped(l, l[i].id, k);
  }

  // ---------------------------------------------------------------------------------------
  // One marker of size 3 against two others
  // ---------------------------------------------------------------------------------------

  function Open(c: char, size: Size): Node {
    NewMarker(true, c, size)
  }

  function Close(c: char, size: Size): Node {
    NewMarker(false, c, size)
  }

  function Paired(open: bool, c: char, size: Size, id: nat): Node {
    Marker(open, c, size, false, false, id)
  }

  /** A marker of size 3 that has been split. */
  function Replaced(open: bool, c: char): Node {
    Marker(open, c, 3, true, true, -1)
  }

  /** `*a **b***`: the closer of size 3 is split so that the pairs nest. */
  lemma {:induction false} TripleCloses(c: char, a: string, b: string)
    ensures var l := [Open(c, 1), Text(a), Open(c, 2), Text(b), Close(c, 3)];
      && Finishes(l)
      && Html(Pieces(Resolved(l), |Resolved(l)|)) == "<em>" + a + "<strong>" + b + "</strong></em>"
  {
    var l := [Open(c, 1), Text(a), Open(c, 2), Text(b), Close(c, 3)];
    TripleClosesRuns(c, a, b);
    var r := ClosedList(c, a, b);
    ReachedEnd(l, r, 2);
    ClosedNest(c, a, b);
    KeepsAll(r, |r|);
    ClosedHtml(c, a, b);
  }

  /** The list after the matching pass. */
  function ClosedList(c: char, a: string, b: string): seq<Node> {
    [Paired(true, c, 1, 0), Text(a), Paired(true, c, 2, 1), Text(b),
     Replaced(false, c), Paired(false, c, 2, 1), Paired(false, c, 1, 0)]
  }

  lemma {:induction false} TripleClosesRuns(c: char, a: string, b: string)
    ensures var l := [Open(c, 1), Text(a), Open(c, 2), Text(b), Close(c, 3)];
      Reaches(Start(l), AtOpener(ClosedList(c, a, b), 7, 2))
  {
    hide Reaches;
    var l := [Open(c, 1), Text(a), Open(c, 2), Text(b), Close(c, 3)];
    var s := Start(l);
    ReachesItself(s);
    ReachesNext(s, AtOpener(l, 0, 0));
    LooksPast(s, l, 0, 1, 4, 0);
    ReachesNext(s, AtCloser(l, 0, 4, 0));
    var m := Split(l, 4, 2, 1);
    assert m == [Open(c, 1), Text(a), Open(c, 2), Text(b), Replaced(false, c),
                 Close(c, 2), Close(c, 1)];
    ReachesNext(s, AtCloser(m, 0, 5, 0));
    LinksFirst(s, m, 0, 6, 6, 0);
    var n := Link(m, 0, 6, 0);
    PassesOthers(s, n, 1, 2, 1);
    ReachesNext(s, AtOpener(n, 2, 1));
    LinksFirst(s, n, 2, 3, 5, 1);
    assert Link(n, 2, 5, 1) == ClosedList(c, a, b);
    PassesOthers(s, ClosedList(c, a, b), 3, 7, 2);
  }

  lemma {:induction false} ClosedNest(c: char, a: string, b: string)
    ensures NonCrossing(ClosedList(c, a, b))
  {
    var r := ClosedList(c, a, b);
    assert forall o, d :: Pair(r, o, d) ==> (o == 0 && d == 6) || (o == 2 && d == 5);
  }

  lemma {:induction false} ClosedHtml(c: char, a: string, b: string)
    ensures Html(Pieces(ClosedList(c, a, b), 7)) == "<em>" + a + "<strong>" + b + "</strong></em>"
  {
    hide Html, Pieces, PiecesOf;
    var r := ClosedList(c, a, b);
    ClosedFront(c, a, b);
    WrittenFrom(r, 4);
    WrittenFrom(r, 5);
    WrittenFrom(r, 6);
    TwoTags("<em>" + a + "<strong>" + b, "</strong>", "</em>");
  }

  lemma {:induction false} ClosedFront(c: char, a: string, b: string)
    ensures Written(ClosedList(c, a, b), 4) == "<em>" + a + "<strong>" + b
  {
    hide Html, Pieces, PiecesOf;
    var r := ClosedList(c, a, b);
    NothingWritten(r);
    WrittenFrom(r, 0);
    WrittenFrom(r, 1);
    WrittenFrom(r, 2);
    WrittenFrom(r, 3);
  }

  lemma {:induction false} NothingWritten(l: seq<Node>)
    ensures Written(l, 0) == ""
  {
  }

  lemma {:induction false} TwoTags(t: string, x: string, y: string)
    ensures t + "" + x + y == t + (x + y)
  {
  }

  lemma {:induction false} WrittenFrom(l: seq<Node>, k: nat)
    requires k < |l|
    ensures Written(l, k + 1) == Written(l, k) + match l[k]
      case Text(t) => t
      case Marker(open, ch, size, _, disabled, id) =>
        if disabled then ""
        else if id < 0 then Copies(ch, size)
        else if open then (if size == 1 then "<em>" else if size == 2 then "<strong>" else "<strong><em>")
        else (if size == 1 then "</em>" else if size == 2 then "</strong>" else "</em></strong>")
  {
    hide Html, PiecesOf;
    WrittenNext(l, k);
    NodeWrites(l[k]);
  }

  /** `***a* b**`: the opener of size 3 is split, and the pairs nest again. */
  lemma {:induction false} TripleOpens(c: char, a: string, b: string)
    ensures var l := [Open(c, 3), Text(a), Close(c, 1), Text(b), Close(c, 2)];
      && Finishes(l)
      && Html(Pieces(Resolved(l), |Resolved(l)|)) == "<strong><em>" + a + "</em>" + b + "</strong>"
  {
    var l := [Open(c, 3), Text(a), Close(c, 1), Text(b), Close(c, 2)];
    TripleOpensRuns(c, a, b);
    var r := OpenedList(c, a, b);
    ReachedEnd(l, r, 2);
    OpenedNest(c, a, b);
    KeepsAll(r, |r|);
    OpenedHtml(c, a, b);
  }

  function OpenedList(c: char, a: string, b: string): seq<Node> {
    [Replaced(true, c), Paired(true, c, 2, 0), Paired(true, c, 1, 1), Text(a),
     Paired(false, c, 1, 1), Text(b), Paired(false, c, 2, 0)]
  }

  lemma {:induction false} TripleOpensRuns(c: char, a: string, b: string)
    ensures var l := [Open(c, 3), Text(a), Close(c, 1), Text(b), Close(c, 2)];
      Reaches(Start(l), AtOpener(OpenedList(c, a, b), 7, 2))
  {
    hide Reaches;
    var l := [Open(c, 3), Text(a), Close(c, 1), Text(b), Close(c, 2)];
    var s := Start(l);
    ReachesItself(s);
    ReachesNext(s, AtOpener(l, 0, 0));
    LooksPast(s, l, 0, 1, 2, 0);
    ReachesNext(s, AtCloser(l, 0, 2, 0));
    var m := Split(l, 0, 2, 1);
    assert m == [Replaced(true, c), Open(c, 2), Open(c, 1), Text(a), Close(c, 1), Text(b),
                 Close(c, 2)];
    ReachesNext(s, AtOpener(m, 1, 0));
    LooksPast(s, m, 1, 2, 4, 0);
    ReachesNext(s, AtCloser(m, 1, 4, 0));
    LinksFirst(s, m, 1, 5, 6, 0);
    var n := Link(m, 1, 6, 0);
    ReachesNext(s, AtOpener(n, 2, 1));
    LinksFirst(s, n, 2, 3, 4, 1);
    assert Link(n, 2, 4, 1) == OpenedList(c, a, b);
    PassesOthers(s, OpenedList(c, a, b), 3, 7, 2);
  }

  lemma {:induction false} OpenedNest(c: char, a: string, b: string)
    ensures NonCrossing(OpenedList(c, a, b))
  {
    var r := OpenedList(c, a, b);
    assert forall o, d :: Pair(r, o, d) ==> (o == 1 && d == 6) || (o == 2 && d == 4);
  }

  lemma {:induction false} OpenedHtml(c: char, a: string, b: string)
    ensures Html(Pieces(OpenedList(c, a, b), 7)) == "<strong><em>" + a + "</em>" + b + "</strong>"
  {
    hide Html, Pieces, PiecesOf;
    var r := OpenedList(c, a, b);
    NothingWritten(r);
    WrittenFrom(r, 0);
    WrittenFrom(r, 1);
    WrittenFrom(r, 2);
    WrittenFrom(r, 3);
    WrittenFrom(r, 4);
    WrittenFrom(r, 5);
    WrittenFrom(r, 6);
    assert Written(r, 3) == "<strong><em>";
  }
}
