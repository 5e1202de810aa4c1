/**
 * When the matching pass ends: unless it brings two size-3 markers of different characters
 * together, and then it never ends.  And what it leaves behind when it ends.
 */
module EmphasisTermination {
  import opened EmphasisSpec

  /** A size-3 opener is about to be split against a size-3 closer, into 0 and 3. */
  predicate Clash(s: State)
    requires Ok(s)
  {
    && AtLiveCloser(s)
    && s.list[s.ii].size == 3 && s.list[s.iii].size == 3
    && s.list[s.ii].ch != s.list[s.iii].ch
  }

  predicate NoEmptyMarkers(l: seq<Node>) {
    forall i :: 0 <= i < |l| && l[i].Marker? ==> l[i].size >= 1
  }

  predicate LiveTriple(n: Node) {
    (LiveOpen(n) || LiveClose(n)) && n.size == 3
  }

  function Triples(l: seq<Node>, n: nat): nat
    requires n <= |l|
  {
    if n == 0 then 0 else Triples(l, n - 1) + if LiveTriple(l[n - 1]) then 1 else 0
  }

  lemma {:induction false} TriplesMonotone(a: seq<Node>, b: seq<Node>, n: nat)
    requires n <= |a| && n <= |b| && forall i :: 0 <= i < n && LiveTriple(b[i]) ==> LiveTriple(a[i])
    ensures Triples(b, n) <= Triples(a, n)
  {
    if n > 0 {
      TriplesMonotone(a, b, n - 1);
    }
  }

  lemma {:induction false} TriplesSplit(l: seq<Node>, k: nat, a: Size, b: Size, n: nat)
    requires k < n <= |l| && LiveTriple(l[k]) && a < 3 && b < 3
    ensures Triples(Split(l, k, a, b), n + 2) < Triples(l, n)
  {
    var r := Split(l, k, a, b);
    if n == k + 1 {
      TriplesMonotone(l, r, k);
      assert Triples(r, k + 1) == Triples(r, k) && Triples(r, k + 2) == Triples(r, k);
    } else {
      TriplesSplit(l, k, a, b, n - 1);
    }
  }

  /** How long the list can get: a size-3 marker is split once, into two new ones. */
  function Room(l: seq<Node>): nat {
    |l| + 2 * Triples(l, |l|)
  }

  /** A bound on the steps left, in a list that never gets longer than `room`. */
  function Budget(s: State, room: nat): int
    requires Ok(s)
  {
    (room - s.ii) * (room + 2) + if s.AtOpener? then room + 1 else room - s.iii
  }

  /** Splitting a triple makes room, and leaves no empty marker. */
  lemma {:induction false} SplitKeepsRoom(l: seq<Node>, k: nat, a: Size, b: Size)
    requires k < |l| && LiveTriple(l[k]) && 1 <= a < 3 && 1 <= b < 3 && NoEmptyMarkers(l)
    ensures NoEmptyMarkers(Split(l, k, a, b)) && Room(Split(l, k, a, b)) <= Room(l)
  {
    hide Triples;
    var r := Split(l, k, a, b);
    forall i | 0 <= i < |r| && r[i].Marker? ensures r[i].size >= 1 {
      assert i > k + 2 ==> r[i] == l[i - 2];
    }
    TriplesSplit(l, k, a, b, |l|);
  }

  lemma {:induction false} LinkKeepsRoom(l: seq<Node>, o: nat, c: nat, id: nat)
    requires o < c < |l| && l[o].Marker? && l[c].Marker? && NoEmptyMarkers(l)
    ensures NoEmptyMarkers(Link(l, o, c, id)) && Room(Link(l, o, c, id)) <= Room(l)
  {
    var r := Link(l, o, c, id);
    forall i | 0 <= i < |r| && r[i].Marker? ensures r[i].size >= 1 {
      assert r[i].size == l[i].size;
    }
    TriplesMonotone(l, r, |l|);
  }

  /** A step that is not a clash needs no more room, and empties no marker. */
  lemma {:induction false} StepKeepsRoom(s: State)
    requires Ok(s) && !Clash(s) && NoEmptyMarkers(s.list)
    ensures NoEmptyMarkers(Step(s).list) && Room(Step(s).list) <= Room(s.list)
  {
    if AtLiveCloser(s) {
      var l, o, c := s.list, s.list[s.ii], s.list[s.iii];
      assert 1 <= o.size <= 3 && 1 <= c.size <= 3;
      hide Room, NoEmptyMarkers, Split, Link;
      if c.size == 3 && o.size != 3 {
        SplitKeepsRoom(l, s.iii, 3 - o.size, o.size);
      } else if Fits(o, c) {
        LinkKeepsRoom(l, s.ii, s.iii, s.next);
      } else if o.size == 3 {
        SplitKeepsRoom(l, s.ii, 3 - c.size, c.size);
      }
    }
  }

  /** How a step moves the iterators: the inner one on, or the outer one on. */
  lemma {:induction false} StepMoves(s: State)
    requires Ok(s) && !Done(s)
    ensures var t := Step(s);
      || (t.ii == s.ii && t.AtCloser? && (s.AtOpener? || s.iii < t.iii))
      || (t.ii == s.ii + 1 && t.AtOpener?)
  {
    hide Split, Link;
  }

  /** Every step that is not a clash leaves fewer steps, though the list may grow. */
  lemma {:induction false} StepSpends(s: State, room: nat)
    requires Ok(s) && !Done(s) && !Clash(s) && NoEmptyMarkers(s.list) && Room(s.list) <= room
    ensures Room(Step(s).list) <= room && 0 <= Budget(Step(s), room) < Budget(s, room)
  {
    hide Step, NoEmptyMarkers, Budget;
    StepKeepsRoom(s);
    StepMoves(s);
    RoomIsEnough(s);
    RoomIsEnough(Step(s));
    BudgetDrops(s, Step(s), room);
  }

  lemma {:induction false} RoomIsEnough(s: State)
    requires Ok(s)
    ensures |s.list| <= Room(s.list)
  {
  }

  lemma {:induction false} BudgetDrops(s: State, t: State, room: nat)
    requires Ok(s) && Ok(t) && |s.list| <= room && |t.list| <= room && s.ii < |s.list|
    requires (t.ii == s.ii && t.AtCloser? && (s.AtOpener? || s.iii < t.iii)) || (t.ii == s.ii + 1 && t.AtOpener?)
    ensures 0 <= Budget(t, room) < Budget(s, room)
  {
    var a, b := room - s.ii, room - t.ii;
    NotNegative(b, room + 2);
    assert a == b + 1 ==> a * (room + 2) == b * (room + 2) + (room + 2);
  }

  lemma {:induction false} NotNegative(a: nat, b: nat)
    ensures a * b >= 0
  {
  }

  /** A clash occurs at `s` or within `n` steps. */
  predicate ClashesWithin(s: State, n: nat)
    requires Ok(s)
    decreases n
  {
    Clash(s) || (n > 0 && ClashesWithin(Step(s), n - 1))
  }

  lemma {:induction false} RunFromNext(s: State, n: nat)
    requires Ok(s)
    ensures Run(Step(s), n) == Run(s, n + 1)
  {
    hide Step;
    if n > 0 {
      RunFromNext(s, n - 1);
    } else {
      assert Run(s, 1) == Step(Run(s, 0));
    }
  }

  lemma {:induction false} ClashesWithinIs(s: State, n: nat, m: nat)
    requires Ok(s) && m <= n && Clash(Run(s, m))
    ensures ClashesWithin(s, n)
    decreases n
  {
    hide Step, Clash;
    if m > 0 {
      RunFromNext(s, m - 1);
      ClashesWithinIs(Step(s), n - 1, m - 1);
    }
  }

  lemma {:induction false} WithinClashes(s: State, n: nat) returns (m: nat)
    requires Ok(s) && ClashesWithin(s, n)
    ensures m <= n && Clash(Run(s, m))
    decreases n
  {
    hide Step, Clash;
    if Clash(s) {
      m := 0;
    } else {
      m := WithinClashes(Step(s), n - 1);
      RunFromNext(s, m);
      m := m + 1;
    }
  }

  /** A run that meets no clash within its budget is done by then. */
  lemma {:induction false} DoneInBudget(s: State, room: nat, n: nat)
    requires Ok(s) && NoEmptyMarkers(s.list) && Room(s.list) <= room && Budget(s, room) <= n
    requires !ClashesWithin(s, n)
    ensures Done(Run(s, n))
    decreases n
  {
    hide Step, Clash, NoEmptyMarkers, Room, Budget;
    if Done(s) {
      DoneStays(s, 0, n);
    } else {
      StepSpends(s, room);
      StepKeepsRoom(s);
      DoneInBudget(Step(s), room, n - 1);
      RunFromNext(s, n - 1);
    }
  }

  /** The next live closer from `from` on is a triple. */
  ghost predicate TripleCloserAhead(l: seq<Node>, from: nat) {
    exists q :: from <= q < |l| && LiveClose(l[q]) && l[q].size == 3
      && forall j :: from <= j < q ==> !LiveClose(l[j])
  }

  /** An empty opener is at work and a size-3 closer is the next one it will meet. */
  ghost predicate Stuck(s: State)
    requires Ok(s)
  {
    && s.ii < |s.list| && LiveOpen(s.list[s.ii]) && s.list[s.ii].size == 0
    && TripleCloserAhead(s.list, if s.AtOpener? then s.ii + 1 else s.iii)
  }

  lemma {:induction false} StuckForGood(s: State)
    requires Ok(s) && Stuck(s)
    ensures Stuck(Step(s))
  {
    var from := if s.AtOpener? then s.ii + 1 else s.iii;
    var q :| from <= q < |s.list| && LiveClose(s.list[q]) && s.list[q].size == 3
      && forall j :: from <= j < q ==> !LiveClose(s.list[j]);
    var t := Step(s);
    if s.AtCloser? && LiveClose(s.list[s.iii]) {
      assert t == AtCloser(Split(s.list, q, 3, 0), s.ii, q + 1, s.next);
      assert LiveClose(t.list[q + 1]) && t.list[q + 1].size == 3;
    }
  }

  /** A size-3 opener stops at the first live closer, so it has passed none. */
  ghost predicate TripleScan(s: State) {
    s.AtCloser? && s.ii < s.iii <= |s.list| && s.list[s.ii].Marker? && s.list[s.ii].size == 3 ==>
      forall j :: s.ii < j < s.iii ==> !LiveClose(s.list[j])
  }

  lemma {:induction false} RunKeepsTripleScan(l: seq<Node>, n: nat)
    ensures TripleScan(Run(Start(l), n))
  {
    if n > 0 {
      RunKeepsTripleScan(l, n - 1);
    }
  }

  lemma {:induction false} ClashGetsStuck(s: State)
    requires Ok(s) && Clash(s) && TripleScan(s)
    ensures Stuck(Step(s))
  {
    var t := Step(s);
    assert t == AtOpener(Split(s.list, s.ii, 0, 3), s.ii + 1, s.next);
    assert t.list[s.ii + 1] == NewMarker(true, s.list[s.ii].ch, 0);
    var q := s.iii + 2;
    assert t.list[q] == s.list[s.iii];
    forall j | s.ii + 2 <= j < q ensures !LiveClose(t.list[j]) {
      if j > s.ii + 2 {
        assert t.list[j] == s.list[j - 2];
      }
    }
  }

  lemma {:induction false} StuckNeverDone(s: State, n: nat)
    requires Ok(s) && Stuck(s)
    ensures Stuck(Run(s, n)) && !Done(Run(s, n))
  {
    if n > 0 {
      StuckNeverDone(s, n - 1);
      StuckForGood(Run(s, n - 1));
    }
  }

  lemma {:induction false} DoneStays(s: State, m: nat, n: nat)
    requires Ok(s) && Done(Run(s, m)) && m <= n
    ensures Run(s, n) == Run(s, m)
  {
    if m < n {
      DoneStays(s, m, n - 1);
    }
  }

  lemma {:induction false} RunCompose(s: State, m: nat, n: nat)
    requires Ok(s)
    ensures Run(s, m + n) == Run(Run(s, m), n)
  {
    hide Step;
    if n > 0 {
      RunCompose(s, m, n - 1);
    }
  }

  lemma {:induction false} ClashNeverDone(l: seq<Node>, m: nat, n: nat)
    requires Clash(Run(Start(l), m))
    ensures !Done(Run(Start(l), n))
  {
    hide Step, Stuck;
    RunKeepsTripleScan(l, m);
    ClashGetsStuck(Run(Start(l), m));
    assert Run(Start(l), m + 1) == Step(Run(Start(l), m));
    if Done(Run(Start(l), n)) {
      DoneStays(Start(l), n, m + 1 + n);
      RunCompose(Start(l), m + 1, n);
      StuckNeverDone(Run(Start(l), m + 1), n);
    }
  }

  /** The most steps that the pass can take from these tokens, if it ends. */
  function Bound(l: seq<Node>): (n: nat) {
    var room := Room(l);
    room * (room + 2) + room + 1
  }

  /** A clash occurs on the run from these tokens; only so many steps need be looked at. */
  predicate EverClashes(l: seq<Node>) {
    ClashesWithin(Start(l), Bound(l))
  }

  ghost predicate Finishes(l: seq<Node>) {
    exists n: nat :: Done(Run(Start(l), n))
  }

  /**
   * The matching pass ends if and only if it never tries to split a triple against a triple.
   * Both can be told after a number of steps that is computed from the tokens.
   */
  lemma {:induction false} FinishesExactly(l: seq<Node>)
    requires Untouched(l)
    ensures Finishes(l) <==> !EverClashes(l)
    ensures Finishes(l) <==> Done(Run(Start(l), Bound(l)))
    ensures EverClashes(l) <==> exists m: nat :: Clash(Run(Start(l), m))
  {
    hide Step, Clash, ClashesWithin;
    if EverClashes(l) {
      var m := WithinClashes(Start(l), Bound(l));
      forall n: nat ensures !Done(Run(Start(l), n)) {
        ClashNeverDone(l, m, n);
      }
    } else {
      UntouchedNotEmpty(l);
      DoneInBudget(Start(l), Room(l), Bound(l));
      forall m: nat ensures !Clash(Run(Start(l), m)) {
        NeverClashes(l, m);
      }
    }
  }

  lemma {:induction false} UntouchedNotEmpty(l: seq<Node>)
    requires Untouched(l)
    ensures NoEmptyMarkers(l) && Budget(Start(l), Room(l)) == Bound(l)
  {
  }

  lemma {:induction false} NeverClashes(l: seq<Node>, m: nat)
    requires Untouched(l) && !EverClashes(l)
    ensures !Clash(Run(Start(l), m))
  {
    hide Step, ClashesWithin;
    UntouchedNotEmpty(l);
    DoneInBudget(Start(l), Room(l), Bound(l));
    if m <= Bound(l) {
      if Clash(Run(Start(l), m)) {
        ClashesWithinIs(Start(l), Bound(l), m);
      }
    } else {
      DoneStays(Start(l), Bound(l), m);
    }
  }

  /** All size-3 markers use one character. */
  predicate UniformTriples(l: seq<Node>) {
    forall i, j :: 0 <= i < |l| && 0 <= j < |l| && l[i].Marker? && l[j].Marker? && l[i].size == l[j].size == 3 ==>
      l[i].ch == l[j].ch
  }

  lemma {:induction false} UniformRun(l: seq<Node>, n: nat)
    requires Untouched(l) && UniformTriples(l)
    ensures var r := Run(Start(l), n).list; UniformTriples(r) && NoEmptyMarkers(r)
  {
    if n > 0 {
      UniformRun(l, n - 1);
      UniformStep(Run(Start(l), n - 1));
    }
  }

  lemma {:induction false} UniformStep(s: State)
    requires Ok(s) && UniformTriples(s.list) && NoEmptyMarkers(s.list)
    ensures UniformTriples(Step(s).list) && NoEmptyMarkers(Step(s).list)
  {
    hide UniformTriples, Split, Link;
    if AtLiveCloser(s) {
      var o, c := s.list[s.ii], s.list[s.iii];
      TriplesAgree(s);
      if c.size == 3 && o.size != 3 {
        UniformSplit(s.list, s.iii, 3 - o.size, o.size);
      } else if !Fits(o, c) && o.size == 3 {
        UniformSplit(s.list, s.ii, 3 - c.size, c.size);
      } else if Fits(o, c) {
        UniformLink(s.list, s.ii, s.iii, s.next);
      }
    }
  }

  lemma {:induction false} TriplesAgree(s: State)
    requires Ok(s) && AtLiveCloser(s) && UniformTriples(s.list)
    ensures !Clash(s)
  {
  }

  lemma {:induction false} UniformLink(l: seq<Node>, o: nat, c: nat, id: nat)
    requires UniformTriples(l) && NoEmptyMarkers(l) && o < c < |l| && l[o].Marker? && l[c].Marker?
    ensures UniformTriples(Link(l, o, c, id)) && NoEmptyMarkers(Link(l, o, c, id))
  {
  }

  lemma {:induction false} UniformSplit(l: seq<Node>, k: nat, a: Size, b: Size)
    requires UniformTriples(l) && NoEmptyMarkers(l) && k < |l| && l[k].Marker? && 1 <= a < 3 && 1 <= b < 3
    ensures UniformTriples(Split(l, k, a, b)) && NoEmptyMarkers(Split(l, k, a, b))
  {
    var r := Split(l, k, a, b);
    forall i, j | 0 <= i < |r| && 0 <= j < |r| && r[i].Marker? && r[j].Marker? && r[i].size == r[j].size == 3
      ensures r[i].ch == r[j].ch
    {
      assert l[if i <= k then i else i - 2].ch == l[if j <= k then j else j - 2].ch;
    }
  }

  /** What a caller can check beforehand. */
  lemma {:induction false} UniformTriplesFinish(l: seq<Node>)
    requires Untouched(l) && UniformTriples(l)
    ensures Finishes(l)
  {
    forall m: nat ensures !Clash(Run(Start(l), m)) {
      UniformRun(l, m);
    }
    FinishesExactly(l);
  }

  /** `***a___` sends the program into an endless loop. */
  lemma {:induction false} MixedTriplesNeverFinish()
    ensures !Finishes([NewMarker(true, '*', 3), Text("a"), NewMarker(false, '_', 3)])
  {
    var l := [NewMarker(true, '*', 3), Text("a"), NewMarker(false, '_', 3)];
    assert Run(Start(l), 1) == Step(Run(Start(l), 0)) == AtCloser(l, 0, 1, 0);
    assert Run(Start(l), 2) == Step(Run(Start(l), 1)) == AtCloser(l, 0, 2, 0);
    assert Clash(Run(Start(l), 2));
    FinishesExactly(l);
  }

  // ---------------------------------------------------------------------------------------
  // The result of the matching pass
  // ---------------------------------------------------------------------------------------

  ghost function Matched(l: seq<Node>): (r: seq<Node>)
    requires Finishes(l)
  {
    var n: nat :| Done(Run(Start(l), n));
    Run(Start(l), n).list
  }

  /** No opener is left that a later closer could still take part with. */
  ghost predicate Maximal(l: seq<Node>) {
    forall i, j :: 0 <= i < j < |l| && LiveOpen(l[i]) && LiveClose(l[j]) ==>
      !Fits(l[i], l[j]) && l[i].size != 3 && l[j].size != 3
  }

  lemma {:induction false} MatchedIs(l: seq<Node>, n: nat)
    requires Untouched(l) && Done(Run(Start(l), n))
    ensures Finishes(l) && Matched(l) == Run(Start(l), n).list
  {
    var m: nat :| Done(Run(Start(l), m)) && Matched(l) == Run(Start(l), m).list;
    DoneStays(Start(l), m, m + n);
    DoneStays(Start(l), n, m + n);
  }

  lemma {:induction false} MatchedIsSound(l: seq<Node>)
    requires Untouched(l) && Finishes(l)
    ensures exists next: nat :: Linked(Matched(l), next)
    ensures var m := Matched(l); forall o, c :: Pair(m, o, c) ==> m[o].ch == m[c].ch && m[o].size == m[c].size
    ensures Maximal(Matched(l))
    ensures FirstFit(Matched(l))
    ensures Literal(Matched(l)) == Literal(l)
  {
    var n: nat :| Done(Run(Start(l), n)) && Matched(l) == Run(Start(l), n).list;
    RunKeepsInv(l, n);
    RunKeepsFirstFit(l, n);
    forall i, j | 0 <= i < j < |Matched(l)| && LiveOpen(Matched(l)[i]) && LiveClose(Matched(l)[j])
      ensures var o, c := Matched(l)[i], Matched(l)[j]; !Fits(o, c) && o.size != 3 && c.size != 3
    {
      assert Settled(Matched(l)[i], Matched(l)[j]);
    }
  }
}
