/** Sequences, for any element type. */
module Sequences {
  lemma {:induction false} Regroup<T>(a: seq<T>, b: seq<T>, c: seq<T>)
    ensures a + (b + c) == a + b + c
  {
  }

  /** Something between two brackets, and what stands around them. */
  lemma {:induction false} Bracketed<T>(a: seq<T>, x: seq<T>, b: seq<T>, y: seq<T>, c: seq<T>)
    ensures a + (x + (b + (y + c))) == a + (x + b + y) + c
  {
    Regroup(x + b, y, c);
    Regroup(x, b, y + c);
    Regroup(a, x + b + y, c);
  }

  lemma {:induction false} SameFront<T>(a: seq<T>, x: T, b: seq<T>, y: T)
    requires a + [x] == b + [y]
    ensures a == b
  {
    assert a == (a + [x])[..|a|] && b == (b + [y])[..|b|];
  }
}
