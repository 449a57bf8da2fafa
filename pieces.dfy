/** A list built piece by piece: the loops of both pipelines that append zero or more
    items per input line. */
module Pieces {

  /** The pieces `f(0) + ... + f(n - 1)`. */
  function Flatten<T>(f: nat -> seq<T>, n: nat): seq<T> {
    if n == 0 then [] else Flatten(f, n - 1) + f(n - 1)
  }

  lemma FlattenStep<T>(f: nat -> seq<T>, n: nat)
    requires n > 0
    ensures Flatten(f, n) == Flatten(f, n - 1) + f(n - 1)
  {
  }

  /** Every item of the flattened list comes from one of the pieces. */
  lemma {:induction false} FlattenMembers<T>(f: nat -> seq<T>, n: nat)
    ensures forall x :: x in Flatten(f, n) ==> exists i :: 0 <= i < n && x in f(i)
  {
    if n > 0 {
      FlattenMembers(f, n - 1);
      forall x | x in Flatten(f, n) ensures exists i :: 0 <= i < n && x in f(i) {
        if x !in f(n - 1) {
          assert x in Flatten(f, n - 1);
        }
      }
    }
  }

  /** Pieces of at most one item each, all satisfying `p`, give at most `n` items that
      all satisfy `p`. */
  lemma {:induction false} FlattenOfSingles<T>(f: nat -> seq<T>, n: nat, p: T -> bool)
    requires forall i :: 0 <= i < n ==> |f(i)| <= 1 && forall x :: x in f(i) ==> p(x)
    ensures |Flatten(f, n)| <= n
    ensures forall x :: x in Flatten(f, n) ==> p(x)
  {
    if n > 0 {
      FlattenOfSingles(f, n - 1, p);
      FlattenStep(f, n);
    }
  }

  /** Appends the pieces `f(0)`, ..., `f(n - 1)` one after the other. */
  method FlattenLoop<T>(f: nat -> seq<T>, n: nat) returns (r: seq<T>)
    ensures r == Flatten(f, n)
  {
    r := [];
    for i := 0 to n
      invariant r == Flatten(f, i)
    {
      r := r + f(i);
    }
  }
}
