/** Traces of states, and the regrouping of sequences that proofs about them need. */
module Traces {

  /** The state a trace ends in, if it starts from `x`. */
  function Last<T>(x: T, states: seq<T>): T {
    if states == [] then x else states[|states| - 1]
  }

  /** Going on from where a first part ended. */
  lemma Chain<T>(x: T, before: seq<T>, first: seq<T>, rest: seq<T>)
    ensures before + first + rest == before + (first + rest)
    ensures Last(x, first + rest) == Last(Last(x, first), rest)
  {
  }

  lemma Assoc<T>(a: seq<T>, b: seq<T>, c: seq<T>)
    ensures a + b + c == a + (b + c)
  {
  }

  lemma Regroup<T>(a: seq<T>, b: seq<T>, c: seq<T>, d: seq<T>)
    ensures a + b + c + d == a + (b + c + d) && a + b + c == a + (b + c)
  {
  }

  lemma Rejoin<T>(s: seq<T>, n: nat)
    requires n <= |s|
    ensures s[..n] + s[n..] == s
  {
  }

  lemma Split<T>(a: seq<T>, b: seq<T>)
    ensures (a + b)[..|a|] == a && (a + b)[|a|..] == b
  {
  }

  lemma Cancel<T>(a: seq<T>, b: seq<T>, x: seq<T>, y: seq<T>)
    requires a + x == b + y && |a| == |b|
    ensures a == b && x == y
  {
    assert (a + x)[..|a|] == a && (b + y)[..|b|] == b;
    assert (a + x)[|a|..] == x && (b + y)[|b|..] == y;
  }
}
