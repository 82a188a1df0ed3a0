/** Small datatypes shared by every component. */
module Basics {

  datatype Option<+T> = None | Some(value: T)

  datatype Result<+T, +E> = Ok(value: T) | Err(error: E)

  /** The last `n` elements of `s`, or all of them when there are fewer. */
  function LastN<T>(s: seq<T>, n: nat): seq<T> {
    if n < |s| then s[|s| - n..] else s
  }

  /** The first `n` elements of `s`, or all of them when there are fewer (SQL's LIMIT). */
  function Limit<T>(s: seq<T>, n: nat): seq<T> {
    if n < |s| then s[..n] else s
  }

  function Reverse<T>(s: seq<T>): (r: seq<T>)
    ensures |r| == |s|
    ensures forall i :: 0 <= i < |s| ==> r[i] == s[|s| - 1 - i]
  {
    if s == [] then [] else Reverse(s[1..]) + [s[0]]
  }

  /** Reversing a limited reversed list keeps its tail: how "newest first, limit, reverse" works. */
  lemma LimitOfReverse<T>(s: seq<T>, n: nat)
    ensures Reverse(Limit(Reverse(s), n)) == LastN(s, n)
  {
  }

  lemma AppendAssociative<T>(a: seq<T>, b: seq<T>, c: seq<T>)
    ensures a + (b + c) == (a + b) + c
  {
  }

  lemma TailOfAppend<T>(a: seq<T>, b: seq<T>)
    requires a != []
    ensures a + b != [] && (a + b)[0] == a[0] && (a + b)[1..] == a[1..] + b
  {
  }

  lemma LastOfAppend<T>(a: seq<T>, b: seq<T>)
    requires a + b != []
    ensures (a + b)[|a + b| - 1] == if b == [] then a[|a| - 1] else b[|b| - 1]
  {
  }

  /** None of the numbered operations from `from` up to, but not including, `to` fails. */
  ghost predicate Quiet(failing: iset<nat>, from: nat, to: nat) {
    forall k: nat :: from <= k < to ==> k !in failing
  }
}
