/** Sums over sequences of rows, the reading of `SELECT sum(...)` used by every invariant. */
module Sums {

  function Sum<T>(s: seq<T>, f: T -> int): int {
    if |s| == 0 then 0 else Sum(s[..|s| - 1], f) + f(s[|s| - 1])
  }

  lemma SumAppend<T>(s: seq<T>, x: T, f: T -> int)
    ensures Sum(s + [x], f) == Sum(s, f) + f(x)
  {
    assert (s + [x])[..|s|] == s;
  }

  lemma {:induction false} SumUpdate<T>(s: seq<T>, i: nat, x: T, f: T -> int)
    requires i < |s|
    ensures Sum(s[i := x], f) == Sum(s, f) - f(s[i]) + f(x)
  {
    var last := |s| - 1;
    if i == last {
      assert s[i := x][..last] == s[..last];
    } else {
      assert s[i := x][..last] == s[..last][i := x];
      SumUpdate(s[..last], i, x, f);
    }
  }

  /** Position by position comparison of two equally long tables. */
  lemma {:induction false} SumCompare<S, T>(s: seq<S>, f: S -> int, t: seq<T>, g: T -> int)
    requires |s| == |t|
    requires forall i :: 0 <= i < |s| ==> f(s[i]) <= g(t[i])
    ensures Sum(s, f) <= Sum(t, g)
  {
    if |s| == 0 {
    } else {
      var last := |s| - 1;
      SumCompare(s[..last], f, t[..last], g);
    }
  }

  lemma SumEqual<S, T>(s: seq<S>, f: S -> int, t: seq<T>, g: T -> int)
    requires |s| == |t|
    requires forall i :: 0 <= i < |s| ==> f(s[i]) == g(t[i])
    ensures Sum(s, f) == Sum(t, g)
  {
    SumCompare(s, f, t, g);
    SumCompare(t, g, s, f);
  }

  lemma {:induction false} SumNonNegative<T>(s: seq<T>, f: T -> int)
    requires forall i :: 0 <= i < |s| ==> 0 <= f(s[i])
    ensures 0 <= Sum(s, f)
    ensures forall i :: 0 <= i < |s| ==> f(s[i]) <= Sum(s, f)
  {
    if |s| == 0 {
    } else {
      SumNonNegative(s[..|s| - 1], f);
    }
  }

  /** Sum of a function along the positions listed in `order`, first position first. */
  function SumAlong<T>(s: seq<T>, order: seq<nat>, f: T -> int): int
    requires forall k :: 0 <= k < |order| ==> order[k] < |s|
  {
    if order == [] then 0 else f(s[order[0]]) + SumAlong(s, order[1..], f)
  }

  predicate Distinct<T(==)>(s: seq<T>) {
    forall i, j :: 0 <= i < j < |s| ==> s[i] != s[j]
  }

  lemma {:induction false} SumAlongFrame<T>(s: seq<T>, t: seq<T>, order: seq<nat>, f: T -> int)
    requires |s| == |t|
    requires forall k :: 0 <= k < |order| ==> order[k] < |s|
    requires forall k :: 0 <= k < |order| ==> s[order[k]] == t[order[k]]
    ensures SumAlong(s, order, f) == SumAlong(t, order, f)
  {
    if order == [] {
    } else {
      SumAlongFrame(s, t, order[1..], f);
    }
  }

  /** Listing every row of non-zero weight exactly once adds up to the sum over the whole table. */
  lemma {:induction false} SumAlongSelection<T>(s: seq<T>, order: seq<nat>, f: T -> int, g: T -> int)
    requires forall k :: 0 <= k < |order| ==> order[k] < |s| && f(s[order[k]]) == g(s[order[k]])
    requires Distinct(order)
    requires forall i: nat :: i < |s| && i !in order ==> f(s[i]) == 0
    ensures SumAlong(s, order, g) == Sum(s, f)
  {
    var weights := seq(|s|, i requires 0 <= i < |s| => f(s[i]));
    SumEqual(s, f, weights, Itself());
    WeightsAlong(weights, order);
    AlongWeights(s, weights, order, g);
  }

  function Itself(): int -> int {
    (w: int) => w
  }

  lemma {:induction false} AlongWeights<T>(s: seq<T>, weights: seq<int>, order: seq<nat>, g: T -> int)
    requires |weights| == |s|
    requires forall k :: 0 <= k < |order| ==> order[k] < |s| && weights[order[k]] == g(s[order[k]])
    ensures SumAlong(s, order, g) == SumAlong(weights, order, Itself())
  {
    if order == [] {
    } else {
      AlongWeights(s, weights, order[1..], g);
    }
  }

  lemma {:induction false} WeightsAlong(weights: seq<int>, order: seq<nat>)
    requires forall k :: 0 <= k < |order| ==> order[k] < |weights|
    requires Distinct(order)
    requires forall i: nat :: i < |weights| && i !in order ==> weights[i] == 0
    ensures SumAlong(weights, order, Itself()) == Sum(weights, Itself())
    decreases |order|
  {
    if order == [] {
      AllZero(weights);
    } else {
      var i, rest := order[0], order[1..];
      var cleared := weights[i := 0];
      SumUpdate(weights, i, 0, Itself());
      forall j: nat | j < |cleared| && j !in rest
        ensures cleared[j] == 0
      {
        assert order == [i] + rest;
      }
      WeightsAlong(cleared, rest);
      SumAlongFrame(weights, cleared, rest, Itself());
    }
  }

  lemma {:induction false} AllZero(weights: seq<int>)
    requires forall i: nat :: i < |weights| ==> weights[i] == 0
    ensures Sum(weights, Itself()) == 0
  {
    if weights == [] {
    } else {
      AllZero(weights[..|weights| - 1]);
    }
  }
}
