/** Totals of a natural-number weight over a sequence, used for credits and progress measures. */
module Sums {

  function Sum<T>(s: seq<T>, weight: T -> nat): nat {
    if s == [] then 0 else weight(s[0]) + Sum(s[1..], weight)
  }

  /** Replacing one element changes the total by exactly the difference of the two weights. */
  lemma {:induction false} SumUpdate<T>(s: seq<T>, i: nat, x: T, weight: T -> nat)
    requires i < |s|
    ensures Sum(s[i := x], weight) + weight(s[i]) == Sum(s, weight) + weight(x)
  {
    if i == 0 {
      assert s[0 := x][1..] == s[1..];
    } else {
      assert s[i := x][1..] == s[1..][i - 1 := x];
      SumUpdate(s[1..], i - 1, x, weight);
    }
  }

  /** No element weighs more than the whole. */
  lemma {:induction false} SumAtLeast<T>(s: seq<T>, i: nat, weight: T -> nat)
    requires i < |s|
    ensures weight(s[i]) <= Sum(s, weight)
  {
    if i != 0 {
      SumAtLeast(s[1..], i - 1, weight);
    }
  }

  /** Two distinct elements together weigh no more than the whole. */
  lemma {:induction false} SumAtLeastTwo<T>(s: seq<T>, i: nat, j: nat, weight: T -> nat)
    requires i < j < |s|
    ensures weight(s[i]) + weight(s[j]) <= Sum(s, weight)
  {
    if i == 0 {
      SumAtLeast(s[1..], j - 1, weight);
    } else {
      SumAtLeastTwo(s[1..], i - 1, j - 1, weight);
    }
  }

  /** A positive total has a positive contributor. */
  lemma {:induction false} SumWitness<T>(s: seq<T>, weight: T -> nat) returns (i: nat)
    requires Sum(s, weight) > 0
    ensures i < |s| && weight(s[i]) > 0
  {
    if weight(s[0]) > 0 {
      i := 0;
    } else {
      i := SumWitness(s[1..], weight);
      i := i + 1;
    }
  }

  /** A total of zero weights is zero. */
  lemma {:induction false} SumZero<T>(s: seq<T>, weight: T -> nat)
    requires forall i :: 0 <= i < |s| ==> weight(s[i]) == 0
    ensures Sum(s, weight) == 0
  {
    if s != [] {
      SumZero(s[1..], weight);
    }
  }

  /** Lighter elements make a lighter total. */
  lemma {:induction false} SumMonotone<T>(s: seq<T>, s': seq<T>, weight: T -> nat)
    requires |s| == |s'| && forall i :: 0 <= i < |s| ==> weight(s'[i]) <= weight(s[i])
    ensures Sum(s', weight) <= Sum(s, weight)
  {
    if s != [] {
      SumMonotone(s[1..], s'[1..], weight);
    }
  }
}
