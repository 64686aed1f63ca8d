/** Sums over the threads of a machine. */
module ThreadSums {

  function Sum(xs: seq<int>): int {
    if xs == [] then 0 else Sum(xs[..|xs| - 1]) + xs[|xs| - 1]
  }

  /** Changing the share of one thread changes the sum by the difference. */
  lemma {:induction false} SumUpdate(xs: seq<int>, t: nat, x: int)
    requires t < |xs|
    ensures Sum(xs[t := x]) == Sum(xs) - xs[t] + x
  {
    var n := |xs| - 1;
    if t == n {
      assert xs[t := x][..n] == xs[..n];
    } else {
      SumUpdate(xs[..n], t, x);
      assert xs[t := x][..n] == xs[..n][t := x];
    }
  }

  lemma {:induction false} SumZero(xs: seq<int>)
    requires forall i :: 0 <= i < |xs| ==> xs[i] == 0
    ensures Sum(xs) == 0
  {
    if xs != [] { SumZero(xs[..|xs| - 1]); }
  }

  lemma {:induction false} SumNonNegative(xs: seq<int>)
    requires forall i :: 0 <= i < |xs| ==> 0 <= xs[i]
    ensures 0 <= Sum(xs)
    ensures forall i :: 0 <= i < |xs| ==> xs[i] <= Sum(xs)
  {
    if xs != [] { SumNonNegative(xs[..|xs| - 1]); }
  }
}
