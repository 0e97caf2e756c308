/** Weighted selection of a server: examples/multi-server/main.go.

    Only the weights of the healthy servers matter.  The pseudo-random numbers the source draws
    are parameters: a target in [0, total), and an index for when the total is zero. */
module LoadBalancing {

  function Total(weights: seq<int>): int {
    if weights == [] then 0 else Total(weights[..|weights| - 1]) + weights[|weights| - 1]
  }

  ghost predicate NonNegative(weights: seq<int>) {
    forall i :: 0 <= i < |weights| ==> weights[i] >= 0
  }

  /** The sum of the first i weights. */
  function Below(weights: seq<int>, i: nat): int
    requires i <= |weights|
  {
    Total(weights[..i])
  }

  lemma BelowStep(weights: seq<int>, i: nat)
    requires i < |weights|
    ensures Below(weights, 0) == 0
    ensures Below(weights, i + 1) == Below(weights, i) + weights[i]
    ensures Below(weights, |weights|) == Total(weights)
  {
    assert weights[..i + 1][..i] == weights[..i];
    assert weights[..|weights|] == weights;
  }

  lemma {:induction false} BelowGrows(weights: seq<int>, i: nat, j: nat)
    requires NonNegative(weights) && i <= j <= |weights|
    ensures Below(weights, i) <= Below(weights, j)
    decreases j
  {
    if i < j {
      BelowStep(weights, j - 1);
      BelowGrows(weights, i, j - 1);
    }
  }

  /** Server i is the first whose running total exceeds the target. */
  ghost predicate Chosen(weights: seq<int>, target: int, i: nat) {
    && i < |weights|
    && Below(weights, i + 1) > target
    && forall j: nat :: j <= i ==> Below(weights, j) <= target
  }

  /** Selects a server.  The total must not be negative, as for the source's random number
      generator; single weights may be. */
  method WeightedSelect(weights: seq<int>, target: int, random: nat) returns (selected: nat)
    requires random < |weights| && Total(weights) >= 0
    requires Total(weights) > 0 ==> 0 <= target < Total(weights)
    ensures Total(weights) == 0 ==> selected == random
    ensures Total(weights) > 0 ==> Chosen(weights, target, selected)
  {
    var total := 0;
    assert weights[..|weights|] == weights;
    for i := 0 to |weights|
      invariant total == Below(weights, i)
    {
      BelowStep(weights, i);
      total := total + weights[i];
    }
    if total == 0 {
      return random;
    }
    var current := 0;
    for i := 0 to |weights|
      invariant current == Below(weights, i)
      invariant forall j: nat :: j <= i ==> Below(weights, j) <= target
    {
      BelowStep(weights, i);
      current := current + weights[i];
      if current > target {
        return i;
      }
    }
    // The source returns the last server here; the running total has reached the full total.
    assert false;
  }

  /** Every target selects exactly one server, so the fallback of the source is never needed. */
  lemma {:induction false} OneServerIsChosen(weights: seq<int>, target: int, n: nat)
    requires n <= |weights| && 0 <= target < Below(weights, n)
    ensures exists i: nat :: Chosen(weights, target, i) && forall j: nat :: Chosen(weights, target, j) ==> j == i
    decreases n
  {
    if exists m: nat :: m < n && target < Below(weights, m) {
      var m: nat :| m < n && target < Below(weights, m);
      OneServerIsChosen(weights, target, m);
    } else {
      assert n > 0;
      assert Chosen(weights, target, n - 1);
    }
  }

  /** The targets for which server i is selected. */
  ghost function Targets(weights: seq<int>, i: nat): set<int> {
    set target | 0 <= target < Total(weights) && Chosen(weights, target, i)
  }

  ghost function Interval(lo: int, hi: int): (r: set<int>)
    requires lo <= hi
    ensures forall t :: t in r <==> lo <= t < hi
    ensures |r| == hi - lo
    decreases hi - lo
  {
    if lo == hi then {} else Interval(lo, hi - 1) + {hi - 1}
  }

  lemma TargetsAreAnInterval(weights: seq<int>, i: nat)
    requires NonNegative(weights) && i < |weights|
    ensures Below(weights, i) <= Below(weights, i + 1)
    ensures Targets(weights, i) == Interval(Below(weights, i), Below(weights, i + 1))
  {
    BelowStep(weights, i);
    BelowGrows(weights, 0, i);
    BelowGrows(weights, i + 1, |weights|);
    forall target | Below(weights, i) <= target < Below(weights, i + 1)
      ensures Chosen(weights, target, i)
    {
      forall j: nat | j <= i
        ensures Below(weights, j) <= target
      {
        BelowGrows(weights, j, i);
      }
    }
  }

  /** Weighted selection is exactly proportional, if and only if no weight is negative: each server
      is selected by as many targets as its weight says. */
  lemma ProportionalIff(weights: seq<int>)
    requires Total(weights) > 0
    ensures (forall i: nat :: i < |weights| ==> |Targets(weights, i)| == weights[i]) <==> NonNegative(weights)
  {
    if NonNegative(weights) {
      forall i: nat | i < |weights|
        ensures |Targets(weights, i)| == weights[i]
      {
        BelowStep(weights, i);
        TargetsAreAnInterval(weights, i);
      }
    } else {
      var i: nat :| i < |weights| && weights[i] < 0;
      assert |Targets(weights, i)| != weights[i];
    }
  }
}
