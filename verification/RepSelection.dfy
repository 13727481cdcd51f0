/**
Which representatives ci/record_rep_weights.py writes: the list sorted by weight,
largest first, cut where the running total reaches a share of the supply.
*/
module RepSelection {

  datatype Rep = Rep(account: string, weight: nat)

  // ------------------------------------------------------------------- the sort

  ghost predicate Descending(reps: seq<Rep>) {
    forall i, j :: 0 <= i < j < |reps| ==> reps[i].weight >= reps[j].weight
  }

  /** Before the first entry that is not heavier. */
  function Insert(r: Rep, reps: seq<Rep>): seq<Rep> {
    if reps == [] || reps[0].weight <= r.weight then [r] + reps else [reps[0]] + Insert(r, reps[1..])
  }

  /** `sort(key=weight, reverse=True)`, which is stable. */
  function Sort(reps: seq<Rep>): seq<Rep> {
    if reps == [] then [] else Insert(reps[0], Sort(reps[1..]))
  }

  /** The entries of one weight, in order. */
  function OfWeight(reps: seq<Rep>, w: nat): seq<Rep> {
    if reps == [] then []
    else (if reps[0].weight == w then [reps[0]] else []) + OfWeight(reps[1..], w)
  }

  lemma {:induction false} InsertDescending(r: Rep, reps: seq<Rep>)
    requires Descending(reps)
    ensures Descending(Insert(r, reps))
  {
    if reps != [] && reps[0].weight > r.weight {
      var rest := reps[1..];
      InsertDescending(r, rest);
      InsertBounded(r, rest, reps[0].weight);
      assert Insert(r, reps) == [reps[0]] + Insert(r, rest);
    }
  }

  lemma {:induction false} InsertPermutes(r: Rep, reps: seq<Rep>)
    ensures multiset(Insert(r, reps)) == multiset{r} + multiset(reps)
  {
    if reps != [] && reps[0].weight > r.weight {
      InsertPermutes(r, reps[1..]);
      assert reps == [reps[0]] + reps[1..];
    }
  }

  lemma {:induction false} InsertStable(r: Rep, reps: seq<Rep>, w: nat)
    requires Descending(reps)
    ensures OfWeight(Insert(r, reps), w) == (if r.weight == w then [r] else []) + OfWeight(reps, w)
  {
    var out := Insert(r, reps);
    if reps == [] || reps[0].weight <= r.weight {
      assert out[1..] == reps;
    } else {
      InsertStable(r, reps[1..], w);
      assert out[1..] == Insert(r, reps[1..]);
      if r.weight == w {
        assert OfWeight(out, w) == OfWeight(out[1..], w) && OfWeight(reps, w) == OfWeight(reps[1..], w);
      }
    }
  }

  lemma {:induction false} InsertBounded(r: Rep, reps: seq<Rep>, bound: nat)
    requires r.weight <= bound && forall i :: 0 <= i < |reps| ==> reps[i].weight <= bound
    ensures forall i :: 0 <= i < |Insert(r, reps)| ==> Insert(r, reps)[i].weight <= bound
  {
    if !(reps == [] || reps[0].weight <= r.weight) {
      InsertBounded(r, reps[1..], bound);
    }
  }

  /** The sort permutes, orders by falling weight, and leaves equal weights in their order. */
  lemma {:induction false} SortFacts(reps: seq<Rep>)
    ensures Descending(Sort(reps)) && multiset(Sort(reps)) == multiset(reps)
    ensures forall w :: OfWeight(Sort(reps), w) == OfWeight(reps, w)
  {
    if reps == [] {
    } else {
      var rest := Sort(reps[1..]);
      SortFacts(reps[1..]);
      InsertDescending(reps[0], rest);
      InsertPermutes(reps[0], rest);
      assert reps == [reps[0]] + reps[1..];
      forall w
        ensures OfWeight(Sort(reps), w) == OfWeight(reps, w)
      {
        InsertStable(reps[0], rest, w);
      }
    }
  }

  /** No account is listed twice, as in the object the reply is read from. */
  predicate DistinctAccounts(reps: seq<Rep>) {
    forall i, j :: 0 <= i < j < |reps| ==> reps[i].account != reps[j].account
  }

  lemma {:induction false} InsertDistinct(r: Rep, reps: seq<Rep>)
    requires DistinctAccounts(reps) && forall i :: 0 <= i < |reps| ==> reps[i].account != r.account
    ensures DistinctAccounts(Insert(r, reps))
    ensures forall x :: x in Insert(r, reps) ==> x == r || x in reps
  {
    if reps == [] || r.weight >= reps[0].weight {
      assert DistinctAccounts([r] + reps);
    } else {
      InsertDistinct(r, reps[1..]);
      var rest := Insert(r, reps[1..]);
      forall j | 0 <= j < |rest| ensures rest[j].account != reps[0].account { assert rest[j] in rest; }
    }
  }

  lemma {:induction false} SortDistinct(reps: seq<Rep>)
    requires DistinctAccounts(reps)
    ensures DistinctAccounts(Sort(reps))
    ensures forall x :: x in Sort(reps) ==> x in reps
  {
    if reps == [] {
    } else {
      SortDistinct(reps[1..]);
      var rest := Sort(reps[1..]);
      forall i | 0 <= i < |rest| ensures rest[i].account != reps[0].account { assert rest[i] in rest; }
      InsertDistinct(reps[0], rest);
    }
  }

  // -------------------------------------------------------------- the selection

  function Total(reps: seq<Rep>): nat {
    if reps == [] then 0 else Total(reps[..|reps| - 1]) + reps[|reps| - 1].weight
  }

  lemma {:induction false} TotalAppend(xs: seq<Rep>, ys: seq<Rep>)
    ensures Total(xs + ys) == Total(xs) + Total(ys)
  {
    if ys == [] {
      assert xs + ys == xs;
    } else {
      TotalAppend(xs, ys[..|ys| - 1]);
      assert (xs + ys)[..|xs + ys| - 1] == xs + ys[..|ys| - 1];
    }
  }

  /** The entries written when the total so far is `sofar`. */
  function Select(reps: seq<Rep>, threshold: int, sofar: nat): seq<Rep> {
    if reps == [] || reps[0].weight == 0 then []
    else if sofar + reps[0].weight >= threshold then [reps[0]]
    else [reps[0]] + Select(reps[1..], threshold, sofar + reps[0].weight)
  }

  lemma {:induction false} SelectIsPrefix(reps: seq<Rep>, threshold: int, sofar: nat)
    ensures |Select(reps, threshold, sofar)| <= |reps|
    ensures Select(reps, threshold, sofar) == reps[..|Select(reps, threshold, sofar)|]
  {
    if !(reps == [] || reps[0].weight == 0) && sofar + reps[0].weight < threshold {
      SelectIsPrefix(reps[1..], threshold, sofar + reps[0].weight);
    }
  }

  lemma {:induction false} ZeroTail(reps: seq<Rep>)
    requires forall i :: 0 <= i < |reps| ==> reps[i].weight == 0
    ensures Total(reps) == 0
  {
    if reps == [] {
    } else {
      ZeroTail(reps[..|reps| - 1]);
    }
  }

  lemma TotalCons(reps: seq<Rep>)
    requires reps != []
    ensures Total(reps) == reps[0].weight + Total(reps[1..])
  {
    assert [reps[0]] + reps[1..] == reps;
    TotalAppend([reps[0]], reps[1..]);
    assert [reps[0]][..0] == [];
    assert Total([reps[0]]) == reps[0].weight;
  }

  /** The selection reaches the threshold whenever all representatives together do. */
  lemma {:induction false} SelectReaches(reps: seq<Rep>, threshold: int, sofar: nat)
    requires Descending(reps) && sofar + Total(reps) >= threshold
    ensures sofar + Total(Select(reps, threshold, sofar)) >= threshold
  {
    if reps == [] {
    } else if reps[0].weight == 0 {
      ZeroTail(reps);
    } else {
      TotalCons(reps);
      TotalCons([reps[0]]);
      if sofar + reps[0].weight < threshold {
        SelectReaches(reps[1..], threshold, sofar + reps[0].weight);
        TotalAppend([reps[0]], Select(reps[1..], threshold, sofar + reps[0].weight));
      }
    }
  }

  /** No shorter prefix of the selection reaches a threshold that was not reached before. */
  lemma {:induction false} SelectStopsAtOnce(reps: seq<Rep>, threshold: int, sofar: nat, k: nat)
    requires sofar < threshold && k < |Select(reps, threshold, sofar)| && k <= |reps|
    ensures sofar + Total(reps[..k]) < threshold
  {
    if k == 0 {
    } else {
      SelectStopsAtOnce(reps[1..], threshold, sofar + reps[0].weight, k - 1);
      TotalCons(reps[..k]);
      assert reps[..k][1..] == reps[1..][..k - 1];
    }
  }

  // ----------------------------------------------------------------- optimality

  function Remove(reps: seq<Rep>, k: nat): seq<Rep>
    requires k < |reps|
  {
    reps[..k] + reps[k + 1..]
  }

  lemma RemoveTotal(reps: seq<Rep>, k: nat)
    requires k < |reps|
    ensures Total(reps) == reps[k].weight + Total(Remove(reps, k))
  {
    var front, back := reps[..k], reps[k..];
    assert reps == front + back && back[1..] == reps[k + 1..];
    TotalAppend(front, back);
    TotalCons(back);
    TotalAppend(front, back[1..]);
  }

  lemma RemoveMultiset(reps: seq<Rep>, k: nat)
    requires k < |reps|
    ensures multiset(reps) == multiset{reps[k]} + multiset(Remove(reps, k))
  {
    assert reps == reps[..k] + [reps[k]] + reps[k + 1..];
  }

  lemma ConsMultiset(reps: seq<Rep>)
    requires reps != []
    ensures multiset(reps) == multiset{reps[0]} + multiset(reps[1..])
  {
    assert reps == [reps[0]] + reps[1..];
  }

  lemma Cancel(x: Rep, a: multiset<Rep>, b: multiset<Rep>)
    requires multiset{x} + a <= multiset{x} + b
    ensures a <= b
  {
    forall y
      ensures a[y] <= b[y]
    {
      assert (multiset{x} + a)[y] <= (multiset{x} + b)[y];
    }
  }

  /** Either the heaviest is among the chosen and can be taken from both, or it can be skipped. */
  lemma TakeOrSkip(sorted: seq<Rep>, chosen: seq<Rep>) returns (take: bool, k: nat)
    requires chosen != [] && multiset(chosen) <= multiset(sorted)
    ensures sorted != []
    ensures take ==> k < |chosen| && chosen[k] == sorted[0] && multiset(Remove(chosen, k)) <= multiset(sorted[1..])
    ensures !take ==> multiset(chosen) <= multiset(sorted[1..])
  {
    assert chosen[0] in multiset(chosen);
    ConsMultiset(sorted);
    take := sorted[0] in chosen;
    k := 0;
    if take {
      k :| 0 <= k < |chosen| && chosen[k] == sorted[0];
      RemoveMultiset(chosen, k);
      Cancel(sorted[0], multiset(Remove(chosen, k)), multiset(sorted[1..]));
    } else {
      WithoutTop(sorted[0], multiset(chosen), multiset(sorted[1..]));
    }
  }

  /** The heaviest `k` representatives are the first `k` of the sorted list. */
  lemma {:induction false} PrefixIsHeaviest(sorted: seq<Rep>, chosen: seq<Rep>)
    requires Descending(sorted) && multiset(chosen) <= multiset(sorted)
    ensures |chosen| <= |sorted| && Total(chosen) <= Total(sorted[..|chosen|])
    decreases |sorted|
  {
    if chosen == [] {
    } else {
      var take, k := TakeOrSkip(sorted, chosen);
      if take {
        PrefixIsHeaviest(sorted[1..], Remove(chosen, k));
        WithTop(sorted, chosen, k);
      } else {
        PrefixIsHeaviest(sorted[1..], chosen);
        ShiftIsHeavier(sorted, |chosen|);
      }
    }
  }

  lemma WithTop(sorted: seq<Rep>, chosen: seq<Rep>, k: nat)
    requires k < |chosen| && sorted != [] && chosen[k] == sorted[0] && |chosen| <= |sorted|
    requires Total(Remove(chosen, k)) <= Total(sorted[1..][..|chosen| - 1])
    ensures Total(chosen) <= Total(sorted[..|chosen|])
  {
    RemoveTotal(chosen, k);
    TotalCons(sorted[..|chosen|]);
    assert sorted[..|chosen|][1..] == sorted[1..][..|chosen| - 1];
  }

  lemma WithoutTop(top: Rep, a: multiset<Rep>, b: multiset<Rep>)
    requires a <= multiset{top} + b && top !in a
    ensures a <= b
  {
  }

  lemma ShiftIsHeavier(sorted: seq<Rep>, k: nat)
    requires Descending(sorted) && 0 < k < |sorted|
    ensures Total(sorted[1..][..k]) <= Total(sorted[..k])
  {
    var middle := sorted[1..k];
    assert sorted[1..][..k] == middle + [sorted[k]];
    assert sorted[..k] == [sorted[0]] + middle;
    TotalAppend(middle, [sorted[k]]);
    TotalAppend([sorted[0]], middle);
    TotalCons([sorted[0]]);
    TotalCons([sorted[k]]);
  }

  /** Nobody can reach the threshold with fewer representatives. */
  ghost predicate Fewest(reps: seq<Rep>, threshold: int) {
    forall chosen :: multiset(chosen) <= multiset(reps) && Total(chosen) >= threshold ==>
                       |Select(Sort(reps), threshold, 0)| <= |chosen|
  }

  /** A threshold that nobody is needed for still gets somebody written. */
  lemma WritesOneTooMany(reps: seq<Rep>, threshold: int, r: Rep)
    requires threshold <= 0 && r in reps && r.weight != 0
    ensures !Fewest(reps, threshold)
  {
    var sorted := Sort(reps);
    SortFacts(reps);
    assert r in multiset(sorted);
    var i :| 0 <= i < |sorted| && sorted[i] == r;
    assert sorted[0].weight >= sorted[i].weight;
    var nobody: seq<Rep> := [];
    assert multiset(nobody) <= multiset(reps) && Total(nobody) >= threshold;
  }

  /**
  The greedy cut writes the least number of representatives whose weights reach
  the threshold, exactly when the threshold is positive or nobody has any weight:
  for a threshold of zero the loop still writes one.
  */
  lemma GreedyIsOptimal(reps: seq<Rep>, threshold: int)
    ensures Fewest(reps, threshold) <==> threshold > 0 || forall r :: r in reps ==> r.weight == 0
  {
    var sorted := Sort(reps);
    SortFacts(reps);
    if threshold > 0 {
      forall chosen: seq<Rep> | multiset(chosen) <= multiset(reps) && Total(chosen) >= threshold
        ensures |Select(sorted, threshold, 0)| <= |chosen|
      {
        PrefixIsHeaviest(sorted, chosen);
        if |chosen| < |Select(sorted, threshold, 0)| {
          SelectStopsAtOnce(sorted, threshold, 0, |chosen|);
        }
      }
    } else if forall r :: r in reps ==> r.weight == 0 {
      assert sorted != [] ==> sorted[0] in multiset(reps);
    } else {
      var r :| r in reps && r.weight != 0;
      WritesOneTooMany(reps, threshold, r);
    }
  }

  /** What is written reaches the threshold if the whole list does. */
  lemma GreedyReaches(reps: seq<Rep>, threshold: int)
    requires Total(reps) >= threshold
    ensures Total(Select(Sort(reps), threshold, 0)) >= threshold
  {
    SortFacts(reps);
    SameTotal(reps, Sort(reps));
    SelectReaches(Sort(reps), threshold, 0);
  }

  lemma {:induction false} SameTotal(xs: seq<Rep>, ys: seq<Rep>)
    requires multiset(xs) == multiset(ys)
    ensures |xs| == |ys| && Total(xs) == Total(ys)
  {
    assert |multiset(xs)| == |xs| && |multiset(ys)| == |ys|;
    if xs != [] {
      assert xs[0] in multiset(ys);
      var k :| 0 <= k < |ys| && ys[k] == xs[0];
      ConsMultiset(xs);
      RemoveMultiset(ys, k);
      Cancel(xs[0], multiset(xs[1..]), multiset(Remove(ys, k)));
      Cancel(xs[0], multiset(Remove(ys, k)), multiset(xs[1..]));
      SameTotal(xs[1..], Remove(ys, k));
      TotalCons(xs);
      RemoveTotal(ys, k);
    }
  }

  /** Two sorted lists of the same representatives have the same weights, place by place. */
  lemma SameWeights(xs: seq<Rep>, ys: seq<Rep>, k: nat)
    requires Descending(xs) && Descending(ys) && multiset(xs) == multiset(ys) && k < |xs|
    ensures |ys| == |xs| && xs[k].weight == ys[k].weight
  {
    SameTotal(xs, ys);
    PrefixTotals(xs, ys, k);
    PrefixTotals(xs, ys, k + 1);
    assert xs[..k + 1][..k] == xs[..k] && ys[..k + 1][..k] == ys[..k];
  }

  lemma PrefixTotals(xs: seq<Rep>, ys: seq<Rep>, k: nat)
    requires Descending(xs) && Descending(ys) && multiset(xs) == multiset(ys) && k <= |xs| == |ys|
    ensures Total(xs[..k]) == Total(ys[..k])
  {
    assert xs == xs[..k] + xs[k..] && ys == ys[..k] + ys[k..];
    PrefixIsHeaviest(ys, xs[..k]);
    PrefixIsHeaviest(xs, ys[..k]);
  }

  lemma {:induction false} SelectSeesWeights(xs: seq<Rep>, ys: seq<Rep>, threshold: int, sofar: nat)
    requires |xs| == |ys| && forall i :: 0 <= i < |xs| ==> xs[i].weight == ys[i].weight
    ensures |Select(xs, threshold, sofar)| == |Select(ys, threshold, sofar)|
  {
    if xs != [] && xs[0].weight != 0 && sofar + xs[0].weight < threshold {
      SelectSeesWeights(xs[1..], ys[1..], threshold, sofar + xs[0].weight);
    }
  }

  lemma {:induction false} TotalSeesWeights(xs: seq<Rep>, ys: seq<Rep>)
    requires |xs| == |ys| && forall i :: 0 <= i < |xs| ==> xs[i].weight == ys[i].weight
    ensures Total(xs) == Total(ys)
  {
    if xs == [] {
    } else {
      TotalSeesWeights(xs[..|xs| - 1], ys[..|ys| - 1]);
    }
  }

  /** How many are written, and their total weight, do not depend on the order of the reply. */
  lemma OrderDoesNotMatter(xs: seq<Rep>, ys: seq<Rep>, threshold: int)
    requires multiset(xs) == multiset(ys)
    ensures |Select(Sort(xs), threshold, 0)| == |Select(Sort(ys), threshold, 0)|
    ensures Total(Select(Sort(xs), threshold, 0)) == Total(Select(Sort(ys), threshold, 0))
  {
    SortFacts(xs);
    SortFacts(ys);
    SameTotal(Sort(xs), Sort(ys));
    forall k | 0 <= k < |Sort(xs)|
      ensures Sort(xs)[k].weight == Sort(ys)[k].weight
    {
      SameWeights(Sort(xs), Sort(ys), k);
    }
    SelectSeesWeights(Sort(xs), Sort(ys), threshold, 0);
    SelectIsPrefix(Sort(xs), threshold, 0);
    SelectIsPrefix(Sort(ys), threshold, 0);
    TotalSeesWeights(Select(Sort(xs), threshold, 0), Select(Sort(ys), threshold, 0));
  }

  // ---------------------------------------------------------------- the threshold

  const UNIT := 1_000_000_000_000_000_000_000_000_000_000

  /** `int(x)`: truncation toward zero. */
  function Truncate(x: real): int {
    if x >= 0.0 then x.Floor else -((-x).Floor)
  }

  /** The share of the supply to be covered, in whole units, with exact arithmetic. */
  function Threshold(supply: nat, limit: real): int {
    Truncate(supply as real / UNIT as real * limit) * UNIT
  }

  /** By how much a covered weight misses the share of the supply asked for. */
  function Shortfall(limit: real, supply: nat, covered: int): real {
    limit * supply as real - covered as real
  }

  lemma ThresholdIsWhole(supply: nat, limit: real)
    ensures Threshold(supply, limit) % UNIT == 0
  {
    var y := Truncate(supply as real / UNIT as real * limit);
    assert Threshold(supply, limit) == y * UNIT;
  }

  lemma ThresholdIsNear(supply: nat, limit: real)
    requires 0.0 <= limit <= 1.0
    ensures 0.0 <= Shortfall(limit, supply, Threshold(supply, limit)) < UNIT as real
  {
  }

  lemma ShareOfSupply(limit: real, s: real)
    requires 0.0 <= limit <= 1.0 && s >= 0.0
    ensures 0.0 <= limit * s <= s
  {
    assert limit * s <= 1.0 * s;
  }

  lemma BelowSupply(supply: nat, share: real, covered: int)
    requires 0.0 <= share <= supply as real && covered % UNIT == 0
    requires 0.0 <= share - covered as real < UNIT as real
    ensures 0 <= covered <= supply
  {
    assert covered as real <= supply as real;
    assert covered > -UNIT;
  }

  lemma WithinSupply(supply: nat, limit: real, covered: int)
    requires 0.0 <= limit <= 1.0 && covered % UNIT == 0
    requires 0.0 <= Shortfall(limit, supply, covered) < UNIT as real
    ensures 0 <= covered <= supply
  {
    ShareOfSupply(limit, supply as real);
    BelowSupply(supply, limit * supply as real, covered);
  }

  /** For limits between 0 and 1: whole units, no more than the share asked for, and less than one unit below it. */
  lemma ThresholdBounds(supply: nat, limit: real)
    requires 0.0 <= limit <= 1.0
    ensures 0 <= Threshold(supply, limit) <= supply && Threshold(supply, limit) % UNIT == 0
    ensures 0.0 <= Shortfall(limit, supply, Threshold(supply, limit)) < UNIT as real
  {
    ThresholdIsWhole(supply, limit);
    ThresholdIsNear(supply, limit);
    WithinSupply(supply, limit, Threshold(supply, limit));
  }

  /** Without its last entry the selection is below the threshold, if that was not reached before. */
  lemma {:induction false} SelectStopsInTime(reps: seq<Rep>, threshold: int, sofar: nat)
    requires sofar < threshold && Select(reps, threshold, sofar) != []
    ensures var w := Select(reps, threshold, sofar); sofar + Total(w[..|w| - 1]) < threshold
  {
    var w := Select(reps, threshold, sofar);
    if |w| == 1 {
      assert w[..0] == [];
    } else {
      var rest := Select(reps[1..], threshold, sofar + reps[0].weight);
      SelectStopsInTime(reps[1..], threshold, sofar + reps[0].weight);
      assert w[..|w| - 1] == [reps[0]] + rest[..|rest| - 1];
      TotalAppend([reps[0]], rest[..|rest| - 1]);
      TotalCons([reps[0]]);
    }
  }

  /** Nothing is written beyond need: without its last entry the file is short of the share asked for. */
  lemma NoMoreThanNeeded(reps: seq<Rep>, limit: real, threshold: int, written: seq<Rep>)
    requires 0.0 <= limit <= 1.0
    requires threshold == Threshold(Total(reps), limit) && written == Select(Sort(reps), threshold, 0)
    requires threshold > 0
    ensures written != [] && Shortfall(limit, Total(reps), Total(written[..|written| - 1])) > 0.0
  {
    ThresholdBounds(Total(reps), limit);
    GreedyReaches(reps, threshold);
    SelectStopsInTime(Sort(reps), threshold, 0);
  }

  /** With a limit between 0 and 1 the file falls short of its share by less than one unit. */
  lemma CoverageBound(reps: seq<Rep>, limit: real, threshold: int, written: nat)
    requires 0.0 <= limit <= 1.0
    requires threshold == Threshold(Total(reps), limit) && written == Total(Select(Sort(reps), threshold, 0))
    ensures written >= threshold
    ensures Shortfall(limit, Total(reps), written) < UNIT as real
  {
    ThresholdBounds(Total(reps), limit);
    GreedyReaches(reps, threshold);
    MoreCoversMore(limit, Total(reps), threshold, written);
  }

  lemma MoreCoversMore(limit: real, supply: nat, low: int, high: int)
    requires low <= high
    ensures Shortfall(limit, supply, high) <= Shortfall(limit, supply, low)
  {
  }
}
