/** Dividing a load: evenly between workers, and by weight between engines. */
module Apportion {
  function Sum(xs: seq<int>): int {
    if xs == [] then 0 else xs[0] + Sum(xs[1..])
  }

  function SumReal(xs: seq<real>): real {
    if xs == [] then 0.0 else xs[0] + SumReal(xs[1..])
  }

  lemma {:induction false} SumUpdate(xs: seq<int>, i: nat, x: int)
    requires i < |xs|
    ensures Sum(xs[i := x]) == Sum(xs) - xs[i] + x
  {
    if i == 0 {
      assert xs[0 := x][1..] == xs[1..];
    } else {
      assert xs[i := x][1..] == xs[1..][i - 1 := x];
      SumUpdate(xs[1..], i - 1, x);
    }
  }

  lemma {:induction false} SumConcat(xs: seq<int>, ys: seq<int>)
    ensures Sum(xs + ys) == Sum(xs) + Sum(ys)
  {
    if xs == [] {
      assert xs + ys == ys;
    } else {
      assert (xs + ys)[1..] == xs[1..] + ys;
      SumConcat(xs[1..], ys);
    }
  }

  lemma {:induction false} SumRealLast(xs: seq<real>)
    requires xs != []
    ensures SumReal(xs) == SumReal(xs[..|xs| - 1]) + xs[|xs| - 1]
  {
    if |xs| > 1 {
      assert xs[1..][..|xs| - 2] == xs[..|xs| - 1][1..];
      SumRealLast(xs[1..]);
    }
  }

  // ---------------------------------------------------------------- evenly

  /** The first `total % workers` workers take one more than the rest. */
  function SplitEvenly(total: int, workers: nat): (shares: seq<int>)
    requires workers > 0
    ensures |shares| == workers
  {
    seq(workers, i => total / workers + if i < total % workers then 1 else 0)
  }

  lemma {:induction false} SumOfSteps(base: int, extra: nat, n: nat, shares: seq<int>)
    requires |shares| == n
    requires forall i :: 0 <= i < n ==> shares[i] == base + if i < extra then 1 else 0
    ensures Sum(shares) == n * base + if extra < n then extra else n
  {
    if n > 0 {
      SumOfSteps(base, if extra > 0 then extra - 1 else 0, n - 1, shares[1..]);
      assert n * base == base + (n - 1) * base;
    }
  }

  /** Nothing is lost, no two shares differ by more than one, and the larger come first. */
  lemma EvenSplit(total: int, workers: nat)
    requires workers > 0
    ensures Sum(SplitEvenly(total, workers)) == total
    ensures forall i, j | 0 <= i <= j < workers ::
      SplitEvenly(total, workers)[j] <= SplitEvenly(total, workers)[i] <= SplitEvenly(total, workers)[j] + 1
  {
    SumOfSteps(total / workers, total % workers, workers, SplitEvenly(total, workers));
    assert workers * (total / workers) + total % workers == total;
  }

  /** A share is at least one when there are no more workers than users, and within the
    * density when the workers can hold the total. */
  lemma EvenSplitWithin(total: int, workers: nat, density: nat)
    requires workers > 0
    ensures workers <= total ==> forall i | 0 <= i < workers :: SplitEvenly(total, workers)[i] >= 1
    ensures total <= workers * density ==> forall i | 0 <= i < workers :: SplitEvenly(total, workers)[i] <= density
  {
    if workers <= total {
      AtLeast(total, workers, 1);
    }
    if total <= workers * density {
      AtMost(total, workers, density);
    }
  }

  lemma AtLeast(total: int, workers: nat, n: nat)
    requires workers > 0 && workers * n <= total
    ensures total / workers >= n
  {
    var base := total / workers;
    if base < n {
      MulMonotone(workers, base, n - 1);
    }
  }

  lemma AtMost(total: int, workers: nat, n: nat)
    requires workers > 0 && total <= workers * n
    ensures total / workers < n || (total / workers == n && total % workers == 0)
  {
    var base := total / workers;
    assert total == workers * base + total % workers;
    if base > n {
      MulMonotone(workers, n + 1, base);
    }
  }

  lemma MulMonotone(k: nat, a: int, b: int)
    requires a <= b
    ensures k * a <= k * b
  {
  }

  // -------------------------------------------------------------- by weight

  /** Strings compared code point by code point, as Python orders them. */
  predicate Less(a: string, b: string) {
    b != [] && (a == [] || a[0] < b[0] || (a[0] == b[0] && Less(a[1..], b[1..])))
  }

  lemma {:induction false} LessTransitive(a: string, b: string, c: string)
    requires Less(a, b) && Less(b, c)
    ensures Less(a, c)
  {
    if a != [] && a[0] == b[0] && b[0] == c[0] {
      LessTransitive(a[1..], b[1..], c[1..]);
    }
  }

  datatype Weight = Weight(key: string, weight: real)

  function Weights(ws: seq<Weight>): (r: seq<real>)
    ensures |r| == |ws|
    ensures forall i :: 0 <= i < |ws| ==> r[i] == ws[i].weight
  {
    seq(|ws|, i requires 0 <= i < |ws| => ws[i].weight)
  }

  predicate NonNegative(ws: seq<Weight>) {
    forall i :: 0 <= i < |ws| ==> ws[i].weight >= 0.0
  }

  function WeightTotal(ws: seq<Weight>): real {
    SumReal(Weights(ws))
  }

  /** The divisor: the weights' sum, or one when that sum is zero. */
  function Divisor(ws: seq<Weight>): (d: real)
    ensures d != 0.0
  {
    if WeightTotal(ws) == 0.0 then 1.0 else WeightTotal(ws)
  }

  /** What a weight is due of a total. */
  function Due(total: int, weight: real, divisor: real): real
    requires divisor != 0.0
  {
    total as real * weight / divisor
  }

  function Quota(total: int, ws: seq<Weight>, i: nat): real
    requires i < |ws|
  {
    Due(total, ws[i].weight, Divisor(ws))
  }

  function Floors(total: int, ws: seq<Weight>): (f: seq<int>)
    ensures |f| == |ws|
    ensures forall i :: 0 <= i < |ws| ==> f[i] == Quota(total, ws, i).Floor
  {
    seq(|ws|, i requires 0 <= i < |ws| => Quota(total, ws, i).Floor)
  }

  function Fraction(total: int, ws: seq<Weight>, i: nat): (f: real)
    requires i < |ws|
    ensures 0.0 <= f < 1.0
  {
    Quota(total, ws, i) - Quota(total, ws, i).Floor as real
  }

  /** i is dealt to before j: a larger remainder, or the same one and a later key. */
  predicate Above(total: int, ws: seq<Weight>, i: nat, j: nat)
    requires i < |ws| && j < |ws|
  {
    || Fraction(total, ws, i) > Fraction(total, ws, j)
    || (Fraction(total, ws, i) == Fraction(total, ws, j) && Less(ws[j].key, ws[i].key))
  }

  lemma AboveTransitive(total: int, ws: seq<Weight>, i: nat, j: nat, k: nat)
    requires i < |ws| && j < |ws| && k < |ws|
    requires Above(total, ws, i, j) && Above(total, ws, j, k)
    ensures Above(total, ws, i, k)
  {
    if Fraction(total, ws, i) == Fraction(total, ws, k) {
      LessTransitive(ws[k].key, ws[j].key, ws[i].key);
    }
  }

  predicate Indices(order: seq<nat>, n: nat) {
    && (forall a :: 0 <= a < |order| ==> order[a] < n)
    && (forall a, b :: 0 <= a < b < |order| ==> order[a] != order[b])
  }

  predicate Ordered(total: int, ws: seq<Weight>, order: seq<nat>)
    requires forall a :: 0 <= a < |order| ==> order[a] < |ws|
  {
    forall a, b :: 0 <= a < b < |order| ==> !Above(total, ws, order[b], order[a])
  }

  function Insert(total: int, ws: seq<Weight>, x: nat, order: seq<nat>): (r: seq<nat>)
    requires x < |ws| && forall a :: 0 <= a < |order| ==> order[a] < |ws|
    ensures forall a :: 0 <= a < |r| ==> r[a] == x || r[a] in order
    ensures x in r && forall y :: y in order ==> y in r
    ensures |r| == |order| + 1
  {
    if order == [] then [x]
    else if Above(total, ws, x, order[0]) then [x] + order
    else
      assert order == [order[0]] + order[1..];
      [order[0]] + Insert(total, ws, x, order[1..])
  }

  lemma {:induction false} InsertOrdered(total: int, ws: seq<Weight>, x: nat, order: seq<nat>)
    requires x < |ws| && forall a :: 0 <= a < |order| ==> order[a] < |ws|
    requires Ordered(total, ws, order)
    ensures Ordered(total, ws, Insert(total, ws, x, order))
  {
    if order != [] {
      if Above(total, ws, x, order[0]) {
        forall b | 0 <= b < |order|
          ensures !Above(total, ws, order[b], x)
        {
          if Above(total, ws, order[b], x) {
            AboveTransitive(total, ws, order[b], x, order[0]);
            if b == 0 {
              assert !Less(ws[x].key, ws[x].key) by { LessIrreflexive(ws[x].key); }
              LessIrreflexive(ws[order[0]].key);
            }
          }
        }
      } else {
        InsertOrdered(total, ws, x, order[1..]);
        var rest := Insert(total, ws, x, order[1..]);
        forall b | 0 <= b < |rest|
          ensures !Above(total, ws, rest[b], order[0])
        {
          if rest[b] != x {
            var a :| 0 <= a < |order[1..]| && order[1..][a] == rest[b];
            assert order[a + 1] == rest[b];
          }
        }
      }
    }
  }

  lemma {:induction false} LessIrreflexive(a: string)
    ensures !Less(a, a)
  {
    if a != [] {
      LessIrreflexive(a[1..]);
    }
  }

  /** The first n keys in the order the remainder is dealt out in. */
  function Ranked(total: int, ws: seq<Weight>, n: nat): (order: seq<nat>)
    requires n <= |ws|
    ensures |order| == n && forall a :: 0 <= a < n ==> order[a] < n
  {
    if n == 0 then [] else Insert(total, ws, n - 1, Ranked(total, ws, n - 1))
  }

  lemma {:induction false} RankedOrdered(total: int, ws: seq<Weight>, n: nat)
    requires n <= |ws|
    ensures Ordered(total, ws, Ranked(total, ws, n))
  {
    hide Above, Insert;
    if n > 0 {
      RankedOrdered(total, ws, n - 1);
      InsertOrdered(total, ws, n - 1, Ranked(total, ws, n - 1));
    }
  }

  lemma {:induction false} InsertDistinct(total: int, ws: seq<Weight>, x: nat, order: seq<nat>)
    requires x < |ws| && x !in order && Indices(order, |ws|)
    ensures Indices(Insert(total, ws, x, order), |ws|)
  {
    hide Above;
    if order != [] && !Above(total, ws, x, order[0]) {
      InsertDistinct(total, ws, x, order[1..]);
      var rest := Insert(total, ws, x, order[1..]);
      assert order[0] !in order[1..];
      assert order[0] !in rest;
    }
  }

  lemma {:induction false} RankedDistinct(total: int, ws: seq<Weight>, n: nat)
    requires n <= |ws|
    ensures Indices(Ranked(total, ws, n), n)
  {
    hide Insert, Above;
    if n > 0 {
      RankedDistinct(total, ws, n - 1);
      InsertDistinct(total, ws, n - 1, Ranked(total, ws, n - 1));
    }
  }

  /** One more for each of the picked keys. */
  function Bumped(shares: seq<int>, picks: seq<nat>): (r: seq<int>)
    requires forall a :: 0 <= a < |picks| ==> picks[a] < |shares|
    ensures |r| == |shares|
  {
    if picks == [] then shares
    else
      var k := |picks| - 1;
      var before := Bumped(shares, picks[..k]);
      before[picks[k] := before[picks[k]] + 1]
  }

  function Remainder(total: int, ws: seq<Weight>): int {
    total - Sum(Floors(total, ws))
  }

  function Clamp(n: int, limit: nat): (r: nat)
    ensures r <= limit
  {
    if n < 0 then 0 else if n > limit then limit else n
  }

  function Picks(total: int, ws: seq<Weight>): (picks: seq<nat>)
    ensures forall a :: 0 <= a < |picks| ==> picks[a] < |ws|
  {
    Ranked(total, ws, |ws|)[..Clamp(Remainder(total, ws), |ws|)]
  }

  function Dealt(total: int, ws: seq<Weight>): (shares: seq<int>)
    ensures |shares| == |ws|
  {
    Bumped(Floors(total, ws), Picks(total, ws))
  }

  method DivisorOf(ws: seq<Weight>) returns (weightTotal: real)
    ensures weightTotal == Divisor(ws)
  {
    weightTotal := 0.0;
    ghost var all := Weights(ws);
    for i := 0 to |ws|
      invariant weightTotal == SumReal(all[..i])
    {
      weightTotal := weightTotal + ws[i].weight;
      SumRealLast(all[..i + 1]);
      assert all[..i + 1][..i] == all[..i];
    }
    assert all[..|ws|] == all;
    if weightTotal == 0.0 {
      weightTotal := 1.0;
    }
  }

  /** The quotas rounded down, and what that leaves of the total. */
  method RoundDown(total: int, ws: seq<Weight>) returns (shares: seq<int>, remainder: int)
    ensures shares == Floors(total, ws) && remainder == Remainder(total, ws)
  {
    var weightTotal := DivisorOf(ws);
    shares := [];
    remainder := total;
    for i := 0 to |ws|
      invariant shares == Floors(total, ws)[..i]
      invariant remainder == total - Sum(shares)
    {
      var share := Due(total, ws[i].weight, weightTotal).Floor;
      assert share == Floors(total, ws)[i];
      SumConcat(shares, [share]);
      shares := shares + [share];
      remainder := remainder - share;
    }
    assert shares == Floors(total, ws);
  }

  method Deal(total: int, ws: seq<Weight>) returns (shares: seq<int>)
    ensures shares == Dealt(total, ws)
  {
    hide Ranked, Floors, Quota;
    var remainder: int;
    shares, remainder := RoundDown(total, ws);
    ghost var floors := shares;
    var order := Ranked(total, ws, |ws|);
    var k := 0;
    while k < remainder && k < |order|
      invariant 0 <= k <= |order|
      invariant k <= Clamp(remainder, |order|)
      invariant shares == Bumped(floors, order[..k])
    {
      assert order[..k + 1][..k] == order[..k];
      shares := shares[order[k] := shares[order[k]] + 1];
      k := k + 1;
    }
  }

  lemma {:induction false} BumpedSum(shares: seq<int>, picks: seq<nat>)
    requires forall a :: 0 <= a < |picks| ==> picks[a] < |shares|
    ensures Sum(Bumped(shares, picks)) == Sum(shares) + |picks|
  {
    if picks != [] {
      var k := |picks| - 1;
      BumpedSum(shares, picks[..k]);
      SumUpdate(Bumped(shares, picks[..k]), picks[k], Bumped(shares, picks[..k])[picks[k]] + 1);
    }
  }

  lemma {:induction false} BumpedAt(shares: seq<int>, picks: seq<nat>, i: nat)
    requires Indices(picks, |shares|) && i < |shares|
    ensures Bumped(shares, picks)[i] == shares[i] + if i in picks then 1 else 0
  {
    if picks != [] {
      var k := |picks| - 1;
      BumpedAt(shares, picks[..k], i);
      assert picks == picks[..k] + [picks[k]];
    }
  }

  lemma WholeAndPart(total: int, ws: seq<Weight>, i: nat)
    requires i < |ws|
    ensures Floors(total, ws)[i] as real + FractionsOf(total, ws)[i] == Due(total, Weights(ws)[i], Divisor(ws))
  {
    hide Due;
  }

  /** The quotas add up to the total's share of the summed weights. */
  lemma {:induction false} QuotasAdd(total: int, ws: seq<Weight>, n: nat)
    requires n <= |ws|
    ensures Sum(Floors(total, ws)[..n]) as real + SumReal(FractionsOf(total, ws)[..n]) ==
            Due(total, SumReal(Weights(ws)[..n]), Divisor(ws))
  {
    hide Floors, FractionsOf, Divisor, Quota, Fraction, Due;
    DueAdds(total, 0.0, 0.0, Divisor(ws));
    if n > 0 {
      QuotasAdd(total, ws, n - 1);
      var floors, fractions, weights := Floors(total, ws)[..n], FractionsOf(total, ws)[..n], Weights(ws)[..n];
      assert floors[..n - 1] == Floors(total, ws)[..n - 1];
      assert fractions[..n - 1] == FractionsOf(total, ws)[..n - 1];
      assert weights[..n - 1] == Weights(ws)[..n - 1];
      assert floors == floors[..n - 1] + [floors[n - 1]];
      calc {
        Sum(floors) as real + SumReal(fractions);
        { SumConcat(floors[..n - 1], [floors[n - 1]]); SumRealLast(fractions); }
        (Sum(floors[..n - 1]) as real + SumReal(fractions[..n - 1])) + (floors[n - 1] as real + fractions[n - 1]);
        { WholeAndPart(total, ws, n - 1); }
        Due(total, SumReal(weights[..n - 1]), Divisor(ws)) + Due(total, weights[n - 1], Divisor(ws));
        { DueAdds(total, SumReal(weights[..n - 1]), weights[n - 1], Divisor(ws)); }
        Due(total, SumReal(weights[..n - 1]) + weights[n - 1], Divisor(ws));
        { SumRealLast(weights); }
        Due(total, SumReal(weights), Divisor(ws));
      }
    }
  }

  lemma DueAdds(total: int, a: real, b: real, d: real)
    requires d != 0.0
    ensures Due(total, a + b, d) == Due(total, a, d) + Due(total, b, d)
  {
  }

  lemma AllDue(total: int, d: real)
    requires d != 0.0
    ensures Due(total, d, d) == total as real
  {
  }

  function FractionsOf(total: int, ws: seq<Weight>): (f: seq<real>)
    ensures |f| == |ws|
    ensures forall i :: 0 <= i < |ws| ==> f[i] == Fraction(total, ws, i)
  {
    seq(|ws|, i requires 0 <= i < |ws| => Fraction(total, ws, i))
  }

  function FractionsIn(total: int, ws: seq<Weight>, order: seq<nat>): real
    requires forall a :: 0 <= a < |order| ==> order[a] < |ws|
  {
    if order == [] then 0.0 else Fraction(total, ws, order[0]) + FractionsIn(total, ws, order[1..])
  }

  lemma {:induction false} InsertAddsFraction(total: int, ws: seq<Weight>, x: nat, order: seq<nat>)
    requires x < |ws| && forall a :: 0 <= a < |order| ==> order[a] < |ws|
    ensures FractionsIn(total, ws, Insert(total, ws, x, order)) ==
            Fraction(total, ws, x) + FractionsIn(total, ws, order)
  {
    if order != [] && !Above(total, ws, x, order[0]) {
      InsertAddsFraction(total, ws, x, order[1..]);
    }
  }

  lemma {:induction false} RankedFractions(total: int, ws: seq<Weight>, n: nat)
    requires n <= |ws|
    ensures FractionsIn(total, ws, Ranked(total, ws, n)) == SumReal(FractionsOf(total, ws)[..n])
  {
    hide Fraction, Insert, Quota, FractionsOf;
    if n > 0 {
      var before, now := FractionsOf(total, ws)[..n - 1], FractionsOf(total, ws)[..n];
      assert now[..n - 1] == before;
      calc {
        FractionsIn(total, ws, Ranked(total, ws, n));
        { InsertAddsFraction(total, ws, n - 1, Ranked(total, ws, n - 1)); }
        Fraction(total, ws, n - 1) + FractionsIn(total, ws, Ranked(total, ws, n - 1));
        { RankedFractions(total, ws, n - 1); }
        Fraction(total, ws, n - 1) + SumReal(before);
        { SumRealLast(now); }
        SumReal(now);
      }
    }
  }

  /** In an order that starts with the larger remainders, those before position k carry
    * everything when the one at k has none. */
  lemma {:induction false} FractionsBefore(total: int, ws: seq<Weight>, order: seq<nat>, k: nat)
    requires forall a :: 0 <= a < |order| ==> order[a] < |ws|
    requires Ordered(total, ws, order) && k <= |order|
    requires k < |order| ==> Fraction(total, ws, order[k]) == 0.0
    ensures FractionsIn(total, ws, order) <= k as real
    ensures k > 0 ==> FractionsIn(total, ws, order) < k as real
    decreases |order|
  {
    if order != [] {
      if k == 0 {
        if |order| > 1 {
          assert !Above(total, ws, order[1], order[0]);
        }
        FractionsBefore(total, ws, order[1..], 0);
      } else {
        FractionsBefore(total, ws, order[1..], k - 1);
      }
    }
  }

  /** The weights' sum decides how much is left after the floors: all of the
    * remainders when it is not zero. */
  lemma RemainderIsFractions(total: int, ws: seq<Weight>)
    requires WeightTotal(ws) != 0.0
    ensures Remainder(total, ws) as real == FractionsIn(total, ws, Ranked(total, ws, |ws|))
    ensures 0 <= Remainder(total, ws) && (ws != [] ==> Remainder(total, ws) < |ws|)
  {
    hide Fraction, Ranked, FractionsIn, Quota, Above, Due;
    var n := |ws|;
    QuotasAdd(total, ws, n);
    RankedFractions(total, ws, n);
    assert Floors(total, ws)[..n] == Floors(total, ws);
    assert FractionsOf(total, ws)[..n] == FractionsOf(total, ws);
    assert Weights(ws)[..n] == Weights(ws);
    AllDue(total, WeightTotal(ws));
    RankedOrdered(total, ws, n);
    FractionsBefore(total, ws, Ranked(total, ws, n), n);
    FractionsNonNegative(total, ws, Ranked(total, ws, n));
  }

  lemma {:induction false} FractionsNonNegative(total: int, ws: seq<Weight>, order: seq<nat>)
    requires forall a :: 0 <= a < |order| ==> order[a] < |ws|
    ensures FractionsIn(total, ws, order) >= 0.0
  {
    if order != [] {
      FractionsNonNegative(total, ws, order[1..]);
    }
  }

  lemma RoundedEitherWay(total: int, ws: seq<Weight>, i: nat)
    requires WeightTotal(ws) != 0.0 && i < |ws|
    ensures Dealt(total, ws)[i] as real - 1.0 < Quota(total, ws, i) < Dealt(total, ws)[i] as real + 1.0
  {
    hide Due, Remainder, Divisor, Above, WeightTotal, Ranked;
    RemainderIsFractions(total, ws);
    RankedOrdered(total, ws, |ws|);
    RankedDistinct(total, ws, |ws|);
    var picks := Picks(total, ws);
    BumpedAt(Floors(total, ws), picks, i);
    if i in picks && Fraction(total, ws, i) == 0.0 {
      var k :| 0 <= k < |picks| && picks[k] == i;
      FractionsBefore(total, ws, Ranked(total, ws, |ws|), k);
    }
  }

  /** With weights that do not sum to zero the shares add up to the total, and each one is
    * its quota rounded down or up. */
  lemma DealApportions(total: int, ws: seq<Weight>)
    requires WeightTotal(ws) != 0.0
    ensures Sum(Dealt(total, ws)) == total
    ensures forall i | 0 <= i < |ws| :: Dealt(total, ws)[i] as real - 1.0 < Quota(total, ws, i) < Dealt(total, ws)[i] as real + 1.0
  {
    hide Due, Divisor, Above, Ranked, Bumped, Quota, Floors, FractionsIn;
    RemainderIsFractions(total, ws);
    BumpedSum(Floors(total, ws), Picks(total, ws));
    forall i | 0 <= i < |ws|
      ensures Dealt(total, ws)[i] as real - 1.0 < Quota(total, ws, i) < Dealt(total, ws)[i] as real + 1.0
    {
      RoundedEitherWay(total, ws, i);
    }
  }

  /** Nobody who went without had a larger remainder than somebody who was rounded up. */
  lemma LargestRemaindersFirst(total: int, ws: seq<Weight>, i: nat, j: nat)
    requires i < |ws| && j < |ws|
    requires Dealt(total, ws)[i] > Floors(total, ws)[i] && Dealt(total, ws)[j] == Floors(total, ws)[j]
    ensures !Above(total, ws, j, i)
  {
    var order, picks := Ranked(total, ws, |ws|), Picks(total, ws);
    RankedOrdered(total, ws, |ws|);
    RankedDistinct(total, ws, |ws|);
    BumpedAt(Floors(total, ws), picks, i);
    BumpedAt(Floors(total, ws), picks, j);
    var a :| 0 <= a < |picks| && picks[a] == i;
    assert order[a] == i;
    RankedHolds(total, ws, |ws|, j);
    var b :| 0 <= b < |order| && order[b] == j;
  }

  lemma {:induction false} RankedHolds(total: int, ws: seq<Weight>, n: nat, i: nat)
    requires i < n <= |ws|
    ensures i in Ranked(total, ws, n)
  {
    hide Insert;
    if i < n - 1 {
      RankedHolds(total, ws, n - 1, i);
    }
  }

  lemma {:induction false} ZeroWeights(ws: seq<Weight>)
    requires NonNegative(ws)
    ensures WeightTotal(ws) >= 0.0
    ensures WeightTotal(ws) == 0.0 ==> forall i :: 0 <= i < |ws| ==> ws[i].weight == 0.0
  {
    if ws != [] {
      assert Weights(ws)[1..] == Weights(ws[1..]);
      ZeroWeights(ws[1..]);
      assert WeightTotal(ws) == ws[0].weight + WeightTotal(ws[1..]);
      if WeightTotal(ws) == 0.0 {
        forall i | 0 <= i < |ws| ensures ws[i].weight == 0.0 {
          if i > 0 { assert ws[i] == ws[1..][i - 1]; }
        }
      }
    }
  }

  /** With non-negative weights, exactly when the shares add up to a non-negative total: some
    * weight is positive, or one each is enough. */
  lemma DealConservesExactly(total: nat, ws: seq<Weight>)
    requires NonNegative(ws)
    ensures Sum(Dealt(total, ws)) == total <==> (exists i :: 0 <= i < |ws| && ws[i].weight > 0.0) || total <= |ws|
  {
    ZeroWeights(ws);
    if WeightTotal(ws) != 0.0 {
      DealApportions(total, ws);
      if forall i :: 0 <= i < |ws| ==> ws[i].weight <= 0.0 {
        AllZero(ws);
      }
    } else {
      forall i | 0 <= i < |ws| ensures Floors(total, ws)[i] == 0 {
      }
      SumOfSteps(0, 0, |ws|, Floors(total, ws));
      BumpedSum(Floors(total, ws), Picks(total, ws));
    }
  }

  lemma {:induction false} AllZero(ws: seq<Weight>)
    requires NonNegative(ws) && forall i :: 0 <= i < |ws| ==> ws[i].weight <= 0.0
    ensures WeightTotal(ws) == 0.0
  {
    if ws != [] {
      assert Weights(ws)[1..] == Weights(ws[1..]);
      AllZero(ws[1..]);
    }
  }

  /** For instance: five users over two engines of weight zero are not five. */
  lemma ZeroWeightsLoseUsers()
    ensures Sum(Dealt(5, [Weight("api", 0.0), Weight("browser", 0.0)])) != 5
  {
    DealConservesExactly(5, [Weight("api", 0.0), Weight("browser", 0.0)]);
  }
}
