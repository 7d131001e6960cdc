/** The split of a bill between recipients in whole cents (allocate_energy_cost in energy_platform.py). */
module CostSplit {
  import opened RealMath
  import opened Rounding

  datatype Error = NoRecipients | NonPositiveWeights

  /** Amounts as reported, and whether they were found to add up to the total. */
  datatype Split = Split(amounts: seq<real>, reconciled: bool)

  datatype Result = Ok(split: Split) | Err(error: Error)

  const TOLERANCE: real := 0.01

  function Cents(x: real): real { Rounded(x, CENTS) }

  predicate WholeCents(x: real) { Exact(x, CENTS) }

  function Weight(meter: real): real { Max(0.0, meter) }

  function Weights(meters: seq<real>): (w: seq<real>)
    ensures |w| == |meters| && forall i :: 0 <= i < |w| ==> w[i] == Weight(meters[i])
  {
    seq(|meters|, i requires 0 <= i < |meters| => Weight(meters[i]))
  }

  /** The exact share of recipient i. */
  function Share(total: real, w: seq<real>, i: nat): real
    requires i < |w| && Sum(w) > 0.0
  {
    Mul(total, w[i]) / Sum(w)
  }

  /** All recipients but the last get their share in whole cents, the last whatever is left. */
  ghost predicate IsSplit(total: real, w: seq<real>, amounts: seq<real>)
    requires |w| > 0 && Sum(w) > 0.0
  {
    && |amounts| == |w|
    && (forall i :: 0 <= i < |w| - 1 ==> ShareRounded(total, w, amounts, i))
    && amounts[|w| - 1] == Cents(total - Total(amounts, |w| - 1))
  }

  ghost predicate ShareRounded(total: real, w: seq<real>, amounts: seq<real>, i: nat)
    requires i < |w| == |amounts| && Sum(w) > 0.0
  {
    amounts[i] == Cents(Share(total, w, i))
  }

  // ---------------------------------------------------------------------------------------
  // What such a split satisfies
  // ---------------------------------------------------------------------------------------

  lemma {:induction false} CentsAddUp(total: real, w: seq<real>, amounts: seq<real>, k: nat)
    requires |w| > 0 && Sum(w) > 0.0 && IsSplit(total, w, amounts) && k < |w|
    ensures WholeCents(Total(amounts, k))
  {
    hide Rounded, Share, Sum;
    if k == 0 {
      Multiple(0, CENTS);
      assert 0 as real / CENTS == 0.0;
    } else {
      CentsAddUp(total, w, amounts, k - 1);
      assert ShareRounded(total, w, amounts, k - 1);
      RoundedIsExact(Share(total, w, k - 1), CENTS);
      ExactSum(Total(amounts, k - 1), amounts[k - 1], CENTS);
    }
  }

  /** The reported amounts miss the total by at most half a cent, and by nothing exactly when the total
      is in whole cents. */
  lemma SplitAddsUp(total: real, w: seq<real>, amounts: seq<real>)
    requires |w| > 0 && Sum(w) > 0.0 && IsSplit(total, w, amounts)
    ensures Abs(Sum(amounts) - total) <= 0.005
    ensures Sum(amounts) == total <==> WholeCents(total)
  {
    hide Rounded, Share;
    var others := Total(amounts, |w| - 1);
    var left := total - others;
    CentsAddUp(total, w, amounts, |w| - 1);
    assert Sum(amounts) == others + Cents(left);
    RoundedNear(left, CENTS);
    RoundedIsExact(left, CENTS);
    ExactSum(others, Cents(left), CENTS);
    if WholeCents(total) { ExactSum(total, others, CENTS); }
  }

  /** The first k exact shares together. */
  function ShareTotal(total: real, w: seq<real>, k: nat): real
    requires k <= |w| && Sum(w) > 0.0
  {
    if k == 0 then 0.0 else ShareTotal(total, w, k - 1) + Share(total, w, k - 1)
  }

  lemma {:induction false} SharesAddUp(total: real, w: seq<real>, k: nat)
    requires k <= |w| && Sum(w) > 0.0
    ensures ShareTotal(total, w, k) == Mul(total, Total(w, k)) / Sum(w)
  {
    hide Mul;
    if k == 0 {
      MulZero(total);
    } else {
      SharesAddUp(total, w, k - 1);
      MulSum(total, Total(w, k - 1), w[k - 1]);
      QuotientSum(Mul(total, Total(w, k - 1)), Mul(total, w[k - 1]), Sum(w));
    }
  }

  lemma {:induction false} RoundingDrift(total: real, w: seq<real>, amounts: seq<real>, k: nat)
    requires |w| > 0 && Sum(w) > 0.0 && IsSplit(total, w, amounts) && k < |w|
    ensures Abs(Total(amounts, k) - ShareTotal(total, w, k)) <= 0.005 * k as real
  {
    hide Rounded, Share, Sum;
    if k > 0 {
      RoundingDrift(total, w, amounts, k - 1);
      assert ShareRounded(total, w, amounts, k - 1);
      RoundedNear(Share(total, w, k - 1), CENTS);
    }
  }

  /** Every recipient but the last is within half a cent of the exact share; the last carries the
      rounding of all others, plus its own when the total is not in whole cents. */
  lemma SplitErrors(total: real, w: seq<real>, amounts: seq<real>, i: nat)
    requires |w| > 0 && Sum(w) > 0.0 && IsSplit(total, w, amounts) && i < |w|
    ensures i < |w| - 1 ==> Abs(amounts[i] - Share(total, w, i)) <= 0.005
    ensures var n := |w|;
            Abs(amounts[n - 1] - Share(total, w, n - 1)) <=
            0.005 * (n - 1) as real + (if WholeCents(total) then 0.0 else 0.005)
  {
    hide Rounded, Share, Mul;
    if i < |w| - 1 {
      assert ShareRounded(total, w, amounts, i);
      RoundedNear(Share(total, w, i), CENTS);
    }
    SplitAddsUp(total, w, amounts);
    RoundingDrift(total, w, amounts, |w| - 1);
    SharesAddUp(total, w, |w|);
    QuotientOfProduct(total, Sum(w));
  }

  /** A recipient other than the last never gets less than one with a smaller weight. */
  lemma SplitKeepsOrder(total: real, w: seq<real>, amounts: seq<real>, i: nat, j: nat)
    requires |w| > 0 && Sum(w) > 0.0 && IsSplit(total, w, amounts) && total >= 0.0
    requires i < |w| - 1 && j < |w| - 1 && w[i] <= w[j]
    ensures amounts[i] <= amounts[j]
  {
    hide Rounded, Mul;
    assert ShareRounded(total, w, amounts, i) && ShareRounded(total, w, amounts, j);
    MulOrder(w[i], w[j], total);
    QuotientOrder(Mul(total, w[i]), Mul(total, w[j]), Sum(w));
    RoundedMonotone(Share(total, w, i), Share(total, w, j), CENTS);
  }

  /** n recipients with the same meter. */
  function Equal(n: nat): (w: seq<real>)
    ensures |w| == n && Sum(w) == n as real && forall i :: 0 <= i < n ==> w[i] == 1.0
  {
    if n == 0 then [] else SumSnoc(Equal(n - 1), 1.0); Equal(n - 1) + [1.0]
  }

  /** The last share can come out negative although total and weights are not: six cents over eight
      equal meters give seven times a cent and once minus a cent. */
  lemma LastCanBeNegative(amounts: seq<real>)
    requires IsSplit(0.06, Equal(8), amounts)
    ensures amounts[7] == -0.01
  {
    hide Equal;
    forall i: nat | i < 7 ensures amounts[i] == 0.01 {
      assert ShareRounded(0.06, Equal(8), amounts, i);
      assert Share(0.06, Equal(8), i) == 0.0075;
      assert Mul(0.0075, CENTS) == 0.75;
    }
    assert Total(amounts, 0) == 0.0;
    assert Total(amounts, 1) == 0.01;
    assert Total(amounts, 2) == 0.02;
    assert Total(amounts, 3) == 0.03;
    assert Total(amounts, 4) == 0.04;
    assert Total(amounts, 5) == 0.05;
    assert Total(amounts, 6) == 0.06;
    assert Total(amounts, 7) == 0.07;
    assert Mul(0.06 - 0.07, CENTS) == -1.0;
  }

  /** The rounded shares of the first k recipients. */
  function RoundedShares(total: real, w: seq<real>, k: nat): real
    requires k <= |w| && Sum(w) > 0.0
  {
    if k == 0 then 0.0 else RoundedShares(total, w, k - 1) + Cents(Share(total, w, k - 1))
  }

  lemma {:induction false} OthersAreRounded(total: real, w: seq<real>, amounts: seq<real>, k: nat)
    requires |w| > 0 && Sum(w) > 0.0 && IsSplit(total, w, amounts) && k < |w|
    ensures Total(amounts, k) == RoundedShares(total, w, k)
  {
    hide Rounded, Share, Sum;
    if k > 0 {
      OthersAreRounded(total, w, amounts, k - 1);
      assert ShareRounded(total, w, amounts, k - 1);
    }
  }

  lemma RoundedSign(x: real)
    ensures Cents(x) >= 0.0 <==> x >= -0.005
  {
    MulIs(x, CENTS);
  }

  /** When the last share is not negative: exactly if the others' rounded shares exceed the total by no
      more than half a cent, and for a total in whole cents exactly if they do not exceed it. */
  lemma LastNonNegativeIff(total: real, w: seq<real>, amounts: seq<real>)
    requires |w| > 0 && Sum(w) > 0.0 && IsSplit(total, w, amounts)
    ensures amounts[|w| - 1] >= 0.0 <==> RoundedShares(total, w, |w| - 1) <= total + 0.005
    ensures WholeCents(total) ==> (amounts[|w| - 1] >= 0.0 <==> RoundedShares(total, w, |w| - 1) <= total)
  {
    hide Share, Sum, Rounded;
    var others := RoundedShares(total, w, |w| - 1);
    OthersAreRounded(total, w, amounts, |w| - 1);
    RoundedSign(total - others);
    if WholeCents(total) {
      CentsAddUp(total, w, amounts, |w| - 1);
      ExactSum(total, others, CENTS);
    }
  }

  /** A caller can rule a negative share out beforehand: it takes an exact last share below half a cent
      per other recipient. */
  lemma LargeShareIsSafe(total: real, w: seq<real>, amounts: seq<real>)
    requires |w| > 0 && Sum(w) > 0.0 && IsSplit(total, w, amounts)
    requires Share(total, w, |w| - 1) >= 0.005 * (|w| - 1) as real + (if WholeCents(total) then 0.0 else 0.005)
    ensures amounts[|w| - 1] >= 0.0
  {
    hide Share, Rounded, Sum;
    SplitErrors(total, w, amounts, |w| - 1);
  }

  /** Reconciled is reported although the sum misses the total: half a cent for one recipient becomes
      nothing. */
  lemma ReconciledCanMiss(amounts: seq<real>)
    requires IsSplit(0.005, Equal(1), amounts)
    ensures Sum(amounts) == 0.0 && Abs(Sum(amounts) - 0.005) < TOLERANCE
  {
    hide Equal;
    assert Total(amounts, 0) == 0.0;
    assert Mul(0.005, CENTS) == 0.5;
  }

  // ---------------------------------------------------------------------------------------
  // The loop
  // ---------------------------------------------------------------------------------------

  /** What the meters of the first k recipients show together; a negative reading counts as nothing. */
  function Used(meters: seq<real>, k: nat): real
    requires k <= |meters|
  {
    if k == 0 then 0.0 else Used(meters, k - 1) + (if meters[k - 1] > 0.0 then meters[k - 1] else 0.0)
  }

  function ByMeter(total: real, meters: seq<real>, i: nat): real
    requires i < |meters| && Used(meters, |meters|) > 0.0
  {
    if meters[i] > 0.0 then Mul(total, meters[i]) / Used(meters, |meters|) else 0.0
  }

  lemma ShareIsByMeter(total: real, meters: seq<real>, i: nat)
    requires i < |meters| && Sum(Weights(meters)) > 0.0
    ensures Used(meters, |meters|) > 0.0 && ByMeter(total, meters, i) == Share(total, Weights(meters), i)
  {
    hide Mul;
    UsedIsWeight(meters, |meters|);
    MulZero(total);
  }

  /** Recipient i pays what the meter shows of the whole, half a cent of rounding aside; the last one bears
      the rounding of the others. */
  ghost predicate PaysByMeter(total: real, meters: seq<real>, amounts: seq<real>, i: nat)
    requires i < |meters| == |amounts| && Used(meters, |meters|) > 0.0
  {
    var n := |meters|;
    && WholeCents(amounts[i])
    && Abs(amounts[i] - ByMeter(total, meters, i)) <= if i < n - 1 then 0.005 else 0.005 * n as real
  }

  lemma {:induction false} UsedIsWeight(meters: seq<real>, k: nat)
    requires k <= |meters|
    ensures Used(meters, k) == Total(Weights(meters), k)
  {
    if k > 0 { UsedIsWeight(meters, k - 1); }
  }

  lemma SplitIsByMeter(total: real, meters: seq<real>, amounts: seq<real>, i: nat)
    requires i < |meters| && Sum(Weights(meters)) > 0.0 && IsSplit(total, Weights(meters), amounts)
    ensures Used(meters, |meters|) > 0.0 && PaysByMeter(total, meters, amounts, i)
  {
    hide Rounded, Mul, Share, Used, ByMeter, Sum;
    var w, n := Weights(meters), |meters|;
    ShareIsByMeter(total, meters, i);
    SplitErrors(total, w, amounts, i);
    if i < n - 1 {
      assert ShareRounded(total, w, amounts, i);
      RoundedIsExact(Share(total, w, i), CENTS);
    } else {
      RoundedIsExact(total - Total(amounts, n - 1), CENTS);
    }
  }

  /** allocate_energy_cost. It always reports the split as reconciled. */
  method AllocateEnergyCost(total: real, meters: seq<real>) returns (r: Result)
    ensures r == Err(NoRecipients) <==> meters == []
    ensures r == Err(NonPositiveWeights) <==> meters != [] && forall i :: 0 <= i < |meters| ==> meters[i] <= 0.0
    ensures r.Ok? ==>
              Sum(Weights(meters)) > 0.0 && IsSplit(total, Weights(meters), r.split.amounts) && r.split.reconciled
    ensures r.Ok? ==>
              && Used(meters, |meters|) > 0.0 && |r.split.amounts| == |meters|
              && (forall i :: 0 <= i < |meters| ==> PaysByMeter(total, meters, r.split.amounts, i))
              && Abs(Sum(r.split.amounts) - total) <= 0.005
  {
    hide Rounded, PaysByMeter;
    if meters == [] {
      return Err(NoRecipients);
    }
    var weights := Weights(meters);
    var denominator := Sum(weights);
    WeightsPositiveIff(meters, |meters|);
    if denominator <= 0.0 {
      return Err(NonPositiveWeights);
    }
    var amounts: seq<real> := [];
    var given := 0.0;
    for i := 0 to |weights|
      invariant |amounts| == i
      invariant i < |weights| ==> given == Total(amounts, i)
      invariant forall j :: 0 <= j < i && j < |weights| - 1 ==> amounts[j] == Cents(Share(total, weights, j))
      invariant i == |weights| ==> amounts[i - 1] == Cents(total - Total(amounts, i - 1))
    {
      var amount := if i == |weights| - 1 then total - given else Cents(Mul(total, weights[i]) / denominator);
      given := given + amount;
      TotalEqual(amounts, amounts + [Cents(amount)], i);
      RoundedIsExact(Share(total, weights, i), CENTS);
      amounts := amounts + [Cents(amount)];
    }
    assert IsSplit(total, weights, amounts);
    SplitAddsUp(total, weights, amounts);
    UsedIsWeight(meters, |meters|);
    forall i | 0 <= i < |meters| ensures PaysByMeter(total, meters, amounts, i) {
      SplitIsByMeter(total, meters, amounts, i);
    }
    r := Ok(Split(amounts, Abs(Sum(amounts) - total) < TOLERANCE));
  }

  lemma {:induction false} WeightsPositiveIff(meters: seq<real>, k: nat)
    requires k <= |meters|
    ensures Total(Weights(meters), k) >= 0.0
    ensures Total(Weights(meters), k) == 0.0 <==> forall i :: 0 <= i < k ==> meters[i] <= 0.0
  {
    if k > 0 { WeightsPositiveIff(meters, k - 1); }
  }
}
