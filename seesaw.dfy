/** The balance calculation of the sleep seesaw animation: two counts ("good"
    sleep and "low" sleep) become the seesaw's tilt angle and one size factor
    per emoji. Arithmetic is over Dafny's exact reals, not IEEE doubles. */
module Seesaw {

  /** Largest tilt magnitude, in degrees; the multiplier of the tilt formula. */
  const MaxTiltDegrees: real := 20.0

  /** The script's default growth factor of the dominant emoji (30 %). */
  const DefaultFinalSizeChange: real := 1.30

  /** The three values substituted into the animation script. */
  datatype Balance = Balance(tiltDegrees: real, lowSizeFactor: real, goodSizeFactor: real)

  /** Signed tilt: the difference of the two proportions scaled to the maximum
      tilt, or 0 when there is nothing to count (the division guard). Equal
      counts, none at all included, leave the seesaw level. */
  function Tilt(goodCount: nat, lowCount: nat): (r: real)
    ensures goodCount == lowCount ==> r == 0.0
  {
    var totalCount := goodCount + lowCount;
    if totalCount > 0 then
      (goodCount as real / totalCount as real - lowCount as real / totalCount as real) * MaxTiltDegrees
    else
      0.0
  }

  /** Size factor of the "good" emoji: grown when good dominates, shrunk by the
      reciprocal when low dominates, unchanged otherwise. It is always one of
      the three values the script assigns, hence positive. */
  function GoodSizeFactor(goodCount: nat, lowCount: nat, finalSizeChange: real): (r: real)
    requires finalSizeChange > 0.0
    ensures r in {1.0, finalSizeChange, 1.0 / finalSizeChange}
    ensures r > 0.0
  {
    if goodCount + lowCount > 0 && goodCount > lowCount then finalSizeChange
    else if goodCount + lowCount > 0 && lowCount > goodCount then 1.0 / finalSizeChange
    else 1.0
  }

  /** Size factor of the "low" emoji, the mirror image of GoodSizeFactor: one
      of the same three values, positive, and the two factors multiply to
      exactly 1 (one side grows as much as the other shrinks). */
  function LowSizeFactor(goodCount: nat, lowCount: nat, finalSizeChange: real): (r: real)
    requires finalSizeChange > 0.0
    ensures r in {1.0, finalSizeChange, 1.0 / finalSizeChange}
    ensures r > 0.0
    ensures r * GoodSizeFactor(goodCount, lowCount, finalSizeChange) == 1.0
  {
    if goodCount + lowCount > 0 && goodCount > lowCount then 1.0 / finalSizeChange
    else if goodCount + lowCount > 0 && lowCount > goodCount then finalSizeChange
    else 1.0
  }

  /** The whole result of the calculation, as a value. It is the neutral
      result (level seesaw, both factors at their defaults of 1.0) exactly
      when the counts are equal, both zero included. */
  function BalanceOf(goodCount: nat, lowCount: nat, finalSizeChange: real): (r: Balance)
    requires finalSizeChange > 0.0
    ensures r == Balance(0.0, 1.0, 1.0) <==> goodCount == lowCount
  {
    TiltSign(goodCount, lowCount);
    Balance(Tilt(goodCount, lowCount),
            LowSizeFactor(goodCount, lowCount, finalSizeChange),
            GoodSizeFactor(goodCount, lowCount, finalSizeChange))
  }

  /** The calculation as the script performs it: defaults first, then the
      guarded overwrites. */
  method ComputeBalance(goodCount: nat, lowCount: nat, finalSizeChange: real)
    returns (tiltDegrees: real, lowSizeFactor: real, goodSizeFactor: real)
    requires finalSizeChange > 0.0
    ensures Balance(tiltDegrees, lowSizeFactor, goodSizeFactor) == BalanceOf(goodCount, lowCount, finalSizeChange)
    ensures -MaxTiltDegrees <= tiltDegrees <= MaxTiltDegrees
    ensures lowSizeFactor > 0.0 && goodSizeFactor > 0.0
    ensures goodSizeFactor * lowSizeFactor == 1.0
  {
    var totalCount := goodCount + lowCount;
    tiltDegrees := 0.0;
    lowSizeFactor := 1.0;
    goodSizeFactor := 1.0;

    if totalCount > 0 {
      var goodPercent := goodCount as real / totalCount as real;
      var lowPercent := lowCount as real / totalCount as real;
      tiltDegrees := (goodPercent - lowPercent) * MaxTiltDegrees;

      if goodCount > lowCount {
        goodSizeFactor := finalSizeChange;
        lowSizeFactor := 1.0 / finalSizeChange;
      } else if lowCount > goodCount {
        goodSizeFactor := 1.0 / finalSizeChange;
        lowSizeFactor := finalSizeChange;
      }
    }
    TiltBounded(goodCount, lowCount);
  }

  /** Reference definition of the tilt: 20 times the difference over the total. */
  lemma TiltClosedForm(goodCount: nat, lowCount: nat)
    requires goodCount + lowCount > 0
    ensures Tilt(goodCount, lowCount)
         == MaxTiltDegrees * (goodCount as real - lowCount as real) / (goodCount as real + lowCount as real)
  {
  }

  /** With nothing counted the guard skips the division: no tilt, no scaling. */
  lemma EmptyIsNeutral(finalSizeChange: real)
    requires finalSizeChange > 0.0
    ensures BalanceOf(0, 0, finalSizeChange) == Balance(0.0, 1.0, 1.0)
  {
  }

  /** The tilt never exceeds the maximum in either direction. */
  lemma TiltBounded(goodCount: nat, lowCount: nat)
    ensures -MaxTiltDegrees <= Tilt(goodCount, lowCount) <= MaxTiltDegrees
  {
    if goodCount + lowCount > 0 {
      var g, l := goodCount as real, lowCount as real;
      var t := g + l;
      TiltClosedForm(goodCount, lowCount);
      assert -t <= g - l <= t;
      BoundedQuotient(g - l, t);
    }
  }

  /** -t <= d <= t with t > 0 gives -1 <= d / t <= 1, so 20 d / t is within 20. */
  lemma BoundedQuotient(d: real, t: real)
    requires t > 0.0 && -t <= d <= t
    ensures -MaxTiltDegrees <= MaxTiltDegrees * d / t <= MaxTiltDegrees
  {
    var q := d / t;
    assert d == q * t;
    assert (1.0 - q) * t == t - d >= 0.0;
    assert (1.0 + q) * t == t + d >= 0.0;
    assert -1.0 <= q <= 1.0;
    assert MaxTiltDegrees * d / t == MaxTiltDegrees * q;
  }

  /** The tilt leans toward the larger count, and only then. */
  lemma TiltSign(goodCount: nat, lowCount: nat)
    ensures Tilt(goodCount, lowCount) > 0.0 <==> goodCount > lowCount
    ensures Tilt(goodCount, lowCount) < 0.0 <==> lowCount > goodCount
    ensures Tilt(goodCount, lowCount) == 0.0 <==> goodCount == lowCount
  {
    if goodCount + lowCount > 0 {
      var g, l := goodCount as real, lowCount as real;
      TiltClosedForm(goodCount, lowCount);
      SignOfQuotient(MaxTiltDegrees * (g - l), g + l);
    }
  }

  /** Dividing by a positive number keeps the sign. */
  lemma SignOfQuotient(d: real, t: real)
    requires t > 0.0
    ensures d / t > 0.0 <==> d > 0.0
    ensures d / t < 0.0 <==> d < 0.0
  {
    var q := d / t;
    assert d == q * t;
    if q > 0.0 { assert q * t > 0.0; }
    if q < 0.0 { assert q * t < 0.0; }
  }

  /** For a fixed positive total, the tilt grows strictly with good - low. */
  lemma TiltMonotone(good1: nat, low1: nat, good2: nat, low2: nat)
    requires good1 + low1 == good2 + low2 > 0
    requires good1 - low1 < good2 - low2
    ensures Tilt(good1, low1) < Tilt(good2, low2)
  {
    var t := (good1 + low1) as real;
    TiltClosedForm(good1, low1);
    TiltClosedForm(good2, low2);
    assert good2 as real + low2 as real == t;
    QuotientStrictMono(MaxTiltDegrees * (good1 as real - low1 as real),
                       MaxTiltDegrees * (good2 as real - low2 as real), t);
  }

  /** Dividing by a positive number preserves strict order. */
  lemma QuotientStrictMono(a: real, b: real, t: real)
    requires t > 0.0 && a < b
    ensures a / t < b / t
  {
    var qa, qb := a / t, b / t;
    assert qa * t == a;
    assert qb * t == b;
    assert (qb - qa) * t == b - a;
  }

  /** More "good" days never tip the seesaw toward "low": the tilt does not
      fall when the good count grows, and rises strictly when there is a low
      count to outweigh. */
  lemma TiltRisesWithGood(goodCount: nat, lowCount: nat, n: nat)
    ensures Tilt(goodCount, lowCount) <= Tilt(goodCount + n, lowCount)
    ensures n > 0 && lowCount > 0 ==> Tilt(goodCount, lowCount) < Tilt(goodCount + n, lowCount)
  {
    if goodCount + lowCount == 0 {
      TiltSign(n, 0);
    } else {
      var l := lowCount as real;
      var t1, t2 := (goodCount + lowCount) as real, (goodCount + n + lowCount) as real;
      TiltFromLowShare(goodCount, lowCount);
      TiltFromLowShare(goodCount + n, lowCount);
      QuotientAntitone(l, t1, t2);
    }
  }

  /** More "low" days never tip the seesaw toward "good", by the mirror image
      of TiltRisesWithGood. */
  lemma TiltFallsWithLow(goodCount: nat, lowCount: nat, n: nat)
    ensures Tilt(goodCount, lowCount + n) <= Tilt(goodCount, lowCount)
    ensures n > 0 && goodCount > 0 ==> Tilt(goodCount, lowCount + n) < Tilt(goodCount, lowCount)
  {
    TiltRisesWithGood(lowCount, goodCount, n);
    TiltSwap(lowCount, goodCount);
    TiltSwap(lowCount + n, goodCount);
  }

  /** With a positive total the tilt is the maximum less twice the maximum
      times the low share. */
  lemma TiltFromLowShare(goodCount: nat, lowCount: nat)
    requires goodCount + lowCount > 0
    ensures Tilt(goodCount, lowCount)
         == MaxTiltDegrees - 2.0 * MaxTiltDegrees * (lowCount as real / (goodCount + lowCount) as real)
  {
    var g, l := goodCount as real, lowCount as real;
    var t := g + l;
    TiltClosedForm(goodCount, lowCount);
    var q := l / t;
    assert q * t == l;
    assert MaxTiltDegrees * (g - l) == (MaxTiltDegrees - 2.0 * MaxTiltDegrees * q) * t;
    DivideBack(MaxTiltDegrees * (g - l), MaxTiltDegrees - 2.0 * MaxTiltDegrees * q, t);
  }

  /** Dividing a product by one of its positive factors gives the other. */
  lemma DivideBack(x: real, y: real, t: real)
    requires t > 0.0 && x == y * t
    ensures x / t == y
  {
    var r := x / t;
    assert r * t == x;
    assert (r - y) * t == 0.0;
  }

  /** A non-negative numerator over a larger positive denominator gives a
      smaller quotient, strictly so when both inequalities are strict. */
  lemma QuotientAntitone(a: real, t1: real, t2: real)
    requires a >= 0.0 && 0.0 < t1 <= t2
    ensures a / t2 <= a / t1
    ensures a > 0.0 && t1 < t2 ==> a / t2 < a / t1
  {
    var q1, q2 := a / t1, a / t2;
    assert q1 * t1 == a && q2 * t2 == a;
    assert q2 >= 0.0;
    assert q1 * t1 == q2 * t2;
    assert (q1 - q2) * t1 == q2 * (t2 - t1);
  }

  /** Exchanging the counts negates the tilt. */
  lemma TiltSwap(goodCount: nat, lowCount: nat)
    ensures Tilt(lowCount, goodCount) == -Tilt(goodCount, lowCount)
  {
    if goodCount + lowCount > 0 {
      TiltClosedForm(goodCount, lowCount);
      TiltClosedForm(lowCount, goodCount);
      var g, l := goodCount as real, lowCount as real;
      assert MaxTiltDegrees * (l - g) / (l + g) == -(MaxTiltDegrees * (g - l) / (g + l));
    }
  }

  /** Swapping the counts mirrors the seesaw: the tilt changes sign and the
      two emojis exchange their factors. */
  lemma SwapMirrors(goodCount: nat, lowCount: nat, finalSizeChange: real)
    requires finalSizeChange > 0.0
    ensures var b, m := BalanceOf(goodCount, lowCount, finalSizeChange), BalanceOf(lowCount, goodCount, finalSizeChange);
            m == Balance(-b.tiltDegrees, b.goodSizeFactor, b.lowSizeFactor)
  {
    TiltSwap(goodCount, lowCount);
  }

  /** When one count is larger, its emoji grows by finalSizeChange and the
      other shrinks by the reciprocal. */
  lemma DominantSideGrows(goodCount: nat, lowCount: nat, finalSizeChange: real)
    requires finalSizeChange > 0.0
    ensures goodCount > lowCount ==>
              GoodSizeFactor(goodCount, lowCount, finalSizeChange) == finalSizeChange &&
              LowSizeFactor(goodCount, lowCount, finalSizeChange) == 1.0 / finalSizeChange
    ensures lowCount > goodCount ==>
              LowSizeFactor(goodCount, lowCount, finalSizeChange) == finalSizeChange &&
              GoodSizeFactor(goodCount, lowCount, finalSizeChange) == 1.0 / finalSizeChange
  {
  }

  /** Only the proportion matters: scaling both counts by k > 0 changes nothing. */
  lemma ScaleInvariant(goodCount: nat, lowCount: nat, k: nat, finalSizeChange: real)
    requires k > 0 && finalSizeChange > 0.0
    ensures BalanceOf(k * goodCount, k * lowCount, finalSizeChange) == BalanceOf(goodCount, lowCount, finalSizeChange)
  {
    TiltScaleInvariant(goodCount, lowCount, k);
    ScaleOrder(goodCount, lowCount, k);
    ScaleOrder(lowCount, goodCount, k);
  }

  /** The tilt part of ScaleInvariant. */
  lemma TiltScaleInvariant(goodCount: nat, lowCount: nat, k: nat)
    requires k > 0
    ensures Tilt(k * goodCount, k * lowCount) == Tilt(goodCount, lowCount)
  {
    var kg, kl := k * goodCount, k * lowCount;
    if goodCount + lowCount > 0 {
      var g, l, kr := goodCount as real, lowCount as real, k as real;
      NatProductAsReal(k, goodCount);
      NatProductAsReal(k, lowCount);
      assert kg + kl > 0;
      TiltClosedForm(goodCount, lowCount);
      TiltClosedForm(kg, kl);
      var d, t := MaxTiltDegrees * (g - l), g + l;
      assert MaxTiltDegrees * (kg as real - kl as real) == kr * d;
      assert kg as real + kl as real == kr * t;
      CancelFactor(d, t, kr);
    }
  }

  /** Converting a product of naturals to a real distributes over the factors. */
  lemma NatProductAsReal(a: nat, b: nat)
    ensures (a * b) as real == a as real * b as real
  {
  }

  /** A common positive factor cancels from a quotient. */
  lemma CancelFactor(d: real, t: real, k: real)
    requires t > 0.0 && k > 0.0
    ensures (k * d) / (k * t) == d / t
  {
    var q := d / t;
    assert d == q * t;
    assert k * d == q * (k * t);
  }

  /** Multiplying by a positive k preserves strict order of naturals. */
  lemma ScaleOrder(a: nat, b: nat, k: nat)
    requires k > 0
    ensures k * a > k * b <==> a > b
  {
    if a > b {
      assert k * a - k * b == k * (a - b);
    } else {
      assert k * b - k * a == k * (b - a);
    }
  }

  /** The script's own inputs (4 good, 6 low, factor 1.30): the seesaw tips
      4 degrees toward "low", which grows to 1.3 while "good" shrinks to 10/13. */
  lemma DefaultScenario()
    ensures BalanceOf(4, 6, DefaultFinalSizeChange) == Balance(-4.0, 1.3, 10.0 / 13.0)
  {
  }
}
