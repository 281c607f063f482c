/** What the California scripts share about CDTFA rates: the statewide base
    rate and the district tax, the part of a combined rate above that base. */
module Cdtfa {
  import opened Numbers

  /** The California statewide base rate, 7.25%. */
  const CaStateBaseRate := 0.0725

  /** The `source` and `version` the California dataset files carry. */
  const CdtfaSource := "California Department of Tax and Fee Administration (CDTFA)"
  const DataVersion := "0.1.0"

  /** `Math.max(0, Math.round((rate - 0.0725) * 10000) / 10000)`. */
  function DistrictTax(rate: Number): (r: Number)
    ensures r.NaN? <==> rate.NaN?
    ensures !Less(r, Finite(0.0))
  {
    Max(Finite(0.0), RoundTo(Sub(rate, Finite(CaStateBaseRate)), 4))
  }

  /** For a finite rate the district tax is the excess over the base rate to
      within half a unit of the fourth decimal, and zero once the rate lies
      that far below the base. */
  lemma DistrictTaxValue(x: real)
    ensures DistrictTax(Finite(x)).Finite?
    ensures var t := DistrictTax(Finite(x)).x;
            t >= 0.0 &&
            (x - CaStateBaseRate >= 0.00005 ==> -0.00005 < t - (x - CaStateBaseRate) <= 0.00005) &&
            (x - CaStateBaseRate < -0.00005 ==> t == 0.0)
  {
    var d := x - CaStateBaseRate;
    var r := RoundTo(Finite(d), 4);
    assert Pow10(4) == 10000;
    assert -0.00005 < r.x - d <= 0.00005;
  }
}
