/**
 * The cost accounting every variant's TDC1 shares: what one technology adds
 * to a region's discounted cost in a year.
 */
module Accounts {
  import opened Basics
  import opened ModelData
  import opened Linear

  /**
   * What technology `t` adds to a region's discounted cost in year `y`:
   * operating cost, capital investment and emission penalty, less salvage.
   */
  function NetTechnologyCost(r: Region, y: Year, v: Valuation): Tech -> real
  {
    t => v(DiscountedOperatingCost(r, t, y)) + v(DiscountedCapitalInvestment(r, t, y))
         + v(DiscountedTechnologyEmissionsPenalty(r, t, y)) - v(DiscountedSalvageValue(r, t, y))
  }

  /** The four technology lists of TDC1, summed separately, give the summed net cost. */
  lemma {:induction false} NetCostSplits(ts: seq<Tech>, r: Region, y: Year, v: Valuation)
    ensures Sum(ts, NetTechnologyCost(r, y, v)) ==
      ColumnSum(ts, t => DiscountedOperatingCost(r, t, y), v) + ColumnSum(ts, t => DiscountedCapitalInvestment(r, t, y), v)
      + ColumnSum(ts, t => DiscountedTechnologyEmissionsPenalty(r, t, y), v) - ColumnSum(ts, t => DiscountedSalvageValue(r, t, y), v)
  {
    if |ts| > 0 {
      NetCostSplits(ts[1..], r, y, v);
    }
  }
}
