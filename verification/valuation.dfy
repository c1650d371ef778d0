/**
 The valuation engine of the athlete transfer calculator: net proceeds of a
 sale and total cost of a purchase, in local currency (BRL), from a reference
 value in millions of euros, fee percentages, an "international" flag and the
 EUR/BRL rate. Amounts are exact reals; calc_atletas.py computes with
 binary floating point.
 */
module Valuation {

  /** Euros in one million: the form takes reference values in millions. */
  const EurosPerMillion: real := 1000000.0

  /** The 0.38% transaction tax (IOF) charged on international transfers. */
  const IofRate: real := 0.0038

  /** Gross-up of the 15% withholding income tax on international purchases,
      written as calc_atletas.py writes it. */
  const WithholdingGrossUp: real := (1.0 / 0.85) * 0.15

  /** Largest cost fraction the purchase form allows: 20% intermediation,
      international. */
  const MaxCostFraction: real := 1.0 + 20.0 / 100.0 + IofRate + 3.0 / 17.0

  function GrossEuros(valueMillions: real): real {
    valueMillions * EurosPerMillion
  }

  function IofFraction(international: bool): real {
    if international then IofRate else 0.0
  }

  function WithholdingFraction(international: bool): real {
    if international then WithholdingGrossUp else 0.0
  }

  /** The bounds the sale form's number inputs enforce. */
  predicate SaleInputsInRange(valueMillions: real, repassePercent: real, intermediationPercent: real) {
    && valueMillions >= 0.0
    && 0.0 <= repassePercent <= 50.0
    && 0.0 <= intermediationPercent <= 20.0
  }

  /** The bounds the purchase form's number inputs enforce. */
  predicate PurchaseInputsInRange(valueMillions: real, intermediationPercent: real) {
    && valueMillions >= 0.0
    && 0.0 <= intermediationPercent <= 20.0
  }

  /** A non-negative value converted at a non-negative rate is non-negative. */
  lemma ConvertedIsNonNegative(valueMillions: real, rate: real)
    ensures valueMillions >= 0.0 && rate >= 0.0 ==> GrossEuros(valueMillions) * rate >= 0.0
  {
  }

  /** x scaled by a factor in [0, 1] stays between 0 and x. */
  lemma ScaleByUnitFraction(x: real, f: real)
    ensures x >= 0.0 && 0.0 <= f <= 1.0 ==> 0.0 <= x * f <= x
  {
  }

  /** x scaled by a factor in [1, m] stays between x and x * m. */
  lemma ScaleByCostFraction(x: real, f: real, m: real)
    ensures x >= 0.0 && 1.0 <= f <= m ==> x <= x * f <= x * m
  {
  }

  /** Net proceeds of a sale: the gross value converted at `rate`, less the
      intermediation fee, the repasse (sell-on share) and, abroad, the IOF.
      Within the form's bounds the proceeds are never negative and never
      exceed the gross converted value, since the largest deduction is
      20% + 50% + 0.38% < 1. */
  function NetSaleProceeds(valueMillions: real, repassePercent: real, intermediationPercent: real,
                           international: bool, rate: real): (r: real)
    ensures SaleInputsInRange(valueMillions, repassePercent, intermediationPercent) && rate >= 0.0
            ==> 0.0 <= r <= GrossEuros(valueMillions) * rate
  {
    var converted := GrossEuros(valueMillions) * rate;
    var netFraction := 1.0 - intermediationPercent / 100.0 - repassePercent / 100.0 - IofFraction(international);
    ConvertedIsNonNegative(valueMillions, rate);
    ScaleByUnitFraction(converted, netFraction);
    converted * netFraction
  }

  /** Total cost of a purchase: the gross value converted at `rate`, plus the
      intermediation fee and, abroad, the IOF and the withholding gross-up.
      Within the form's bounds the cost lies between the gross converted value
      and that value times MaxCostFraction. */
  function TotalPurchaseCost(valueMillions: real, intermediationPercent: real,
                             international: bool, rate: real): (r: real)
    ensures PurchaseInputsInRange(valueMillions, intermediationPercent) && rate >= 0.0
            ==> GrossEuros(valueMillions) * rate <= r <= GrossEuros(valueMillions) * rate * MaxCostFraction
  {
    var converted := GrossEuros(valueMillions) * rate;
    var costFraction := 1.0 + intermediationPercent / 100.0 + IofFraction(international) + WithholdingFraction(international);
    ConvertedIsNonNegative(valueMillions, rate);
    ScaleByCostFraction(converted, costFraction, MaxCostFraction);
    // names the upper bound in the form the ensures uses
    assert converted * MaxCostFraction == GrossEuros(valueMillions) * rate * MaxCostFraction;
    converted * costFraction
  }

  /** The withholding gross-up 0.15 / 0.85 is exactly 3/17 (about 0.17647). */
  lemma WithholdingIsThreeSeventeenths()
    ensures WithholdingGrossUp == 3.0 / 17.0
    ensures 0.17647 < WithholdingGrossUp < 0.17648
  {
  }

  /** A domestic sale deducts each fee as a share of the gross converted value. */
  lemma DomesticSaleDeductsFees(valueMillions: real, repassePercent: real, intermediationPercent: real, rate: real)
    ensures var g := valueMillions * 1000000.0 * rate;
            NetSaleProceeds(valueMillions, repassePercent, intermediationPercent, false, rate)
            == g - g * intermediationPercent / 100.0 - g * repassePercent / 100.0
  {
  }

  /** An international sale yields exactly 0.38% of the gross converted value
      less than the same sale at home. */
  lemma InternationalSaleDeductsIof(valueMillions: real, repassePercent: real, intermediationPercent: real, rate: real)
    ensures NetSaleProceeds(valueMillions, repassePercent, intermediationPercent, true, rate)
            == NetSaleProceeds(valueMillions, repassePercent, intermediationPercent, false, rate)
               - valueMillions * 1000000.0 * rate * 0.0038
  {
  }

  /** The purchase cost fraction: 1 + intermediation at home, and in addition
      the IOF and the 3/17 gross-up abroad. */
  lemma PurchaseCostFractions(valueMillions: real, intermediationPercent: real, rate: real)
    ensures var g := valueMillions * 1000000.0 * rate;
            && TotalPurchaseCost(valueMillions, intermediationPercent, false, rate)
               == g * (1.0 + intermediationPercent / 100.0)
            && TotalPurchaseCost(valueMillions, intermediationPercent, true, rate)
               == g * (1.0 + intermediationPercent / 100.0 + 0.0038 + 3.0 / 17.0)
  {
  }

  /** Without fees, at home, both the proceeds and the cost are exactly the
      gross converted value. */
  lemma NoFeesIsGross(valueMillions: real, rate: real)
    ensures NetSaleProceeds(valueMillions, 0.0, 0.0, false, rate) == valueMillions * 1000000.0 * rate
    ensures TotalPurchaseCost(valueMillions, 0.0, false, rate) == valueMillions * 1000000.0 * rate
  {
  }

  /** Within the form's bounds, selling a player never yields more than buying
      the same player at the same rate costs. */
  lemma ProceedsNeverExceedCost(valueMillions: real, repassePercent: real, saleFee: real, saleAbroad: bool,
                                purchaseFee: real, purchaseAbroad: bool, rate: real)
    requires SaleInputsInRange(valueMillions, repassePercent, saleFee)
    requires PurchaseInputsInRange(valueMillions, purchaseFee)
    requires rate >= 0.0
    ensures NetSaleProceeds(valueMillions, repassePercent, saleFee, saleAbroad, rate)
            <= GrossEuros(valueMillions) * rate
            <= TotalPurchaseCost(valueMillions, purchaseFee, purchaseAbroad, rate)
  {
  }

  /** Higher fees, or going abroad, never raise the proceeds of a sale. */
  lemma ProceedsFallWithFees(valueMillions: real, rate: real,
                             repasse1: real, fee1: real, abroad1: bool,
                             repasse2: real, fee2: real, abroad2: bool)
    requires valueMillions >= 0.0 && rate >= 0.0
    requires repasse1 <= repasse2 && fee1 <= fee2 && (abroad1 ==> abroad2)
    ensures NetSaleProceeds(valueMillions, repasse2, fee2, abroad2, rate)
            <= NetSaleProceeds(valueMillions, repasse1, fee1, abroad1, rate)
  {
  }

  /** Higher fees, or going abroad, never lower the cost of a purchase. */
  lemma CostRisesWithFees(valueMillions: real, rate: real,
                          fee1: real, abroad1: bool, fee2: real, abroad2: bool)
    requires valueMillions >= 0.0 && rate >= 0.0
    requires fee1 <= fee2 && (abroad1 ==> abroad2)
    ensures TotalPurchaseCost(valueMillions, fee1, abroad1, rate)
            <= TotalPurchaseCost(valueMillions, fee2, abroad2, rate)
  {
  }

  /** The net fraction is not clamped: when the deductions exceed the whole
      value the proceeds are negative rather than zero. */
  lemma ExcessFeesGiveNegativeProceeds(valueMillions: real, repassePercent: real, intermediationPercent: real,
                                       international: bool, rate: real)
    requires valueMillions > 0.0 && rate > 0.0
    requires intermediationPercent / 100.0 + repassePercent / 100.0 + IofFraction(international) > 1.0
    ensures NetSaleProceeds(valueMillions, repassePercent, intermediationPercent, international, rate) < 0.0
  {
    var g := GrossEuros(valueMillions) * rate;
    var f := 1.0 - intermediationPercent / 100.0 - repassePercent / 100.0 - IofFraction(international);
    assert g > 0.0;
    assert g * (-f) > 0.0;
  }

  /** Amounts of a sale of 10 M EUR (5% repasse, 10% intermediation) at home
      and abroad, and of a purchase abroad of 5 M EUR (8% intermediation),
      all at 6.00 BRL per euro. */
  lemma WorkedAmounts()
    ensures NetSaleProceeds(10.0, 5.0, 10.0, false, 6.0) == 51000000.0
    ensures NetSaleProceeds(10.0, 5.0, 10.0, true, 6.0) == 50772000.0
    ensures TotalPurchaseCost(5.0, 8.0, true, 6.0) == 37808117.0 + 11.0 / 17.0
  {
  }
}
