/** A product's price row: purchase, sale and optional wholesale price, and an
    optional tax. BigDecimal arithmetic here is exact, so amounts are reals. */
module Pricing {
  import opened Wrappers

  /** A tax: its percentage must be greater than zero. */
  datatype Tax = Tax(name: string, percentage: real)

  predicate ValidTax(t: Tax) {
    t.percentage > 0.0
  }

  datatype Price = Price(
    purchasePrice: real,
    salePrice: real,
    wholesalePrice: Option<real>,
    tax: Option<Tax>)

  /** The price the final price starts from: the wholesale price when a
      wholesale price is asked for and one is set, the sale price otherwise. */
  function BasePrice(p: Price, isWholesale: bool): (b: real)
    ensures !isWholesale ==> b == p.salePrice
    ensures isWholesale && p.wholesalePrice.Some? ==> b == p.wholesalePrice.value
    ensures isWholesale && p.wholesalePrice.None? ==> b == p.salePrice
  {
    if isWholesale && p.wholesalePrice.Some? then p.wholesalePrice.value else p.salePrice
  }

  /** getFinalPrice: the base price, raised by the tax percentage when there
      is a tax. */
  function FinalPrice(p: Price, isWholesale: bool): (r: real)
    ensures p.tax.None? ==> r == BasePrice(p, isWholesale)
    ensures p.tax.Some? ==> 100.0 * r == BasePrice(p, isWholesale) * (100.0 + p.tax.value.percentage)
  {
    var base := BasePrice(p, isWholesale);
    if p.tax.Some? then base * (1.0 + p.tax.value.percentage / 100.0) else base
  }

  /** Removing the tax from the final price gives back the base price. */
  lemma TaxRemovable(p: Price, isWholesale: bool)
    requires p.tax.Some? && ValidTax(p.tax.value)
    ensures FinalPrice(p, isWholesale) / (1.0 + p.tax.value.percentage / 100.0) == BasePrice(p, isWholesale)
  {
  }

  /** A valid tax makes a positive price strictly dearer. */
  lemma TaxRaisesPrice(p: Price, isWholesale: bool)
    requires p.tax.Some? && ValidTax(p.tax.value) && BasePrice(p, isWholesale) > 0.0
    ensures FinalPrice(p, isWholesale) > BasePrice(p, isWholesale)
  {
    var base := BasePrice(p, isWholesale);
    var pct := p.tax.value.percentage;
    assert base * (1.0 + pct / 100.0) == base + base * (pct / 100.0);
    assert base * (pct / 100.0) > 0.0;
  }

  /** The retail final price does not depend on the wholesale price. */
  lemma RetailIgnoresWholesale(p: Price, w: Option<real>)
    ensures FinalPrice(p.(wholesalePrice := w), false) == FinalPrice(p, false)
  {
  }

  /** Without a wholesale price, asking for the wholesale price gives the
      retail one. */
  lemma WholesaleFallsBack(p: Price)
    requires p.wholesalePrice.None?
    ensures FinalPrice(p, true) == FinalPrice(p, false)
  {
  }

  /** A wholesale price at most the sale price keeps the wholesale final
      price at most the retail one, taxed or not. */
  lemma WholesaleNotDearer(p: Price)
    requires p.wholesalePrice.Some? && p.wholesalePrice.value <= p.salePrice
    requires p.tax.None? || ValidTax(p.tax.value)
    ensures FinalPrice(p, true) <= FinalPrice(p, false)
  {
    if p.tax.Some? {
      var f := 1.0 + p.tax.value.percentage / 100.0;
      assert f > 0.0;
      assert p.wholesalePrice.value * f <= p.salePrice * f;
    }
  }
}
