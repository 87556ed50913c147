/** The price a customer is charged for stock. */
module Pricing {
  import opened Tables
  import opened CrmData

  /** charge_mode; a discount is in hundredths of a percent. */
  datatype Mode = FullPrice | Discounted(discount: int) | WaivedOff

  /** One billion rupees. */
  const MAX_PRICE: nat := 100_000_000_000

  /** What stock_issue_price returns. */
  datatype Quote = Quote(price: nat, list: nat, discount: nat, waived: bool)

  /** The entered price, else the selling price of the batch, else its unit cost. */
  function Base(entered: Option<nat>, batch: Batch): nat {
    if entered.Some? then entered.value
    else if batch.price != 0 then batch.price
    else batch.unitCost
  }

  /** Decimal.quantize: n / d rounded to the nearest integer, a tie to the even one. */
  function RoundHalfEven(n: nat, d: nat): nat
    requires d > 0
  {
    var q, r := n / d, n % d;
    if 2 * r < d || (2 * r == d && q % 2 == 0) then q else q + 1
  }

  /** stock_issue_price; None where it raises. */
  function StockIssuePrice(mode: Mode, entered: Option<nat>, batch: Batch): Option<Quote> {
    var base := Base(entered, batch);
    if base > MAX_PRICE then None
    else if mode.WaivedOff? then Some(Quote(0, base, 10000, true))
    else if mode.Discounted? && !(0 < mode.discount < 10000) then None
    else
      var discount := if mode.Discounted? then mode.discount else 0;
      var price := RoundHalfEven(base * (10000 - discount), 10000);
      if price == 0 then None else Some(Quote(price, base, discount, false))
  }

  /** RoundHalfEven is the one integer within half a unit of the quotient, the even one of two. */
  lemma RoundingIsNearest(n: nat, d: int, k: nat)
    requires d > 0
    ensures RoundHalfEven(n, d) == k <==>
            (-d <= 2 * (k * d - n) <= d && ((2 * (k * d - n) == d || 2 * (k * d - n) == -d) ==> k % 2 == 0))
  {
    var q, r := n / d, n % d;
    assert n == q * d + r;
    if k < q {
      MulGap(k + 1, q, d);
      assert k * d + d <= q * d;
      if k * d + d == q * d && r == 0 {
        assert 2 * (k * d - n) == -2 * d;
      }
    } else if k > q + 1 {
      MulGap(q + 2, k, d);
      assert k * d >= q * d + 2 * d;
    } else if k == q {
      assert k * d - n == -r;
    } else {
      assert k * d - n == d - r;
    }
  }

  lemma MulGap(a: int, b: int, d: nat)
    requires a <= b
    ensures a * d <= b * d
  {
    assert (b - a) * d >= 0;
  }

  /** A discounted price is at most the base and within half a paisa of exact; without discount it is the base. */
  lemma RoundedPrice(base: nat, discount: nat)
    requires discount < 10000
    ensures var price := RoundHalfEven(base * (10000 - discount), 10000);
            && price <= base && (discount == 0 ==> price == base)
            && -5000 <= 10000 * price - base * (10000 - discount) <= 5000
  {
    MulGap(10000 - discount, 10000, base);
    var n := base * (10000 - discount);
    assert 0 <= n <= 10000 * base && (discount == 0 ==> n == 10000 * base);
    RoundedWithin(n, base);
  }

  /** Rounding ten-thousandths, of which there are no more than `base` whole ones. */
  lemma RoundedWithin(n: nat, base: nat)
    requires n <= 10000 * base
    ensures var price := RoundHalfEven(n, 10000);
            price <= base && -5000 <= 10000 * price - n <= 5000 && (n == 10000 * base ==> price == base)
  {}

  /** Half a paisa and less rounds to nothing. */
  lemma RoundsToZero(n: nat)
    ensures RoundHalfEven(n, 10000) == 0 <==> n <= 5000
  {}

  /** A price is quoted if and only if the base is in range and the item is waived, or the discount is in range and
      more than half a paisa remains. A waived item costs nothing; any other price is positive, at most the list price,
      and within half a paisa of the list price less the discount asked for. */
  lemma QuoteIsFair(mode: Mode, entered: Option<nat>, batch: Batch)
    ensures var q := StockIssuePrice(mode, entered, batch);
            var base := if entered.Some? then entered.value else if batch.price != 0 then batch.price
                        else batch.unitCost;
            var discount := match mode case FullPrice => 0 case Discounted(d) => d case WaivedOff => 10000;
            && (q.Some? <==>
                  base <= MAX_PRICE
                  && (mode.WaivedOff? || ((mode.Discounted? ==> 0 < discount < 10000)
                                          && base * (10000 - discount) > 5000)))
            && (q.Some? ==>
                  && q.value.list == base && q.value.discount == discount
                  && (q.value.waived <==> mode.WaivedOff?) && (mode.WaivedOff? <==> q.value.price == 0)
                  && (mode.FullPrice? ==> q.value.price == base) && q.value.price <= base
                  && -5000 <= 10000 * q.value.price - base * (10000 - discount) <= 5000)
  {
    hide RoundHalfEven;
    if !mode.WaivedOff? && (mode.Discounted? ==> 0 < mode.discount < 10000) {
      var discount := if mode.Discounted? then mode.discount else 0;
      RoundedPrice(Base(entered, batch), discount);
      MulGap(0, Base(entered, batch), 10000 - discount);
      RoundsToZero(Base(entered, batch) * (10000 - discount));
    }
  }
}
