/** How a booking is priced: list prices, the store's promotion per item, then the customer's coupon. Exact arithmetic. */
module Pricing {
  import opened Common

  datatype DiscountType = Percentage | Fixed

  datatype Scope = WholeStore | Services(ids: seq<string>) | Categories(ids: seq<string>)

  datatype Promotion = Promotion(kind: DiscountType, value: real, scope: Scope)

  datatype Coupon = Coupon(kind: DiscountType, value: real, maxDiscount: Option<real>, minAmount: Option<real>)

  datatype Line = Line(service: string, category: Option<string>, listPrice: real)

  /** `originalPrice` is set when the promotion applied. */
  datatype PricedItem = PricedItem(originalPrice: Option<real>, price: real)

  // ----- What the owners may create --------------------------------------------------------------------------

  /** The value checks of `create`, on positive values: a percentage is at most a hundred. */
  predicate IsAcceptedValue(kind: DiscountType, value: real) {
    value > 0.0 && (kind.Percentage? ==> value <= 100.0)
  }

  predicate IsAcceptedCoupon(c: Coupon) {
    && IsAcceptedValue(c.kind, c.value)
    && (c.maxDiscount.Some? ==> c.kind.Percentage? && c.maxDiscount.value > 0.0)
  }

  // ----- Discounts -------------------------------------------------------------------------------------------

  function Min(a: real, b: real): real {
    if a < b then a else b
  }

  function Percent(amount: real, value: real): real {
    amount * value / 100.0
  }

  function PromotionSaving(p: Promotion, price: real): real {
    if p.kind.Percentage? then Percent(price, p.value) else Min(p.value, price)
  }

  function CouponDiscount(c: Coupon, totalPrice: real): real {
    if c.kind.Percentage? then
      var raw := Percent(totalPrice, c.value);
      if c.maxDiscount.Some? then Min(raw, c.maxDiscount.value) else raw
    else Min(c.value, totalPrice)
  }

  predicate InScope(p: Promotion, line: Line) {
    match p.scope
    case WholeStore => true
    case Services(ids) => line.service in ids
    case Categories(ids) => line.category.Some? && line.category.value in ids
  }

  lemma PercentageIsPart(price: real, value: real)
    requires price >= 0.0 && 0.0 <= value <= 100.0
    ensures 0.0 <= Percent(price, value) <= price
  {
    assert price * value <= price * 100.0;
    assert price * value >= 0.0;
  }

  /** A discount that `create` accepts never exceeds what it is taken from, and never adds to it. */
  lemma DiscountsAreParts(p: Promotion, c: Coupon, amount: real)
    requires IsAcceptedValue(p.kind, p.value) && IsAcceptedCoupon(c) && amount >= 0.0
    ensures 0.0 <= PromotionSaving(p, amount) <= amount
    ensures 0.0 <= CouponDiscount(c, amount) <= amount
  {
    hide Percent;
    if p.kind.Percentage? {
      PercentageIsPart(amount, p.value);
    }
    if c.kind.Percentage? {
      PercentageIsPart(amount, c.value);
    }
  }

  /** A percentage, in hundredths, of the amount or the cap if that is less; or a fixed value or all there is. */
  predicate IsDiscount(kind: DiscountType, value: real, cap: Option<real>, amount: real, discount: real) {
    match kind
    case Percentage =>
      if cap.None? then 100.0 * discount == amount * value
      else
        || (100.0 * discount == amount * value && discount <= cap.value)
        || (discount == cap.value && amount * value >= 100.0 * cap.value)
    case Fixed => (discount == value && value <= amount) || (discount == amount && amount <= value)
  }

  lemma DiscountsAre(p: Promotion, c: Coupon, amount: real, discount: real)
    ensures discount == PromotionSaving(p, amount) <==> IsDiscount(p.kind, p.value, None, amount, discount)
    ensures discount == CouponDiscount(c, amount) <==> IsDiscount(c.kind, c.value, c.maxDiscount, amount, discount)
  {
  }

  // ----- The loops -------------------------------------------------------------------------------------------

  function Priced(line: Line, promotion: Option<Promotion>): PricedItem {
    if promotion.Some? && InScope(promotion.value, line) then
      PricedItem(Some(line.listPrice), line.listPrice - PromotionSaving(promotion.value, line.listPrice))
    else PricedItem(None, line.listPrice)
  }

  function Saved(item: PricedItem): real {
    if item.originalPrice.Some? then item.originalPrice.value - item.price else 0.0
  }

  function SumOfPrices(items: seq<PricedItem>): real {
    if items == [] then 0.0 else SumOfPrices(items[..|items| - 1]) + items[|items| - 1].price
  }

  function SumSaved(items: seq<PricedItem>): real {
    if items == [] then 0.0 else SumSaved(items[..|items| - 1]) + Saved(items[|items| - 1])
  }

  function SumOfListPrices(lines: seq<Line>): real {
    if lines == [] then 0.0 else SumOfListPrices(lines[..|lines| - 1]) + lines[|lines| - 1].listPrice
  }

  ghost predicate PricedAs(items: seq<PricedItem>, lines: seq<Line>, promotion: Option<Promotion>) {
    |items| == |lines| && forall i :: 0 <= i < |lines| ==> items[i] == Priced(lines[i], promotion)
  }

  /** What a priced item is: less by the promotion's discount when that covers the service, else at its list price. */
  predicate IsPriced(item: PricedItem, line: Line, promotion: Option<Promotion>) {
    var covered :=
      promotion.Some? && match promotion.value.scope
                         case WholeStore => true
                         case Services(ids) => exists id :: id in ids && id == line.service
                         case Categories(ids) => exists id :: id in ids && line.category == Some(id);
    if covered then
      && item.originalPrice == Some(line.listPrice)
      && IsDiscount(promotion.value.kind, promotion.value.value, None, line.listPrice, line.listPrice - item.price)
    else item == PricedItem(None, line.listPrice)
  }

  predicate ArePriced(items: seq<PricedItem>, lines: seq<Line>, promotion: Option<Promotion>) {
    |items| == |lines| && forall i :: 0 <= i < |lines| ==> IsPriced(items[i], lines[i], promotion)
  }

  lemma PricedIs(item: PricedItem, line: Line, promotion: Option<Promotion>)
    ensures item == Priced(line, promotion) <==> IsPriced(item, line, promotion)
  {
    hide PromotionSaving, IsDiscount;
    if promotion.Some? {
      DiscountsAre(promotion.value, Coupon(Fixed, 0.0, None, None), line.listPrice, line.listPrice - item.price);
    }
  }

  lemma ItemsArePriced(items: seq<PricedItem>, lines: seq<Line>, promotion: Option<Promotion>)
    ensures PricedAs(items, lines, promotion) <==> ArePriced(items, lines, promotion)
  {
    hide Priced, IsPriced;
    forall i | 0 <= i < |items| && i < |lines| {
      PricedIs(items[i], lines[i], promotion);
    }
  }

  /** Sums of nothing, of one and of lists put together. */
  lemma {:induction false} SumsAre(items: seq<PricedItem>, more: seq<PricedItem>, item: PricedItem)
    ensures SumOfPrices([]) == SumSaved([]) == 0.0
    ensures SumOfPrices([item]) == item.price
    ensures SumSaved([item]) == if item.originalPrice.None? then 0.0 else item.originalPrice.value - item.price
    ensures SumOfPrices(items + more) == SumOfPrices(items) + SumOfPrices(more)
    ensures SumSaved(items + more) == SumSaved(items) + SumSaved(more)
  {
    if more == [] {
      assert items + more == items;
      assert [item][..0] == [];
    } else {
      var n := |more| - 1;
      SumsAre(items, more[..n], item);
      assert (items + more)[..|items| + n] == items + more[..n];
    }
  }

  method PriceItems(lines: seq<Line>, promotion: Option<Promotion>) returns (items: seq<PricedItem>)
    ensures PricedAs(items, lines, promotion)
  {
    items := [];
    for i := 0 to |lines|
      invariant PricedAs(items, lines[..i], promotion)
    {
      var itemPrice := lines[i].listPrice;
      var originalPrice: Option<real> := None;
      if promotion.Some? && InScope(promotion.value, lines[i]) {
        var saving := PromotionSaving(promotion.value, lines[i].listPrice);
        originalPrice := Some(lines[i].listPrice);
        itemPrice := lines[i].listPrice - saving;
      }
      items := items + [PricedItem(originalPrice, itemPrice)];
    }
  }

  method Totals(items: seq<PricedItem>) returns (totalPrice: real, promotionDiscount: real)
    ensures totalPrice == SumOfPrices(items) && promotionDiscount == SumSaved(items)
  {
    totalPrice, promotionDiscount := 0.0, 0.0;
    for i := 0 to |items|
      invariant totalPrice == SumOfPrices(items[..i]) && promotionDiscount == SumSaved(items[..i])
    {
      assert items[..i + 1][..i] == items[..i];
      totalPrice := totalPrice + items[i].price;
      promotionDiscount := promotionDiscount + Saved(items[i]);
    }
    assert items[..|items|] == items;
  }

  // ----- The decomposition -----------------------------------------------------------------------------------

  ghost predicate ListPricesOk(lines: seq<Line>) {
    forall i :: 0 <= i < |lines| ==> lines[i].listPrice >= 0.0
  }

  /** Item by item: what the customer pays and what the promotion saves make up the list price. */
  lemma {:induction false} ItemsAddUp(items: seq<PricedItem>, lines: seq<Line>, promotion: Option<Promotion>)
    requires PricedAs(items, lines, promotion) && ListPricesOk(lines)
    requires promotion.Some? ==> IsAcceptedValue(promotion.value.kind, promotion.value.value)
    ensures SumOfListPrices(lines) == SumOfPrices(items) + SumSaved(items)
    ensures SumOfPrices(items) >= 0.0 && SumSaved(items) >= 0.0
  {
    if items != [] {
      var n := |items| - 1;
      ItemsAddUp(items[..n], lines[..n], promotion);
      if promotion.Some? {
        DiscountsAreParts(promotion.value, Coupon(Fixed, 1.0, None, None), lines[n].listPrice);
      }
    }
  }

  datatype Prices = Prices(items: seq<PricedItem>, totalPrice: real, promotionDiscount: real, couponDiscount: real, finalPrice: real)

  /** The prices of a booking of `create`; None when the coupon asks for a higher amount. */
  method PriceBooking(lines: seq<Line>, promotion: Option<Promotion>, coupon: Option<Coupon>) returns (r: Option<Prices>)
    requires ListPricesOk(lines)
    requires promotion.Some? ==> IsAcceptedValue(promotion.value.kind, promotion.value.value)
    requires coupon.Some? ==> IsAcceptedCoupon(coupon.value)
    ensures r.Some? ==>
              && SumOfListPrices(lines) == r.value.totalPrice + r.value.promotionDiscount
              && r.value.totalPrice == r.value.finalPrice + r.value.couponDiscount
              && 0.0 <= r.value.finalPrice <= r.value.totalPrice <= SumOfListPrices(lines)
    ensures r.Some? ==>
              && ArePriced(r.value.items, lines, promotion)
              && r.value.totalPrice == SumOfPrices(r.value.items) && r.value.promotionDiscount == SumSaved(r.value.items)
              && (coupon.None? ==> r.value.couponDiscount == 0.0)
              && (coupon.Some? ==> IsDiscount(coupon.value.kind, coupon.value.value, coupon.value.maxDiscount,
                                              r.value.totalPrice, r.value.couponDiscount))
    ensures r.None? <==> coupon.Some? && coupon.value.minAmount.Some?
                         && exists items :: ArePriced(items, lines, promotion) && SumOfPrices(items) < coupon.value.minAmount.value
  {
    var items := PriceItems(lines, promotion);
    forall other ensures ArePriced(other, lines, promotion) <==> other == items {
      ItemsArePriced(other, lines, promotion);
    }
    var totalPrice, promotionDiscount := Totals(items);
    ItemsAddUp(items, lines, promotion);
    var discountAmount := 0.0;
    if coupon.Some? {
      if coupon.value.minAmount.Some? && totalPrice < coupon.value.minAmount.value {
        return None;
      }
      DiscountsAreParts(Promotion(Fixed, 1.0, WholeStore), coupon.value, totalPrice);
      discountAmount := CouponDiscount(coupon.value, totalPrice);
      DiscountsAre(Promotion(Fixed, 1.0, WholeStore), coupon.value, totalPrice, discountAmount);
    }
    r := Some(Prices(items, totalPrice, promotionDiscount, discountAmount, totalPrice - discountAmount));
  }

  // ----- Walk-ins --------------------------------------------------------------------------------------------

  /** `createWalkIn` subtracts the promotion from a total that already has it subtracted. */
  function WalkInFinalPrice(items: seq<PricedItem>): real {
    SumOfPrices(items) - SumSaved(items)
  }

  /**
   * A walk-in's final price is the total exactly when no promotion saved anything, and is negative exactly when the
   * promotion saved more than half of the list price.
   */
  lemma WalkInSubtractsTwice(items: seq<PricedItem>, lines: seq<Line>, promotion: Option<Promotion>)
    requires PricedAs(items, lines, promotion) && ListPricesOk(lines)
    requires promotion.Some? ==> IsAcceptedValue(promotion.value.kind, promotion.value.value)
    ensures WalkInFinalPrice(items) == SumOfPrices(items) <==> SumSaved(items) == 0.0
    ensures WalkInFinalPrice(items) < 0.0 <==> 2.0 * SumSaved(items) > SumOfListPrices(lines)
  {
    ItemsAddUp(items, lines, promotion);
  }
}
