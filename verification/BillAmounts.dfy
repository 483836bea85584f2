/** What the amounts on a bill mean (backend/billing/service.ts): prices to the nearest cent, promotions
    as percentages or fixed amounts, and totals that add up. */
module BillAmounts {
  import opened Results
  import opened Apportionment
  import opened BillPricing

  /******* Lines *******/

  /** A line charges quantity times price to the nearest cent, and keeps both. */
  lemma GrossNearest(item: OrderItem, id: nat)
    ensures var line := CalculateLine(item, id);
            && -0.5 < line.gross as real - item.quantity * item.unitPrice <= 0.5
            && line.id == id && line.quantity == item.quantity && line.unitPrice == item.unitPrice
  {
    RoundedGross(item);
    LineOf(item, id);
    hide CalculateLine, Gross;
  }

  lemma RoundedGross(item: OrderItem)
    ensures -0.5 < Gross(item) as real - item.quantity * item.unitPrice <= 0.5
  {
    RoundNearest(item.quantity * item.unitPrice);
  }

  lemma LineOf(item: OrderItem, id: nat)
    ensures var line := CalculateLine(item, id);
            line.id == id && line.gross == Gross(item) && line.quantity == item.quantity && line.unitPrice == item.unitPrice
  {
    hide Gross, RequestedItemDiscount, Requested;
  }

  /** What the item itself asks for as a discount is its own discount; only without one its line discount, and
      without either nothing. */
  lemma ItemDiscountFirst(item: OrderItem)
    ensures item.itemDiscount.Some? ==> -0.5 < RequestedItemDiscount(item) as real - item.itemDiscount.value <= 0.5
    ensures item.itemDiscount.None? && item.lineDiscount.Some? ==> -0.5 < RequestedItemDiscount(item) as real - item.lineDiscount.value <= 0.5
    ensures item.itemDiscount.None? && item.lineDiscount.None? ==> RequestedItemDiscount(item) == 0
  {
    if item.itemDiscount.Some? { RoundNearest(item.itemDiscount.value); }
    if item.lineDiscount.Some? { RoundNearest(item.lineDiscount.value); }
    hide Round;
  }

  /******* Promotions *******/

  /** A promotion fails exactly on an unknown type, a negative value or a negative maximum. */
  lemma PromotionFailsIff(p: Promotion, base: int)
    ensures PromotionAmount(p, base).Err? <==> p.promotionType.UnknownType? || p.value < 0 || (p.maxDiscount.Some? && p.maxDiscount.value < 0)
  {
    hide Round;
  }

  /** Up to one hundred percent, a percentage takes that part of the base to the nearest cent; above, it takes
      the base. */
  lemma PercentageTakes(p: Promotion, base: int)
    requires p.promotionType.Percentage? && p.value >= 0 && p.maxDiscount.None? && base >= 0
    ensures PromotionAmount(p, base).Ok?
    ensures p.value <= 10000 ==> -5000 < 10000 * PromotionAmount(p, base).value - base * p.value <= 5000
    ensures p.value >= 10000 ==> PromotionAmount(p, base).value == base
  {
    var raw := Round((base * p.value) as real / 10000.0);
    PercentageRounded(base * p.value);
    MulMono(0, base, p.value);
    MulMono(if p.value <= 10000 then p.value else 10000, if p.value <= 10000 then 10000 else p.value, base);
    assert PromotionAmount(p, base) == Ok(Cap(raw, base));
    hide Round;
  }

  /** A fixed amount takes its value, but no more than the base. */
  lemma FixedAmountTakes(p: Promotion, base: int)
    requires p.promotionType.FixedAmount? && p.value >= 0 && p.maxDiscount.None? && base >= 0
    ensures PromotionAmount(p, base) == Ok(if p.value <= base then p.value else base)
  {}

  /** A maximum caps what the promotion takes without it, and nothing is taken off a base that is not
      positive. */
  lemma MaximumCaps(p: Promotion, base: int)
    requires PromotionAmount(p, base).Ok? && p.maxDiscount.Some?
    ensures PromotionAmount(p.(maxDiscount := None), base).Ok?
    ensures PromotionAmount(p, base).value == Min(PromotionAmount(p.(maxDiscount := None), base).value, p.maxDiscount.value)
    ensures base <= 0 ==> PromotionAmount(p, base).value == 0
  {
    hide Round;
  }

  /******* Totals *******/

  function Grosses(lines: seq<Line>): (xs: seq<int>)
    ensures |xs| == |lines| && forall i | 0 <= i < |xs| :: xs[i] == lines[i].gross
  {
    seq(|lines|, i requires 0 <= i < |lines| => lines[i].gross)
  }

  function ItemDiscounts(lines: seq<Line>): (xs: seq<int>)
    ensures |xs| == |lines| && forall i | 0 <= i < |xs| :: xs[i] == lines[i].itemDiscount
  {
    seq(|lines|, i requires 0 <= i < |lines| => lines[i].itemDiscount)
  }

  function ComboDiscounts(lines: seq<Line>): (xs: seq<int>)
    ensures |xs| == |lines| && forall i | 0 <= i < |xs| :: xs[i] == lines[i].comboDiscount
  {
    seq(|lines|, i requires 0 <= i < |lines| => lines[i].comboDiscount)
  }

  function HappyHourDiscounts(lines: seq<Line>): (xs: seq<int>)
    ensures |xs| == |lines| && forall i | 0 <= i < |xs| :: xs[i] == lines[i].happyHourDiscount
  {
    seq(|lines|, i requires 0 <= i < |lines| => lines[i].happyHourDiscount)
  }

  /** Each heading that comes from the lines is the sum of its own field. */
  predicate SumsOf(b: Breakdown, lines: seq<Line>) {
    && b[Subtotal] == Sum(Grosses(lines)) && b[ItemLevel] == Sum(ItemDiscounts(lines))
    && b[Combo] == Sum(ComboDiscounts(lines)) && b[HappyHour] == Sum(HappyHourDiscounts(lines))
  }

  /** The other headings follow from those: the discounts add up, what is taxed is what they leave, and what is
      due is that with tax and service charge. */
  predicate Balances(b: Breakdown) {
    && b[DiscountTotal] == b[ItemLevel] + b[Combo] + b[HappyHour] + b[BillLevel]
    && b[Taxable] == b[Subtotal] - b[DiscountTotal] && b[Due] == b[Taxable] + b[Tax] + b[ServiceCharge]
  }

  lemma {:induction false} TallySums(lines: seq<Line>)
    ensures SumsOf(Tally(lines), lines) && Balances(Tally(lines))
    ensures Tally(lines)[BillLevel] == Tally(lines)[Tax] == Tally(lines)[ServiceCharge] == 0
  {
    if lines == [] {
      NoneToSum();
    } else {
      hide Add, OfLine, SumsOf, Balances;
      var init, last := lines[..|lines| - 1], lines[|lines| - 1];
      assert lines == init + [last];
      TallySums(init);
      AddedSums(Tally(init), init, last);
      AddedBalances(Tally(init), last);
    }
  }

  lemma AddedSums(b: Breakdown, lines: seq<Line>, line: Line)
    requires SumsOf(b, lines)
    ensures SumsOf(Add(b, OfLine(line)), lines + [line])
  {
    hide Sum;
    var all := lines + [line];
    assert Grosses(all) == Grosses(lines) + [line.gross] && ItemDiscounts(all) == ItemDiscounts(lines) + [line.itemDiscount];
    assert ComboDiscounts(all) == ComboDiscounts(lines) + [line.comboDiscount];
    assert HappyHourDiscounts(all) == HappyHourDiscounts(lines) + [line.happyHourDiscount];
    SumAppend(Grosses(lines), line.gross);
    SumAppend(ItemDiscounts(lines), line.itemDiscount);
    SumAppend(ComboDiscounts(lines), line.comboDiscount);
    SumAppend(HappyHourDiscounts(lines), line.happyHourDiscount);
  }

  lemma AddedBalances(b: Breakdown, line: Line)
    requires Balances(b)
    ensures var sum := Add(b, OfLine(line));
            Balances(sum) && sum[BillLevel] == b[BillLevel] && sum[Tax] == b[Tax] && sum[ServiceCharge] == b[ServiceCharge]
  {}

  lemma NoneToSum()
    ensures Sum([]) == 0
  {}

  lemma ChargeBalances(base: Breakdown, discount: int, tax: int, service: int)
    requires Balances(base) && base[BillLevel] == 0
    ensures var b := Charge(base, discount, tax, service);
            && Balances(b) && b[BillLevel] == discount && b[Tax] == tax && b[ServiceCharge] == service
            && b[Subtotal] == base[Subtotal] && b[ItemLevel] == base[ItemLevel] && b[Combo] == base[Combo] && b[HappyHour] == base[HappyHour]
  {}

  lemma {:induction false} MergeBalances(splits: seq<Split>)
    requires forall s | s in splits :: Balances(s.breakdown)
    ensures Balances(Merge(splits))
  {
    if splits != [] {
      var init, last := splits[..|splits| - 1], splits[|splits| - 1];
      assert last in splits && forall s | s in init :: s in splits;
      MergeBalances(init);
    }
  }

  /** The books of a repriced bill balance: on every split each heading is the sum of what its lines say, what
      is due follows from the headings, and the same holds of the bill. */
  lemma BooksBalance(bill: Bill)
    requires Reprice(bill).Ok?
    ensures var priced := Reprice(bill).value;
            && (forall s | s in priced.splits :: SumsOf(s.breakdown, s.lines) && Balances(s.breakdown) && s.totalDue == s.breakdown[Due])
            && Balances(priced.breakdown)
  {
    hide PriceSplits, PriceSplit, Balances, SumsOf, Merge;
    var priced := Reprice(bill).value;
    forall s | s in priced.splits ensures SumsOf(s.breakdown, s.lines) && Balances(s.breakdown) && s.totalDue == s.breakdown[Due] {
      var i :| 0 <= i < |priced.splits| && priced.splits[i] == s;
      var discount, tax, service := PricedAt(bill.splits, bill.pricing, i);
      SplitBalances(bill.splits[i], discount, tax, service);
    }
    MergeBalances(priced.splits);
  }

  lemma SplitBalances(split: Split, discount: int, tax: int, service: int)
    ensures var s := PriceSplit(split, discount, tax, service);
            s.lines == split.lines && SumsOf(s.breakdown, s.lines) && Balances(s.breakdown) && s.totalDue == s.breakdown[Due]
  {
    hide Tally, Charge, Balances, AmountPaid;
    TallySums(split.lines);
    ChargeBalances(Tally(split.lines), discount, tax, service);
  }
}
