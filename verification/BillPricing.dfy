/** Pricing a bill that is divided into splits (backend/billing/service.ts). Money is counted in whole
    cents, promotion values and the tax rate in hundredths, since the code rounds them to two
    decimals before it uses them. */
module BillPricing {
  import opened Results
  import opened Apportionment

  /** Math.round: to the nearest integer, halves upwards. */
  function Round(x: real): int {
    (x + 0.5).Floor
  }

  function Min(x: int, y: int): int { if x <= y then x else y }

  function Cap(requested: int, base: int): int {
    Min(Positive(requested), Positive(base))
  }

  lemma RoundBounds(x: real, k: int)
    ensures k as real <= x ==> k <= Round(x)
    ensures x <= k as real ==> Round(x) <= k
  {}

  /** The rounded value is within one half, and a half goes up. */
  lemma RoundNearest(x: real)
    ensures -0.5 < Round(x) as real - x <= 0.5
  {}

  /******* Lines *******/

  /** Prices and discounts of an ordered item, in cents and not yet rounded. */
  datatype OrderItem = OrderItem(id: string, quantity: real, unitPrice: real, itemDiscount: Option<real>,
                                 lineDiscount: Option<real>, comboDiscount: Option<real>, happyHourDiscount: Option<real>)

  datatype Line = Line(id: nat, orderItemId: string, quantity: real, unitPrice: real, gross: int,
                       itemDiscount: int, comboDiscount: int, happyHourDiscount: int, lineDiscount: int)

  function Requested(amount: Option<real>): int {
    if amount.Some? then Round(amount.value) else 0
  }

  /** The item's own discount, or failing that its line discount. */
  function RequestedItemDiscount(item: OrderItem): int {
    Requested(if item.itemDiscount.Some? then item.itemDiscount else item.lineDiscount)
  }

  function Gross(item: OrderItem): int {
    Round(item.quantity * item.unitPrice)
  }

  function CalculateLine(item: OrderItem, id: nat): (line: Line)
    ensures line.gross >= 0 ==> SoundLine(line)
    ensures line.orderItemId == item.id
  {
    Discounted(Line(id, item.id, item.quantity, item.unitPrice, Gross(item), 0, 0, 0, 0),
               RequestedItemDiscount(item), Requested(item.comboDiscount), Requested(item.happyHourDiscount))
  }

  /** Each discount in turn, capped by what the earlier ones left of the line. */
  function Discounted(line: Line, own: int, combo: int, happyHour: int): (r: Line)
    ensures r.gross == line.gross && r.orderItemId == line.orderItemId
    ensures line.gross >= 0 ==> SoundLine(r)
  {
    var itemDiscount := Cap(own, line.gross);
    var afterItem := line.gross - itemDiscount;
    var comboDiscount := Cap(combo, afterItem);
    var happyHourDiscount := Cap(happyHour, afterItem - comboDiscount);
    line.(itemDiscount := itemDiscount, comboDiscount := comboDiscount, happyHourDiscount := happyHourDiscount,
          lineDiscount := itemDiscount + comboDiscount + happyHourDiscount)
  }

  /** Discounts of a line that is not itself a credit never turn it into one. */
  predicate SoundLine(line: Line) {
    && 0 <= line.itemDiscount && 0 <= line.comboDiscount && 0 <= line.happyHourDiscount
    && line.lineDiscount == line.itemDiscount + line.comboDiscount + line.happyHourDiscount <= line.gross
  }

  /** Together the three discounts take what was asked for, but no more than the line is worth; an
      earlier kind of discount is served before a later one. */
  lemma DiscountPrecedence(item: OrderItem, id: nat)
    ensures var line, worth := CalculateLine(item, id), Positive(Gross(item));
            var own, combo, happyHour := Positive(RequestedItemDiscount(item)), Positive(Requested(item.comboDiscount)), Positive(Requested(item.happyHourDiscount));
            && line.itemDiscount == Min(own, worth)
            && line.itemDiscount + line.comboDiscount == Min(own + combo, worth)
            && line.lineDiscount == Min(own + combo + happyHour, worth)
  {
    hide Gross, Discounted, Requested, RequestedItemDiscount;
    var plain := Line(id, item.id, item.quantity, item.unitPrice, Gross(item), 0, 0, 0, 0);
    CapsInOrder(plain, RequestedItemDiscount(item), Requested(item.comboDiscount), Requested(item.happyHourDiscount));
  }

  lemma CapsInOrder(line: Line, own: int, combo: int, happyHour: int)
    ensures var r, worth := Discounted(line, own, combo, happyHour), Positive(line.gross);
            && r.itemDiscount == Min(Positive(own), worth)
            && r.itemDiscount + r.comboDiscount == Min(Positive(own) + Positive(combo), worth)
            && r.lineDiscount == Min(Positive(own) + Positive(combo) + Positive(happyHour), worth)
  {}

  /******* Promotions *******/

  datatype PromotionType = Percentage | FixedAmount | UnknownType

  datatype Promotion = Promotion(id: string, promotionType: PromotionType, value: int, maxDiscount: Option<int>)

  function PromotionAmount(promotion: Promotion, base: int): (r: Result<int>)
    ensures r.Ok? ==> 0 <= r.value <= Positive(base)
    ensures r.Ok? && promotion.maxDiscount.Some? ==> r.value <= promotion.maxDiscount.value
  {
    if promotion.promotionType.UnknownType? then Err("promotion type must be percentage or fixed_amount")
    else if promotion.value < 0 then Err("promotion value must be non-negative")
    else if promotion.maxDiscount.Some? && promotion.maxDiscount.value < 0 then Err("promotion maxDiscount must be non-negative")
    else
      var raw := if promotion.promotionType.Percentage? then Round((base * promotion.value) as real / 10000.0) else promotion.value;
      var capped := if promotion.maxDiscount.Some? then Min(raw, promotion.maxDiscount.value) else raw;
      Ok(Cap(capped, base))
  }

  /** What each promotion takes off, each computed on what the earlier ones left. */
  function PromotionAmounts(promotions: seq<Promotion>, base: int): (r: Result<seq<int>>)
    ensures r.Ok? ==> |r.value| == |promotions| && 0 <= Sum(r.value) <= Positive(base)
  {
    if promotions == [] then Ok([])
    else
      var n := |promotions| - 1;
      var amounts :- PromotionAmounts(promotions[..n], base);
      var amount :- PromotionAmount(promotions[n], base - Sum(amounts));
      SumAppend(amounts, amount);
      Ok(amounts + [amount])
  }

  lemma {:induction false} PrefixFails(promotions: seq<Promotion>, base: int, i: nat)
    requires i <= |promotions| && PromotionAmounts(promotions[..i], base).Err?
    ensures PromotionAmounts(promotions, base) == PromotionAmounts(promotions[..i], base)
    decreases |promotions|
  {
    hide PromotionAmount, Sum;
    if i == |promotions| {
      assert promotions[..i] == promotions;
    } else {
      var n := |promotions| - 1;
      assert promotions[..n][..i] == promotions[..i];
      PrefixFails(promotions[..n], base, i);
    }
  }

  /******* Breakdowns *******/

  datatype Heading = Subtotal | ItemLevel | Combo | HappyHour | BillLevel | DiscountTotal | Taxable | Tax | ServiceCharge | Due

  /** An amount for each heading. */
  type Breakdown = b: map<Heading, int> | forall h: Heading :: h in b witness map h: Heading :: 0

  const EMPTY: Breakdown := map h: Heading :: 0

  function Add(x: Breakdown, y: Breakdown): Breakdown {
    map h: Heading :: x[h] + y[h]
  }

  function OfLine(line: Line): Breakdown {
    var discount := line.itemDiscount + line.comboDiscount + line.happyHourDiscount;
    EMPTY[Subtotal := line.gross][ItemLevel := line.itemDiscount][Combo := line.comboDiscount][HappyHour := line.happyHourDiscount]
         [DiscountTotal := discount][Taxable := line.gross - discount][Due := line.gross - discount]
  }

  /** The lines of a split added up, before anything that is charged on the bill. */
  function Tally(lines: seq<Line>): Breakdown {
    if lines == [] then EMPTY else Add(Tally(lines[..|lines| - 1]), OfLine(lines[|lines| - 1]))
  }

  /** A breakdown with its share of what is charged on the bill. */
  function Charge(base: Breakdown, discount: int, tax: int, service: int): Breakdown {
    var taxable := base[Taxable] - discount;
    base[BillLevel := discount][DiscountTotal := base[ItemLevel] + base[Combo] + base[HappyHour] + discount]
        [Taxable := taxable][Tax := tax][ServiceCharge := service][Due := taxable + tax + service]
  }

  lemma TallyAppend(lines: seq<Line>, line: Line)
    ensures Tally(lines + [line]) == Add(Tally(lines), OfLine(line))
  {
    assert (lines + [line])[..|lines|] == lines;
  }

  lemma TallyNothing(x: Breakdown)
    ensures Add(x, Tally([])) == x
  {}

  lemma AddAssociative(x: Breakdown, y: Breakdown, z: Breakdown)
    ensures Add(Add(x, y), z) == Add(x, Add(y, z))
  {}

  lemma {:induction false} TallyConcat(xs: seq<Line>, ys: seq<Line>)
    ensures Tally(xs + ys) == Add(Tally(xs), Tally(ys))
  {
    hide Tally, Add, OfLine;
    if ys == [] {
      TallyNothing(Tally(xs));
      assert xs + ys == xs;
    } else {
      var init, last := ys[..|ys| - 1], ys[|ys| - 1];
      TallyConcat(xs, init);
      TallyAppend(xs + init, last);
      TallyAppend(init, last);
      AddAssociative(Tally(xs), Tally(init), OfLine(last));
      assert ys == init + [last] && xs + ys == xs + init + [last];
    }
  }

  lemma TallyOne(line: Line)
    ensures Tally([line]) == OfLine(line)
  {
    assert [line][..0] == [];
  }

  function Without<T>(xs: seq<T>, i: nat): (r: seq<T>)
    requires i < |xs|
    ensures |r| == |xs| - 1
  {
    xs[..i] + xs[i + 1..]
  }

  lemma WithoutBag<T>(xs: seq<T>, i: nat)
    requires i < |xs|
    ensures multiset(Without(xs, i)) == multiset(xs) - multiset{xs[i]}
  {
    assert xs == xs[..i] + [xs[i]] + xs[i + 1..];
  }

  lemma TallyWithout(lines: seq<Line>, i: nat)
    requires i < |lines|
    ensures Tally(lines) == Add(Tally(Without(lines, i)), OfLine(lines[i]))
  {
    hide Tally, OfLine, Add, Without;
    CutAt(lines, i);
    InsertedTally(lines[..i], [lines[i]], lines[i + 1..]);
    TallyOne(lines[i]);
  }

  lemma CutAt<T>(xs: seq<T>, i: nat)
    requires i < |xs|
    ensures xs == xs[..i] + ([xs[i]] + xs[i + 1..]) && Without(xs, i) == xs[..i] + xs[i + 1..]
  {}

  lemma InsertedTally(before: seq<Line>, one: seq<Line>, after: seq<Line>)
    ensures Tally(before + (one + after)) == Add(Tally(before + after), Tally(one))
  {
    hide *;
    TallyConcat(before, after);
    TallyConcat(one, after);
    TallyConcat(before, one + after);
    AddSwap(Tally(before), Tally(one), Tally(after));
  }

  lemma AddSwap(x: Breakdown, y: Breakdown, z: Breakdown)
    ensures Add(x, Add(y, z)) == Add(Add(x, z), y)
  {}

  /** The order of the lines does not matter. */
  lemma {:induction false} TallyMultiset(xs: seq<Line>, ys: seq<Line>)
    requires multiset(xs) == multiset(ys)
    ensures Tally(xs) == Tally(ys)
    decreases |xs|
  {
    hide Tally, OfLine, Add, Without;
    assert |xs| == |multiset(xs)| == |multiset(ys)| == |ys|;
    if xs == [] {
      assert ys == xs;
    } else {
      assert xs[0] in multiset(xs);
      var i :| 0 <= i < |ys| && ys[i] == xs[0];
      WithoutBag(xs, 0);
      WithoutBag(ys, i);
      TallyWithout(xs, 0);
      TallyWithout(ys, i);
      TallyMultiset(Without(xs, 0), Without(ys, i));
    }
  }

  /** What adds up on a breakdown of sound lines. */
  predicate SoundTally(t: Breakdown) {
    && t[Taxable] == t[Due] == t[Subtotal] - t[DiscountTotal] && t[Taxable] >= 0
    && t[DiscountTotal] == t[ItemLevel] + t[Combo] + t[HappyHour] && t[BillLevel] == t[Tax] == t[ServiceCharge] == 0
  }

  lemma {:induction false} TallySound(lines: seq<Line>)
    requires forall l | l in lines :: SoundLine(l)
    ensures SoundTally(Tally(lines))
  {
    hide Add, OfLine, SoundTally, SoundLine;
    if lines == [] {
      EmptySound();
    } else {
      var init, last := lines[..|lines| - 1], lines[|lines| - 1];
      assert SoundLine(last) && forall l | l in init :: l in lines;
      TallySound(init);
      AddSound(Tally(init), last);
    }
  }

  lemma EmptySound()
    ensures SoundTally(EMPTY)
  {}

  lemma AddSound(t: Breakdown, line: Line)
    requires SoundTally(t) && SoundLine(line)
    ensures SoundTally(Add(t, OfLine(line)))
  {}

  /******* Splits *******/

  datatype State = Open | PartiallyPaid | Paid | Debt | VoidBill

  datatype PaymentType = Payment | Refund | Reversal

  datatype PaymentStatus = Captured | Refunded | Voided | Failed

  datatype PaymentRecord = PaymentRecord(id: string, amount: int, paymentType: PaymentType, status: PaymentStatus,
                                         linkedPaymentId: Option<string>, cash: bool)

  function Contribution(p: PaymentRecord): int {
    match p.paymentType
    case Refund => -p.amount
    case Reversal => 0
    case Payment => if p.status.Voided? || p.status.Failed? then 0 else p.amount
  }

  function Contributions(payments: seq<PaymentRecord>): (cs: seq<int>)
    ensures |cs| == |payments| && forall i | 0 <= i < |payments| :: cs[i] == Contribution(payments[i])
  {
    seq(|payments|, i requires 0 <= i < |payments| => Contribution(payments[i]))
  }

  function AmountPaid(payments: seq<PaymentRecord>): int {
    Sum(Contributions(payments))
  }

  datatype Split = Split(lines: seq<Line>, payments: seq<PaymentRecord>, totalDue: int, amountPaid: int, unpaidBalance: int,
                         state: State, breakdown: Breakdown)

  function NextState(previous: State, totalDue: int, amountPaid: int, unpaid: int): State {
    if totalDue == 0 then Paid
    else if previous.Debt? && unpaid > 0 then Debt
    else if amountPaid == 0 then Open
    else if unpaid > 0 then PartiallyPaid
    else Paid
  }

  function PriceSplit(split: Split, discount: int, tax: int, service: int): Split {
    var breakdown := Charge(Tally(split.lines), discount, tax, service);
    var paid := AmountPaid(split.payments);
    var unpaid := Positive(breakdown[Due] - paid);
    split.(totalDue := breakdown[Due], amountPaid := paid, unpaidBalance := unpaid,
           state := NextState(split.state, breakdown[Due], paid, unpaid), breakdown := breakdown)
  }

  /******* The bill *******/

  datatype Pricing = Pricing(taxable: bool, taxRate: int, serviceChargeRate: real, serviceChargeEnabled: bool, promotions: seq<Promotion>)

  /** What normalizePricing lets through. */
  predicate ValidPricing(pricing: Pricing) {
    pricing.taxRate >= 0 && 0.0 <= pricing.serviceChargeRate <= 100.0
  }

  function TaxOn(pricing: Pricing, taxable: int): int {
    if pricing.taxable then Round((taxable * pricing.taxRate) as real / 10000.0) else 0
  }

  function ServiceOn(pricing: Pricing, taxable: int): int {
    if pricing.serviceChargeEnabled then Round(taxable as real * (pricing.serviceChargeRate / 100.0)) else 0
  }

  function Bases(splits: seq<Split>): (bases: seq<int>)
    ensures |bases| == |splits| && forall i | 0 <= i < |splits| :: bases[i] == Tally(splits[i].lines)[Taxable]
  {
    seq(|splits|, i requires 0 <= i < |splits| => Tally(splits[i].lines)[Taxable])
  }

  function Less(xs: seq<int>, ys: seq<int>): (zs: seq<int>)
    requires |xs| == |ys|
    ensures |zs| == |xs| && forall i | 0 <= i < |xs| :: zs[i] == xs[i] - ys[i]
  {
    seq(|xs|, i requires 0 <= i < |xs| => xs[i] - ys[i])
  }

  /** The splits with bill-level discount `discount`, tax and service charge divided among them. */
  function Divide(splits: seq<Split>, pricing: Pricing, discount: int): (priced: seq<Split>)
    ensures |priced| == |splits|
  {
    var bases := Bases(splits);
    var discounts := Allocate(discount, bases);
    var taxables := Less(bases, discounts);
    var left := Sum(bases) - discount;
    var taxes, services := Allocate(TaxOn(pricing, left), taxables), Allocate(ServiceOn(pricing, left), taxables);
    seq(|splits|, i requires 0 <= i < |splits| => PriceSplit(splits[i], discounts[i], taxes[i], services[i]))
  }

  function PriceSplits(splits: seq<Split>, pricing: Pricing): (r: Result<seq<Split>>)
    ensures r.Ok? ==> |r.value| == |splits|
  {
    var amounts :- PromotionAmounts(pricing.promotions, Sum(Bases(splits)));
    Ok(Divide(splits, pricing, Sum(amounts)))
  }

  /** The loop over the promotions: `left` is the running base. */
  method ApplyPromotions(promotions: seq<Promotion>, base: int) returns (r: Result<seq<int>>, left: int)
    ensures r == PromotionAmounts(promotions, base)
    ensures r.Ok? ==> left == base - Sum(r.value)
  {
    hide Sum, PromotionAmount;
    SumConstant([], 0);
    var amounts := [];
    left := base;
    for i := 0 to |promotions|
      invariant PromotionAmounts(promotions[..i], base) == Ok(amounts)
      invariant left == base - Sum(amounts)
    {
      var amount := PromotionAmount(promotions[i], left);
      assert promotions[..i + 1][..i] == promotions[..i];
      if amount.Err? {
        PrefixFails(promotions, base, i + 1);
        return Err(amount.message), left;
      }
      SumAppend(amounts, amount.value);
      amounts, left := amounts + [amount.value], left - amount.value;
    }
    assert promotions[..|promotions|] == promotions;
    r := Ok(amounts);
  }

  /** What a split with discount `discount` shows of a promotion of `amount`, when all promotions together
      come to `total`. */
  function ShownShare(discount: int, amount: int, total: int): int {
    Round((discount * amount) as real / Divisor(total) as real)
  }

  function Divisor(total: int): (d: int)
    ensures d >= 100
  {
    if total < 100 then 100 else total
  }

  /** What the splits show of one promotion. */
  function ShownShares(discounts: seq<int>, amount: int, total: int): (shown: seq<int>)
    ensures |shown| == |discounts| && forall i | 0 <= i < |shown| :: shown[i] == ShownShare(discounts[i], amount, total)
  {
    seq(|discounts|, i requires 0 <= i < |discounts| => ShownShare(discounts[i], amount, total))
  }

  /** What the splits show of each promotion that was applied. */
  function ShownPromotions(splits: seq<Split>, amounts: seq<int>): (shown: seq<seq<int>>)
    ensures |shown| == |amounts|
  {
    var discounts := Allocate(Sum(amounts), Bases(splits));
    seq(|amounts|, j requires 0 <= j < |amounts| => ShownShares(discounts, amounts[j], Sum(amounts)))
  }

  method ApplyBillLevelPricing(splits: seq<Split>, pricing: Pricing) returns (r: Result<seq<Split>>, shown: seq<seq<int>>)
    ensures r == PriceSplits(splits, pricing)
    ensures r.Ok? ==> shown == ShownPromotions(splits, PromotionAmounts(pricing.promotions, Sum(Bases(splits))).value)
  {
    hide Allocate, Tally, PriceSplit, TaxOn, ServiceOn, Sum, PromotionAmounts, ShownShare;
    var bases := Bases(splits);
    var amounts, left := ApplyPromotions(pricing.promotions, Sum(bases));
    if amounts.Err? {
      return Err(amounts.message), [];
    }
    var total := Sum(amounts.value);
    var discounts := AllocateAmount(total, bases);
    var taxables := Less(bases, discounts);
    var taxes := AllocateAmount(TaxOn(pricing, left), taxables);
    var services := AllocateAmount(ServiceOn(pricing, left), taxables);
    r := Ok(seq(|splits|, i requires 0 <= i < |splits| => PriceSplit(splits[i], discounts[i], taxes[i], services[i])));
    shown := seq(|amounts.value|, j requires 0 <= j < |amounts.value| => ShownShares(discounts, amounts.value[j], total));
  }

  function Merge(splits: seq<Split>): Breakdown {
    if splits == [] then EMPTY else Add(Merge(splits[..|splits| - 1]), splits[|splits| - 1].breakdown)
  }

  function BillState(splits: seq<Split>): State {
    if forall s | s in splits :: s.state.Paid? then Paid
    else if (exists s | s in splits :: s.state.Debt?) && forall s | s in splits :: s.state.Paid? || s.state.Debt? then Debt
    else if exists s | s in splits :: s.state.PartiallyPaid? || s.state.Debt? then PartiallyPaid
    else Open
  }

  datatype Bill = Bill(id: string, sessionId: string, splits: seq<Split>, pricing: Pricing, state: State, breakdown: Breakdown)

  function Reprice(bill: Bill): Result<Bill> {
    var splits :- PriceSplits(bill.splits, bill.pricing);
    Ok(bill.(splits := splits, state := BillState(splits), breakdown := Merge(splits)))
  }

  function Lines(splits: seq<Split>): seq<Line> {
    if splits == [] then [] else Lines(splits[..|splits| - 1]) + splits[|splits| - 1].lines
  }

  /******* Splitting a bill does not change what it comes to *******/

  /** The bill priced as a whole, without dividing anything. */
  function WholeBill(lines: seq<Line>, pricing: Pricing): Result<Breakdown> {
    var base := Tally(lines);
    var amounts :- PromotionAmounts(pricing.promotions, base[Taxable]);
    var left := base[Taxable] - Sum(amounts);
    Ok(Charge(base, Sum(amounts), TaxOn(pricing, left), ServiceOn(pricing, left)))
  }

  lemma BasesAppend(splits: seq<Split>, split: Split)
    ensures Bases(splits + [split]) == Bases(splits) + [Tally(split.lines)[Taxable]]
    ensures Lines(splits + [split]) == Lines(splits) + split.lines
  {
    hide Tally;
    assert (splits + [split])[..|splits|] == splits;
  }

  lemma NoBases()
    ensures Sum(Bases([])) == Tally(Lines([]))[Taxable]
  {}

  lemma {:induction false} BasesSum(splits: seq<Split>)
    ensures Sum(Bases(splits)) == Tally(Lines(splits))[Taxable]
  {
    hide Tally, Sum, Lines, Bases;
    if splits == [] {
      NoBases();
    } else {
      var init, last := splits[..|splits| - 1], splits[|splits| - 1];
      assert splits == init + [last];
      BasesSum(init);
      BasesAppend(init, last);
      SumAppend(Bases(init), Tally(last.lines)[Taxable]);
      TallyConcat(Lines(init), last.lines);
    }
  }

  /** The sums of the parts are all that reaches the merged breakdown. */
  lemma {:induction false} MergeCharged(splits: seq<Split>, priced: seq<Split>, discounts: seq<int>, taxes: seq<int>, services: seq<int>)
    requires |splits| == |priced| == |discounts| == |taxes| == |services|
    requires forall i | 0 <= i < |splits| :: priced[i].breakdown == Charge(Tally(splits[i].lines), discounts[i], taxes[i], services[i])
    ensures Merge(priced) == Charge(Tally(Lines(splits)), Sum(discounts), Sum(taxes), Sum(services))
  {
    hide Charge, Add, Tally, Sum, Lines, Merge;
    MergedLast(splits, priced);
    if splits == [] {
      EmptyMerge(discounts, taxes, services);
    } else {
      var n := |splits| - 1;
      MergeCharged(splits[..n], priced[..n], discounts[..n], taxes[..n], services[..n]);
      TallyConcat(Lines(splits[..n]), splits[n].lines);
      SumLast(discounts);
      SumLast(taxes);
      SumLast(services);
      ChargeAdds(Tally(Lines(splits[..n])), Tally(splits[n].lines), Sum(discounts[..n]), discounts[n],
                 Sum(taxes[..n]), taxes[n], Sum(services[..n]), services[n]);
    }
  }

  lemma MergedLast(splits: seq<Split>, priced: seq<Split>)
    ensures priced != [] ==> Merge(priced) == Add(Merge(priced[..|priced| - 1]), priced[|priced| - 1].breakdown)
    ensures priced == [] ==> Merge(priced) == EMPTY
    ensures splits != [] ==> Lines(splits) == Lines(splits[..|splits| - 1]) + splits[|splits| - 1].lines
    ensures splits == [] ==> Lines(splits) == []
  {
    hide Add;
  }

  lemma SumLast(xs: seq<int>)
    ensures xs != [] ==> Sum(xs) == Sum(xs[..|xs| - 1]) + xs[|xs| - 1]
  {}

  lemma EmptyMerge(discounts: seq<int>, taxes: seq<int>, services: seq<int>)
    requires discounts == taxes == services == []
    ensures EMPTY == Charge(Tally([]), Sum(discounts), Sum(taxes), Sum(services))
  {}

  lemma ChargeAdds(x: Breakdown, y: Breakdown, d: int, e: int, t: int, u: int, s: int, v: int)
    ensures Charge(Add(x, y), d + e, t + u, s + v) == Add(Charge(x, d, t, s), Charge(y, e, u, v))
  {}

  /** A discount that the bases can carry is handed out in full. */
  lemma DiscountHandedOut(discount: int, bases: seq<int>)
    requires 0 <= discount <= Positive(Sum(bases))
    ensures Sum(Allocate(discount, bases)) == discount
    ensures Sum(Less(bases, Allocate(discount, bases))) == Sum(bases) - discount
  {
    hide Allocate, Sum;
    var discounts := Allocate(discount, bases);
    SumLess(bases, Positives(bases));
    AllocateSums(discount, bases);
    PositiveTotal(bases);
    SumPlus(Less(bases, discounts), discounts, bases);
  }

  /** Tax and service charge find a split that can carry them, or there are none. */
  predicate Carries(splits: seq<Split>, pricing: Pricing) {
    var bases := Bases(splits);
    (exists b | b in bases :: b > 0) || (TaxOn(pricing, Sum(bases)) == 0 && ServiceOn(pricing, Sum(bases)) == 0)
  }

  /** A bill without the charges that no split carries. */
  function Uncharged(whole: Breakdown): Breakdown {
    whole[Tax := 0][ServiceCharge := 0][Due := whole[Taxable]]
  }

  /** Splitting conserves the bill exactly when some split has a positive amount before bill-level
      discounts, or tax and service charge on the whole amount are zero; otherwise the two charges are
      dropped, and nothing else. */
  lemma SplitConservedIff(splits: seq<Split>, pricing: Pricing)
    ensures PriceSplits(splits, pricing).Ok? <==> WholeBill(Lines(splits), pricing).Ok?
    ensures PriceSplits(splits, pricing).Ok? ==>
              var priced, whole := PriceSplits(splits, pricing).value, WholeBill(Lines(splits), pricing).value;
              && (Merge(priced) == whole <==> Carries(splits, pricing))
              && (!Carries(splits, pricing) ==> Merge(priced) == Uncharged(whole))
  {
    hide Allocate, Tally, TaxOn, ServiceOn, Sum, Lines, Merge, Divide, PromotionAmounts, BaseTotal, Charge, Uncharged;
    BasesSum(splits);
    if PriceSplits(splits, pricing).Ok? {
      var bases := Bases(splits);
      var discount := Sum(PromotionAmounts(pricing.promotions, Sum(bases)).value);
      DiscountHandedOut(discount, bases);
      DividedBreakdowns(splits, pricing, discount);
      var taxables, left := Less(bases, Allocate(discount, bases)), Sum(bases) - discount;
      AllocateSums(TaxOn(pricing, left), taxables);
      AllocateSums(ServiceOn(pricing, left), taxables);
      WhatIsLeft(discount, bases);
      NoCharge(pricing);
      PositiveTotal(taxables);
      ChargesApart(Tally(Lines(splits)), discount, TaxOn(pricing, left), ServiceOn(pricing, left));
    }
  }

  lemma ChargesApart(base: Breakdown, discount: int, tax: int, service: int)
    ensures Charge(base, discount, tax, service) == Charge(base, discount, 0, 0) <==> tax == service == 0
    ensures Charge(base, discount, 0, 0) == Uncharged(Charge(base, discount, tax, service))
  {
    assert Charge(base, discount, tax, service)[Tax] == tax && Charge(base, discount, tax, service)[ServiceCharge] == service;
  }

  /** With a positive base something positive is left after discounts, unless nothing is left at all. */
  lemma WhatIsLeft(discount: int, bases: seq<int>)
    requires 0 <= discount <= Positive(Sum(bases))
    ensures (exists b :: b in bases && b > 0) ==> BaseTotal(Less(bases, Allocate(discount, bases))) > 0 || discount == Sum(bases)
    ensures !(exists b :: b in bases && b > 0) ==> BaseTotal(Less(bases, Allocate(discount, bases))) == 0 && discount == 0
  {
    hide Sum, BaseTotal;
    var taxables := Less(bases, Allocate(discount, bases));
    PositiveSome(bases);
    PositiveSome(taxables);
    DiscountHandedOut(discount, bases);
    SumOfNone(bases);
    SumOfNone(taxables);
    if discount == 0 {
      NothingAllocated(bases);
      assert taxables == bases;
    }
  }

  lemma NothingAllocated(bases: seq<int>)
    ensures Allocate(0, bases) == seq(|bases|, i => 0)
  {}

  lemma SumOfNone(xs: seq<int>)
    ensures !(exists x :: x in xs && x > 0) ==> Sum(xs) <= 0
  {
    if !exists x :: x in xs && x > 0 {
      var zeros := seq(|xs|, i => 0);
      SumConstant(zeros, 0);
      forall i | 0 <= i < |xs| ensures xs[i] <= zeros[i] { assert xs[i] in xs; }
      SumLess(xs, zeros);
    }
  }

  lemma NoCharge(pricing: Pricing)
    ensures TaxOn(pricing, 0) == ServiceOn(pricing, 0) == 0
  {}

  const CREDIT: OrderItem := OrderItem("credit", -1.0, 1000.0, None, None, None, None)

  const CREDIT_SPLIT: Split := Split([CalculateLine(CREDIT, 0)], [], 0, 0, 0, Open, EMPTY)

  const TEN_PERCENT: Pricing := Pricing(true, 1000, 0.0, false, [])

  /** A bill of one credit with a tax rate of ten percent loses its tax when it is split. */
  lemma CreditLosesTax()
    ensures ValidPricing(TEN_PERCENT) && PriceSplits([CREDIT_SPLIT], TEN_PERCENT).Ok? && WholeBill(Lines([CREDIT_SPLIT]), TEN_PERCENT).Ok?
    ensures Merge(PriceSplits([CREDIT_SPLIT], TEN_PERCENT).value)[Tax] == 0
    ensures WholeBill(Lines([CREDIT_SPLIT]), TEN_PERCENT).value[Tax] == -100
  {
    hide *;
    CreditLine();
    TenPercent();
    OneLine(CREDIT_SPLIT, CalculateLine(CREDIT, 0));
    LostTax([CREDIT_SPLIT], TEN_PERCENT, -1000);
  }

  lemma LostTax(splits: seq<Split>, pricing: Pricing, base: int)
    requires Bases(splits) == [base] && Tally(Lines(splits))[Taxable] == base < 0 && pricing.promotions == [] && TaxOn(pricing, base) != 0
    ensures PriceSplits(splits, pricing).Ok? && Merge(PriceSplits(splits, pricing).value)[Tax] == 0
    ensures WholeBill(Lines(splits), pricing).Ok? && WholeBill(Lines(splits), pricing).value[Tax] == TaxOn(pricing, base)
  {
    hide Tally, TaxOn, ServiceOn, Charge, Merge, Divide, Bases, Lines;
    assert [base][..0] == [] && Sum([base]) == base;
    SplitConservedIff(splits, pricing);
    WholeWithoutPromotions(Lines(splits), pricing);
    ChargesApart(Tally(Lines(splits)), 0, TaxOn(pricing, base), ServiceOn(pricing, base));
    ChargedTax(Tally(Lines(splits)), TaxOn(pricing, base), ServiceOn(pricing, base));
  }

  lemma ChargedTax(base: Breakdown, tax: int, service: int)
    ensures Charge(base, 0, tax, service)[Tax] == tax && Uncharged(Charge(base, 0, tax, service))[Tax] == 0
  {}

  lemma OneLine(split: Split, line: Line)
    requires split.lines == [line]
    ensures Bases([split]) == [OfLine(line)[Taxable]] && Tally(Lines([split]))[Taxable] == OfLine(line)[Taxable]
  {
    TallyOne(line);
    hide Tally, OfLine;
    assert [split][..0] == [] && [] + [line] == [line];
    assert Lines([split]) == [line];
  }

  lemma WholeWithoutPromotions(lines: seq<Line>, pricing: Pricing)
    requires pricing.promotions == []
    ensures WholeBill(lines, pricing) ==
            Ok(Charge(Tally(lines), 0, TaxOn(pricing, Tally(lines)[Taxable]), ServiceOn(pricing, Tally(lines)[Taxable])))
    ensures forall splits :: PriceSplits(splits, pricing).Ok?
  {
    hide Tally, TaxOn, ServiceOn, Charge, Divide;
  }

  lemma CreditLine()
    ensures CREDIT_SPLIT.lines == [CalculateLine(CREDIT, 0)] && OfLine(CalculateLine(CREDIT, 0))[Taxable] == -1000
  {
    hide Gross, RequestedItemDiscount, Requested, OfLine, Tally;
    CreditGross();
    NegativeLine(CREDIT, 0);
    Taxed(CalculateLine(CREDIT, 0));
  }

  /** A credit has no discounts. */
  lemma NegativeLine(item: OrderItem, id: nat)
    requires Gross(item) <= 0
    ensures var line := CalculateLine(item, id); line.gross == Gross(item) && line.itemDiscount == line.comboDiscount == line.happyHourDiscount == 0
  {
    hide Gross, RequestedItemDiscount, Requested;
  }

  lemma CreditGross()
    ensures Gross(CREDIT) == -1000 && RequestedItemDiscount(CREDIT) == Requested(CREDIT.comboDiscount) == Requested(CREDIT.happyHourDiscount) == 0
  {}

  lemma Taxed(line: Line)
    ensures OfLine(line)[Taxable] == line.gross - line.itemDiscount - line.comboDiscount - line.happyHourDiscount
  {}

  lemma TenPercent()
    ensures ValidPricing(TEN_PERCENT) && TEN_PERCENT.promotions == [] && TaxOn(TEN_PERCENT, -1000) == -100
  {}

  lemma DividedBreakdowns(splits: seq<Split>, pricing: Pricing, discount: int)
    ensures var priced, bases := Divide(splits, pricing, discount), Bases(splits);
            var discounts, left := Allocate(discount, bases), Sum(bases) - discount;
            var taxables := Less(bases, discounts);
            && (forall i | 0 <= i < |priced| :: priced[i].breakdown[Taxable] == taxables[i])
            && Merge(priced) == Charge(Tally(Lines(splits)), Sum(discounts), Sum(Allocate(TaxOn(pricing, left), taxables)),
                                       Sum(Allocate(ServiceOn(pricing, left), taxables)))
  {
    hide Allocate, Tally, TaxOn, ServiceOn, Sum, Lines, Merge;
    var bases := Bases(splits);
    var discounts, left := Allocate(discount, bases), Sum(bases) - discount;
    var taxables := Less(bases, discounts);
    MergeCharged(splits, Divide(splits, pricing, discount), discounts, Allocate(TaxOn(pricing, left), taxables), Allocate(ServiceOn(pricing, left), taxables));
  }

  lemma PositiveSome(bases: seq<int>)
    ensures BaseTotal(bases) > 0 <==> exists b :: b in bases && b > 0
    ensures BaseTotal(bases) >= 0
  {
    PositiveTotal(bases);
    if b :| b in bases && b > 0 {
      var i :| 0 <= i < |bases| && bases[i] == b;
      SomePositive(bases, i);
    } else {
      forall i | 0 <= i < |bases| ensures Positives(bases)[i] == 0 {
        assert bases[i] in bases;
      }
      SumConstant(Positives(bases), 0);
    }
  }

  predicate SoundSplits(splits: seq<Split>) {
    forall s, l | s in splits && l in s.lines :: SoundLine(l)
  }

  predicate NonNegative(b: Breakdown) {
    b[Taxable] >= 0 && b[BillLevel] >= 0 && b[Tax] >= 0 && b[ServiceCharge] >= 0 && b[Due] >= 0
  }

  lemma ChargesNonNegative(pricing: Pricing, taxable: int)
    requires ValidPricing(pricing) && taxable >= 0
    ensures 0 <= TaxOn(pricing, taxable) && 0 <= ServiceOn(pricing, taxable)
    ensures taxable == 0 ==> TaxOn(pricing, taxable) == ServiceOn(pricing, taxable) == 0
  {
    MulMono(0, taxable, pricing.taxRate);
    RoundBounds((taxable * pricing.taxRate) as real / 10000.0, 0);
    ShareNonNegative(taxable as real, pricing.serviceChargeRate / 100.0);
    RoundBounds(taxable as real * (pricing.serviceChargeRate / 100.0), 0);
  }

  /** Tax and service charge are the given percentages of the amount, to the nearest cent. */
  lemma ChargesRounded(pricing: Pricing, taxable: int)
    ensures pricing.taxable ==> -5000 < 10000 * TaxOn(pricing, taxable) - taxable * pricing.taxRate <= 5000
    ensures pricing.serviceChargeEnabled ==>
              -0.5 < ServiceOn(pricing, taxable) as real - taxable as real * (pricing.serviceChargeRate / 100.0) <= 0.5
    ensures !pricing.taxable ==> TaxOn(pricing, taxable) == 0
    ensures !pricing.serviceChargeEnabled ==> ServiceOn(pricing, taxable) == 0
  {
    PercentageRounded(taxable * pricing.taxRate);
    RoundNearest(taxable as real * (pricing.serviceChargeRate / 100.0));
    hide Round;
  }

  lemma PercentageRounded(n: int)
    ensures -5000 < 10000 * Round(n as real / 10000.0) - n <= 5000
  {
    RoundNearest(n as real / 10000.0);
    hide Round;
    var r := Round(n as real / 10000.0);
    assert -5000.0 < 10000.0 * r as real - n as real <= 5000.0;
    assert (10000 * r - n) as real == 10000.0 * r as real - n as real;
  }

  lemma ShareNonNegative(x: real, y: real)
    requires x >= 0.0 && y >= 0.0
    ensures x * y >= 0.0
  {}

  lemma SoundBases(splits: seq<Split>)
    requires SoundSplits(splits)
    ensures forall b | b in Bases(splits) :: b >= 0
    ensures Positives(Bases(splits)) == Bases(splits) && Sum(Bases(splits)) == BaseTotal(Bases(splits)) >= 0
  {
    var bases := Bases(splits);
    forall i | 0 <= i < |splits| ensures bases[i] >= 0 {
      TallySound(splits[i].lines);
    }
    assert Positives(bases) == bases;
    PositiveTotal(bases);
  }

  lemma NonNegativeTaxables(discount: int, bases: seq<int>)
    requires (forall b | b in bases :: b >= 0) && 0 <= discount <= BaseTotal(bases)
    ensures forall i | 0 <= i < |bases| :: 0 <= Allocate(discount, bases)[i] <= bases[i]
  {
    forall i | 0 <= i < |bases| ensures 0 <= Allocate(discount, bases)[i] <= bases[i] {
      assert bases[i] in bases;
      PartWithinBase(discount, bases, i);
    }
  }

  lemma NonNegativeParts(total: int, bases: seq<int>)
    requires 0 <= total
    ensures forall i | 0 <= i < |bases| :: 0 <= Allocate(total, bases)[i]
  {
    forall i | 0 <= i < |bases| ensures 0 <= Allocate(total, bases)[i] {
      PartWithinBase(total, bases, i);
    }
  }

  /** No split of a bill without credit lines is left with a negative amount. */
  lemma NoNegativeSplit(splits: seq<Split>, pricing: Pricing, discount: int)
    requires SoundSplits(splits) && ValidPricing(pricing) && 0 <= discount <= Positive(Sum(Bases(splits)))
    ensures forall s | s in Divide(splits, pricing, discount) :: NonNegative(s.breakdown)
  {
    hide Allocate, Sum, TaxOn, ServiceOn, Tally, BaseTotal, SoundSplits, ValidPricing;
    var bases := Bases(splits);
    SoundBases(splits);
    var discounts, left := Allocate(discount, bases), Sum(bases) - discount;
    var taxables := Less(bases, discounts);
    NonNegativeTaxables(discount, bases);
    ChargesNonNegative(pricing, left);
    NonNegativeParts(TaxOn(pricing, left), taxables);
    NonNegativeParts(ServiceOn(pricing, left), taxables);
  }

  lemma SoundCarries(splits: seq<Split>, pricing: Pricing)
    requires SoundSplits(splits)
    ensures Carries(splits, pricing)
  {
    hide TaxOn, ServiceOn, Tally, Sum, SoundSplits;
    SoundBases(splits);
    SumOfNone(Bases(splits));
    NoCharge(pricing);
  }

  /** With no credit lines on the bill, splitting it changes neither its totals nor its errors, and no
      split is left with a negative amount. */
  lemma SplittingConserves(splits: seq<Split>, pricing: Pricing)
    requires SoundSplits(splits) && ValidPricing(pricing)
    ensures PriceSplits(splits, pricing).Ok? <==> WholeBill(Lines(splits), pricing).Ok?
    ensures PriceSplits(splits, pricing).Ok? ==>
              && Merge(PriceSplits(splits, pricing).value) == WholeBill(Lines(splits), pricing).value
              && forall s | s in PriceSplits(splits, pricing).value :: NonNegative(s.breakdown)
  {
    hide Allocate, Tally, TaxOn, ServiceOn, Sum, Lines, Merge, Divide, PromotionAmounts, SoundSplits, ValidPricing, Carries, WholeBill, Bases;
    SplitConservedIff(splits, pricing);
    SoundCarries(splits, pricing);
    if PriceSplits(splits, pricing).Ok? {
      NoNegativeSplit(splits, pricing, Sum(PromotionAmounts(pricing.promotions, Sum(Bases(splits))).value));
    }
  }

  /** The totals of a bill depend on which lines it has, not on their order nor on the splits they are
      assigned to, except for whether some split can carry the charges. */
  lemma AssignmentIrrelevant(splits: seq<Split>, other: seq<Split>, pricing: Pricing)
    requires multiset(Lines(splits)) == multiset(Lines(other))
    ensures PriceSplits(splits, pricing).Ok? <==> PriceSplits(other, pricing).Ok?
    ensures PriceSplits(splits, pricing).Ok? ==>
              (Merge(PriceSplits(splits, pricing).value) == Merge(PriceSplits(other, pricing).value) <==>
                 (Carries(splits, pricing) <==> Carries(other, pricing)))
  {
    hide PriceSplits, WholeBill, Merge, Carries, Uncharged, Lines, Tally;
    SplitConservedIff(splits, pricing);
    SplitConservedIff(other, pricing);
    TallyMultiset(Lines(splits), Lines(other));
    SameTallySameBill(Lines(splits), Lines(other), pricing);
  }

  /** Without credits that makes no exception. */
  lemma SoundAssignment(splits: seq<Split>, other: seq<Split>, pricing: Pricing)
    requires SoundSplits(splits) && multiset(Lines(splits)) == multiset(Lines(other))
    ensures SoundSplits(other) && Carries(splits, pricing) && Carries(other, pricing)
  {
    hide Carries, SoundLine, Lines;
    LinesOfSplits(splits);
    LinesOfSplits(other);
    forall s, l | s in other && l in s.lines ensures SoundLine(l) {
      assert l in Lines(other) && l in multiset(Lines(splits));
      assert l in Lines(splits);
      var t :| t in splits && l in t.lines;
    }
    SoundCarries(splits, pricing);
    SoundCarries(other, pricing);
  }

  lemma SameTallySameBill(xs: seq<Line>, ys: seq<Line>, pricing: Pricing)
    requires Tally(xs) == Tally(ys)
    ensures WholeBill(xs, pricing) == WholeBill(ys, pricing)
  {
    hide Tally, PromotionAmounts, Sum, TaxOn, ServiceOn, Charge;
  }

  lemma {:induction false} LinesOfSplits(splits: seq<Split>)
    ensures forall l :: l in Lines(splits) <==> exists s :: s in splits && l in s.lines
  {
    if splits != [] {
      var init, last := splits[..|splits| - 1], splits[|splits| - 1];
      LinesOfSplits(init);
      assert splits == init + [last];
      forall l ensures l in Lines(splits) <==> exists s :: s in splits && l in s.lines {
        if l in Lines(init) {
          var s :| s in init && l in s.lines;
          assert s in splits;
        }
        if s :| s in splits && l in s.lines {
          assert s in init || s == last;
        }
      }
    }
  }

  /******* States *******/

  /** Pricing a priced bill again changes nothing, states included. */
  lemma RepriceIdempotent(bill: Bill)
    requires Reprice(bill).Ok?
    ensures Reprice(Reprice(bill).value) == Reprice(bill)
  {
    hide Divide, Bases, Merge, BillState, PromotionAmounts;
    DivideIdempotent(bill.splits, bill.pricing, Sum(PromotionAmounts(bill.pricing.promotions, Sum(Bases(bill.splits))).value));
  }

  lemma DivideIdempotent(splits: seq<Split>, pricing: Pricing, discount: int)
    ensures Bases(Divide(splits, pricing, discount)) == Bases(splits)
    ensures Divide(Divide(splits, pricing, discount), pricing, discount) == Divide(splits, pricing, discount)
  {
    hide Allocate, Tally, PriceSplit, TaxOn, ServiceOn, Sum, Less;
    var priced := Divide(splits, pricing, discount);
    forall i | 0 <= i < |priced| ensures priced[i].lines == splits[i].lines {
      PricedLines(splits[i]);
    }
    assert Bases(priced) == Bases(splits);
    forall i | 0 <= i < |priced| ensures Divide(priced, pricing, discount)[i] == priced[i] {
      SplitIdempotent(splits[i]);
    }
  }

  lemma PricedLines(split: Split)
    ensures forall d, t, s :: PriceSplit(split, d, t, s).lines == split.lines
  {
    hide Charge, Tally, AmountPaid;
  }

  lemma SplitIdempotent(split: Split)
    ensures forall d, t, s :: PriceSplit(PriceSplit(split, d, t, s), d, t, s) == PriceSplit(split, d, t, s)
  {}

  /** Nothing is unpaid, and not only because a credit was never paid out. */
  predicate Settled(s: Split) {
    s.unpaidBalance == 0 && (s.totalDue >= 0 || s.amountPaid > 0)
  }

  /** Something is unpaid, and part of it is paid or all of it is owed as a debt. */
  predicate Underway(s: Split) {
    s.state.Debt? || 0 < s.amountPaid < s.totalDue
  }

  /** A split in debt stays in debt until its balance is zero; otherwise the state says how much of it
      is paid. */
  lemma SplitStates(split: Split, discount: int, tax: int, service: int)
    requires AmountPaid(split.payments) >= 0
    ensures var s := PriceSplit(split, discount, tax, service);
            && (s.state.Paid? <==> Settled(s))
            && (s.state.Debt? <==> split.state.Debt? && s.unpaidBalance > 0)
            && (s.state.PartiallyPaid? <==> !split.state.Debt? && 0 < s.amountPaid < s.totalDue)
            && !s.state.VoidBill?
  {
    hide Charge, Tally, AmountPaid;
  }

  predicate NonNegativePayments(splits: seq<Split>) {
    forall s | s in splits :: AmountPaid(s.payments) >= 0
  }

  /** The splits as pricing leaves them: what is unpaid, and what the states say. */
  lemma PricedStates(splits: seq<Split>, pricing: Pricing)
    requires PriceSplits(splits, pricing).Ok? && NonNegativePayments(splits)
    ensures forall s | s in PriceSplits(splits, pricing).value ::
              && s.amountPaid == AmountPaid(s.payments) && s.unpaidBalance == Positive(s.totalDue - s.amountPaid)
              && (s.state.Paid? <==> Settled(s)) && (s.state.PartiallyPaid? || s.state.Debt? <==> Underway(s)) && !s.state.VoidBill?
  {
    hide PriceSplits, PriceSplit, AmountPaid;
    var priced := PriceSplits(splits, pricing).value;
    forall s | s in priced
      ensures s.amountPaid == AmountPaid(s.payments) && s.unpaidBalance == Positive(s.totalDue - s.amountPaid)
      ensures (s.state.Paid? <==> Settled(s)) && (s.state.PartiallyPaid? || s.state.Debt? <==> Underway(s)) && !s.state.VoidBill?
    {
      var i :| 0 <= i < |priced| && priced[i] == s;
      assert splits[i] in splits;
      var discount, tax, service := PricedAt(splits, pricing, i);
      SplitStates(splits[i], discount, tax, service);
      SplitAmounts(splits[i], discount, tax, service);
    }
  }

  lemma PricedAt(splits: seq<Split>, pricing: Pricing, i: nat) returns (discount: int, tax: int, service: int)
    requires PriceSplits(splits, pricing).Ok? && i < |splits|
    ensures PriceSplits(splits, pricing).value[i] == PriceSplit(splits[i], discount, tax, service)
  {
    hide Allocate, Tally, PromotionAmounts, PriceSplit, TaxOn, ServiceOn, Sum;
    var bases := Bases(splits);
    var cut := Sum(PromotionAmounts(pricing.promotions, Sum(bases)).value);
    var taxables := Less(bases, Allocate(cut, bases));
    discount, tax := Allocate(cut, bases)[i], Allocate(TaxOn(pricing, Sum(bases) - cut), taxables)[i];
    service := Allocate(ServiceOn(pricing, Sum(bases) - cut), taxables)[i];
  }

  lemma SplitAmounts(split: Split, discount: int, tax: int, service: int)
    ensures var s := PriceSplit(split, discount, tax, service);
            s.payments == split.payments && s.amountPaid == AmountPaid(split.payments) && s.unpaidBalance == Positive(s.totalDue - s.amountPaid)
  {
    hide Charge, Tally, AmountPaid;
  }

  /** The state of a repriced bill sums up its splits: paid exactly when all are settled, debt exactly when
      some split is in debt and the others are settled or in debt, and open exactly when some split is not
      settled and none is under way. */
  lemma BillStateSumsUp(bill: Bill)
    requires NonNegativePayments(bill.splits) && Reprice(bill).Ok?
    ensures var priced := Reprice(bill).value;
            && (priced.state.Paid? <==> forall s | s in priced.splits :: Settled(s))
            && (priced.state.Debt? <==> (exists s :: s in priced.splits && s.state.Debt?)
                                        && forall s | s in priced.splits :: s.state.Debt? || Settled(s))
            && (priced.state.Open? <==> (exists s :: s in priced.splits && !Settled(s)) && forall s | s in priced.splits :: !Underway(s))
            && !priced.state.VoidBill?
            && (forall s | s in priced.splits :: s.unpaidBalance == Positive(s.totalDue - AmountPaid(s.payments)))
            && (forall s | s in priced.splits :: s.state.Paid? <==> Settled(s))
  {
    hide PriceSplits, Merge, AmountPaid, Settled, Underway;
    PricedStates(bill.splits, bill.pricing);
  }

  /** Without credits a bill is paid exactly when nothing is unpaid. */
  lemma SoundBillState(bill: Bill)
    requires SoundSplits(bill.splits) && ValidPricing(bill.pricing) && NonNegativePayments(bill.splits) && Reprice(bill).Ok?
    ensures var priced := Reprice(bill).value;
            && (priced.state.Paid? <==> forall s | s in priced.splits :: s.unpaidBalance == 0)
            && (priced.state.Debt? <==> (exists s :: s in priced.splits && s.state.Debt?)
                                        && forall s | s in priced.splits :: s.state.Debt? || s.unpaidBalance == 0)
  {
    BillStateSumsUp(bill);
    SplittingConserves(bill.splits, bill.pricing);
    hide Merge, AmountPaid, SoundSplits, ValidPricing, Allocate, Tally, TaxOn, ServiceOn, Sum, PromotionAmounts;
    DueIsTotal(bill);
  }

  lemma DueIsTotal(bill: Bill)
    requires Reprice(bill).Ok?
    ensures forall s | s in Reprice(bill).value.splits :: s.totalDue == s.breakdown[Due]
  {
    hide Merge, Allocate, Tally, TaxOn, ServiceOn, Sum, PromotionAmounts, AmountPaid;
  }

  const UNTAXED: Pricing := Pricing(false, 0, 0.0, false, [])

  const NEW_SPLIT: Split := Split([], [], 0, 0, 0, Open, EMPTY)

  /** Without promotions, tax and service charge each split comes to the sum of its lines. */
  lemma UntaxedSplits(splits: seq<Split>)
    ensures var r := PriceSplits(splits, UNTAXED); r.Ok? && forall i | 0 <= i < |splits| :: r.value[i] == PriceSplit(splits[i], 0, 0, 0)
  {
    hide Tally, PriceSplit, Allocate, Sum;
    NoneHandedOut(Bases(splits));
    NothingAllocated(Bases(splits));
    NothingAllocated(Less(Bases(splits), Allocate(0, Bases(splits))));
    var priced := Divide(splits, UNTAXED, 0);
    assert PriceSplits(splits, UNTAXED) == Ok(priced);
  }

  lemma NoneHandedOut(bases: seq<int>)
    ensures PromotionAmounts([], Sum(bases)) == Ok([]) && Sum([]) == 0
  {}

  /** A credit without payments is open, and nothing of it is unpaid. */
  lemma UnpaidCredit()
    ensures var s := PriceSplit(CREDIT_SPLIT, 0, 0, 0); s.state.Open? && s.unpaidBalance == 0
    ensures var s := PriceSplit(NEW_SPLIT, 0, 0, 0); s.state.Paid? && s.unpaidBalance == 0
  {
    hide *;
    CreditLine();
    OneLine(CREDIT_SPLIT, CalculateLine(CREDIT, 0));
    TallyOne(CalculateLine(CREDIT, 0));
    UnpaidSplit();
    OpenCredit(CREDIT_SPLIT);
    NothingDue();
  }

  lemma UnpaidSplit()
    ensures CREDIT_SPLIT.payments == [] && CREDIT_SPLIT.state.Open?
  {}

  lemma OpenCredit(split: Split)
    requires Tally(split.lines)[Taxable] < 0 && split.payments == [] && split.state.Open?
    ensures var s := PriceSplit(split, 0, 0, 0); s.state.Open? && s.unpaidBalance == 0
  {
    hide Tally;
    assert Charge(Tally(split.lines), 0, 0, 0)[Due] == Tally(split.lines)[Taxable];
  }

  lemma NothingDue()
    ensures var s := PriceSplit(NEW_SPLIT, 0, 0, 0); s.state.Paid? && s.unpaidBalance == 0
  {}

  /******* Promotions as the splits show them *******/

  lemma ShareRounded(n: int, d: int)
    requires d > 0
    ensures 0 - d <= 2 * (d * Round(n as real / d as real) - n) <= d
  {
    var r := Round(n as real / d as real);
    var error := ShareError(n, d, r);
    hide Round;
    Halves(error, d * r - n, d);
  }

  /** What rounding adds to the share, times d. */
  lemma ShareError(n: int, d: int, r: int) returns (error: real)
    requires d > 0 && r == Round(n as real / d as real)
    ensures -0.5 * d as real <= error <= 0.5 * d as real && error == (d * r - n) as real
  {
    var x := n as real / d as real;
    RoundNearest(x);
    hide Round;
    error := d as real * (r as real - x);
    ScaledWithin(r as real - x, d as real, error);
    Scaled(r, n, d, x, error);
  }

  lemma Halves(error: real, k: int, d: int)
    requires -0.5 * d as real <= error <= 0.5 * d as real && error == k as real
    ensures 0 - d <= 2 * k <= d
  {
    assert 2.0 * k as real == (2 * k) as real;
  }

  lemma Scaled(r: int, n: int, d: int, x: real, error: real)
    requires d > 0 && x == n as real / d as real && error == d as real * (r as real - x)
    ensures error == (d * r - n) as real
  {
    Quotient(n as real, d as real, x);
    Distributed(d as real, r as real, x);
    assert (d * r) as real == d as real * r as real;
  }

  lemma Quotient(n: real, d: real, x: real)
    requires d > 0.0 && x == n / d
    ensures d * x == n
  {}

  lemma Distributed(d: real, r: real, x: real)
    ensures d * (r - x) == d * r - d * x
  {}

  lemma ScaledWithin(x: real, d: real, error: real)
    requires -0.5 <= x <= 0.5 && d >= 0.0 && error == d * x
    ensures -0.5 * d <= error <= 0.5 * d
  {}

  /** What the splits show of a promotion adds up to its amount to within half a cent for each split, as
      long as all promotions together come to at least 1.00. Below that it adds up to the product of its
      amount and their total, that is to less than its amount. */
  lemma ShownAddUp(splits: seq<Split>, pricing: Pricing, j: nat)
    requires PromotionAmounts(pricing.promotions, Sum(Bases(splits))).Ok? && j < |PromotionAmounts(pricing.promotions, Sum(Bases(splits))).value|
    ensures var amounts := PromotionAmounts(pricing.promotions, Sum(Bases(splits))).value;
            var total, shown := Sum(amounts), Sum(ShownPromotions(splits, amounts)[j]);
            && (total >= 100 ==> 0 - |splits| <= 2 * (shown - amounts[j]) <= |splits|)
            && (total < 100 ==> 0 - 100 * |splits| <= 2 * (100 * shown - total * amounts[j]) <= 100 * |splits|)
  {
    hide Allocate, PromotionAmounts, ShownShares, Sum;
    var amounts, bases := PromotionAmounts(pricing.promotions, Sum(Bases(splits))).value, Bases(splits);
    var total := Sum(amounts);
    DiscountHandedOut(total, bases);
    SharesNear(Allocate(total, bases), amounts[j], total);
    if total >= 100 {
      Cancel(total, Sum(ShownShares(Allocate(total, bases), amounts[j], total)), amounts[j], |splits|);
    }
  }

  lemma Cancel(d: int, x: int, y: int, n: nat)
    requires d > 0 && 0 - d * n <= 2 * (d * x - d * y) <= d * n
    ensures 0 - n <= 2 * (x - y) <= n
  {
    assert 2 * (d * x - d * y) == d * (2 * (x - y));
    if 2 * (x - y) > n { MulMono(n + 1, 2 * (x - y), d); }
    if 2 * (x - y) < 0 - n { MulMono(2 * (x - y), 0 - n - 1, d); }
  }

  lemma {:induction false} SharesNear(discounts: seq<int>, amount: int, total: int)
    ensures var d, shown := Divisor(total), Sum(ShownShares(discounts, amount, total));
            0 - d * |discounts| <= 2 * (d * shown - Sum(discounts) * amount) <= d * |discounts|
  {
    hide Sum, ShownShare, Divisor;
    var d := Divisor(total);
    if discounts == [] {
      NoShares(amount, total);
    } else {
      var init, last := discounts[..|discounts| - 1], discounts[|discounts| - 1];
      assert discounts == init + [last];
      SharesNear(init, amount, total);
      var share := ShownShare(last, amount, total);
      assert ShownShares(discounts, amount, total) == ShownShares(init, amount, total) + [share];
      SumAppend(ShownShares(init, amount, total), share);
      SumAppend(init, last);
      OneShare(last, amount, total);
      NearTogether(d, Sum(ShownShares(init, amount, total)), share, Sum(init), last, amount, |init|);
    }
  }

  lemma NoShares(amount: int, total: int)
    ensures Sum(ShownShares([], amount, total)) == 0 && Sum([]) == 0
  {}

  lemma OneShare(discount: int, amount: int, total: int)
    ensures var d := Divisor(total); 0 - d <= 2 * (d * ShownShare(discount, amount, total) - discount * amount) <= d
  {
    ShareRounded(discount * amount, Divisor(total));
  }

  lemma NearTogether(d: int, shown: int, share: int, discounts: int, discount: int, amount: int, n: int)
    requires 0 - d * n <= 2 * (d * shown - discounts * amount) <= d * n && 0 - d <= 2 * (d * share - discount * amount) <= d
    ensures 0 - d * (n + 1) <= 2 * (d * (shown + share) - (discounts + discount) * amount) <= d * (n + 1)
  {
    assert d * (shown + share) == d * shown + d * share && (discounts + discount) * amount == discounts * amount + discount * amount;
    assert d * (n + 1) == d * n + d;
  }

  /** A bill on one split shows its only promotion right exactly when it is nothing or at least 1.00. */
  lemma OnlyPromotionShownIff(amount: nat)
    ensures Sum(ShownShares([amount], amount, amount)) == amount <==> amount == 0 || amount >= 100
  {
    OneShown(amount);
    OneShare(amount, amount, amount);
    hide ShownShare;
    var shown := ShownShare(amount, amount, amount);
    if amount >= 100 {
      Cancel(amount, shown, amount, 1);
    } else if amount > 0 {
      Parabola(amount);
      assert 100 * amount - amount * amount == amount * (100 - amount);
    } else {
      Cancel(100, shown, 0, 1);
    }
  }

  lemma OneShown(amount: nat)
    ensures Sum(ShownShares([amount], amount, amount)) == ShownShare(amount, amount, amount)
  {
    hide ShownShare;
    var share := ShownShare(amount, amount, amount);
    assert ShownShares([amount], amount, amount) == [share];
    SumOne(share);
  }

  lemma SumOne(x: int)
    ensures Sum([x]) == x
  {
    assert [x][..0] == [];
  }

  lemma Parabola(a: int)
    requires 1 <= a <= 99
    ensures a * (100 - a) >= 99
  {
    MulMono(1, 100 - a, a - 1);
    assert (a - 1) * (100 - a) >= a - 1;
    assert a * (100 - a) == (a - 1) * (100 - a) + (100 - a);
  }

  /** Two promotions of 0.50 on three splits of 1.00 are shown as 0.51 each. */
  lemma ShownOneCentMore()
    ensures Sum(ShownShares(Allocate(100, [100, 100, 100]), 50, 100)) == 51
  {
    var bases, parts := [100, 100, 100], [34, 33, 33];
    Thirds();
    ApportionmentUnique(100, bases, Allocate(100, bases), parts);
    ThirdsShown();
  }

  lemma Thirds()
    ensures BaseTotal([100, 100, 100]) == 300 && IsApportionment(100, [100, 100, 100], [34, 33, 33])
    ensures IsApportionment(100, [100, 100, 100], Allocate(100, [100, 100, 100]))
  {
    var bases, parts := [100, 100, 100], [34, 33, 33];
    SumOfThree(100, 100, 100);
    SumOfThree(34, 33, 33);
    assert Positives(bases) == bases;
    PositiveTotal(bases);
    hide Sum, BaseTotal;
    AllocateIsApportionment(100, bases);
    assert forall i | 0 <= i < 3 :: Floor(100, bases, i) == 33 && Remainder(100, bases, i) == 100;
  }

  lemma SumOfThree(x: int, y: int, z: int)
    ensures Sum([x, y, z]) == x + y + z
  {
    SumOne(x);
    SumAppend([x], y);
    SumAppend([x, y], z);
    assert [x] + [y] == [x, y] && [x, y] + [z] == [x, y, z];
  }

  lemma ThirdsShown()
    ensures Sum(ShownShares([34, 33, 33], 50, 100)) == 51
  {
    SumOfThree(17, 17, 17);
    assert ShownShares([34, 33, 33], 50, 100) == [17, 17, 17];
  }
}
