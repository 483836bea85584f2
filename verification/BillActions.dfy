/** When the operations on a stored bill succeed, and what they store (backend/billing/service.ts). */
module BillActions {
  import opened Results
  import opened Apportionment
  import opened BillPricing
  import opened BillAmounts
  import opened PaymentLedger

  /******* Pricing *******/

  predicate ValidPromotion(p: Promotion) {
    !p.promotionType.UnknownType? && p.value >= 0 && (p.maxDiscount.Some? ==> p.maxDiscount.value >= 0)
  }

  predicate ValidPromotions(promotions: seq<Promotion>) {
    forall p | p in promotions :: ValidPromotion(p)
  }

  lemma {:induction false} PromotionsSucceedIff(promotions: seq<Promotion>, base: int)
    ensures PromotionAmounts(promotions, base).Ok? <==> ValidPromotions(promotions)
  {
    hide PromotionAmount, Sum, ValidPromotion;
    if promotions != [] {
      var init, last := promotions[..|promotions| - 1], promotions[|promotions| - 1];
      assert promotions == init + [last];
      PromotionsSucceedIff(init, base);
      if PromotionAmounts(init, base).Ok? {
        OneSucceedsIff(last, base - Sum(PromotionAmounts(init, base).value));
      }
    }
  }

  lemma OneSucceedsIff(p: Promotion, base: int)
    ensures PromotionAmount(p, base).Ok? <==> ValidPromotion(p)
  {
    PromotionFailsIff(p, base);
  }

  /** Pricing a bill fails exactly on a promotion that is not valid. */
  lemma RepriceSucceedsIff(bill: Bill)
    ensures Reprice(bill).Ok? <==> ValidPromotions(bill.pricing.promotions)
  {
    hide PromotionAmounts, Divide, Merge, ValidPromotions, Bases, Sum;
    PromotionsSucceedIff(bill.pricing.promotions, Sum(Bases(bill.splits)));
  }

  /******* Payments *******/

  /** The split has payments `before` plus `p`, and the others have what they had. */
  predicate OneMore(bill: Bill, after: Bill, splitLabel: nat, p: PaymentRecord) {
    && splitLabel < |bill.splits| == |after.splits|
    && after.splits[splitLabel].payments == bill.splits[splitLabel].payments + [p]
    && forall i | 0 <= i < |bill.splits| && i != splitLabel :: after.splits[i].payments == bill.splits[i].payments
  }

  /** A payment is taken exactly on a split of the bill, for a positive amount, in cash or with the terminal's
      consent; it is recorded as captured for its amount to the nearest cent. */
  lemma PaySucceedsIff(bill: Bill, splitLabel: nat, amount: real, cash: bool, terminalOk: bool, id: string, createDebt: bool)
    ensures var r := RecordPayment(bill, splitLabel, amount, cash, terminalOk, id, createDebt);
            && (r.Ok? <==> splitLabel < |bill.splits| && amount > 0.0 && (cash || terminalOk) && ValidPromotions(bill.pricing.promotions))
            && (r.Ok? ==> OneMore(bill, r.value, splitLabel, PaymentRecord(id, Round(amount), Payment, Captured, None, cash)))
            && -0.5 < Round(amount) as real - amount <= 0.5
  {
    RoundNearest(amount);
    hide Reprice, Round, ValidPromotions;
    if splitLabel < |bill.splits| {
      var payment := PaymentRecord(id, Round(amount), Payment, Captured, None, cash);
      var paid := WithPayments(bill, splitLabel, bill.splits[splitLabel].payments + [payment]);
      RepriceSucceedsIff(paid);
      if Reprice(paid).Ok? {
        SamePayments(paid);
        var priced := Reprice(paid).value;
        var indebted := priced.(splits := priced.splits[splitLabel := priced.splits[splitLabel].(state := Debt)]);
        RepriceSucceedsIff(indebted);
        SamePayments(indebted);
      }
    }
  }

  lemma SamePayments(bill: Bill)
    requires Reprice(bill).Ok?
    ensures var priced := Reprice(bill).value;
            && |priced.splits| == |bill.splits| && priced.pricing == bill.pricing
            && forall i | 0 <= i < |bill.splits| :: priced.splits[i].payments == bill.splits[i].payments && priced.splits[i].lines == bill.splits[i].lines
  {
    RepriceKeeps(bill);
    hide Reprice;
    forall i | 0 <= i < |bill.splits| ensures Reprice(bill).value.splits[i].payments == bill.splits[i].payments && Reprice(bill).value.splits[i].lines == bill.splits[i].lines {
      assert Kept(bill.splits[i], Reprice(bill).value.splits[i]);
    }
  }

  /** A payment of the split, by its id. */
  predicate PaidBy(bill: Bill, splitLabel: nat, p: PaymentRecord, paymentId: string) {
    splitLabel < |bill.splits| && p in bill.splits[splitLabel].payments && p.paymentType.Payment? && p.id == paymentId
  }

  lemma OnePayment(ps: seq<PaymentRecord>, i: nat, j: nat)
    requires Balanced(ps) && i < |ps| && j < |ps| && ps[i].paymentType.Payment? && ps[j].paymentType.Payment? && ps[i].id == ps[j].id
    ensures i == j
  {
    hide AmountPaid, RefundTotal, Residuals, Sum;
  }

  /** A payment is found at its place. */
  lemma FoundAt(ps: seq<PaymentRecord>, k: nat)
    requires Balanced(ps) && k < |ps| && ps[k].paymentType.Payment?
    ensures FindPayment(ps, ps[k].id) == Some(k)
  {
    hide Balanced;
    assert IsPayment(ps[k], ps[k].id);
    OnePayment(ps, FindPayment(ps, ps[k].id).value, k);
  }

  lemma FoundPayment(bill: Bill, splitLabel: nat, paymentId: string)
    requires BillInv(bill) && splitLabel < |bill.splits|
    ensures var ps := bill.splits[splitLabel].payments;
            var found := FindPayment(ps, paymentId);
            && (found.Some? ==> forall p | PaidBy(bill, splitLabel, p, paymentId) :: p == ps[found.value])
            && (found.None? ==> forall p :: !PaidBy(bill, splitLabel, p, paymentId))
            && (found.Some? ==> PaidBy(bill, splitLabel, ps[found.value], paymentId))
  {
    var ps := bill.splits[splitLabel].payments;
    assert SplitInv(bill.splits[splitLabel]);
    assert Balanced(ps);
    hide BillInv, Balanced, FindPayment;
    forall p | PaidBy(bill, splitLabel, p, paymentId) ensures FindPayment(ps, paymentId).Some? && p == ps[FindPayment(ps, paymentId).value] {
      var k :| 0 <= k < |ps| && ps[k] == p;
      FoundAt(ps, k);
    }
  }

  /** What is left of a payment to be refunded. */
  function StillThere(bill: Bill, splitLabel: nat, p: PaymentRecord): int
    requires splitLabel < |bill.splits|
  {
    if p.status.Voided? then 0 else p.amount - RefundTotal(bill.splits[splitLabel].payments, p.id)
  }

  /** A refund is made exactly for a positive amount with a reason, of a payment of the split of which that much
      is left, in cash or with the terminal's consent. It is recorded as a refund of that payment, by its method,
      for the amount to the nearest cent. */
  lemma RefundSucceedsIff(bill: Bill, splitLabel: nat, paymentId: string, amount: real, hasReason: bool, terminalOk: bool, id: string)
    requires BillInv(bill)
    ensures var r := RefundPayment(bill, splitLabel, paymentId, amount, hasReason, terminalOk, id);
            && (r.Ok? <==> amount > 0.0 && hasReason && ValidPromotions(bill.pricing.promotions)
                           && exists p :: PaidBy(bill, splitLabel, p, paymentId) && Round(amount) <= StillThere(bill, splitLabel, p) && (p.cash || terminalOk))
            && (r.Ok? ==> exists p :: PaidBy(bill, splitLabel, p, paymentId)
                                      && OneMore(bill, r.value, splitLabel, PaymentRecord(id, Round(amount), Refund, PaymentStatus.Refunded, Some(paymentId), p.cash)))
  {
    hide Reprice, Round, ValidPromotions, BillInv, RefundTotal;
    if splitLabel < |bill.splits| {
      var ps := bill.splits[splitLabel].payments;
      FoundPayment(bill, splitLabel, paymentId);
      var found := FindPayment(ps, paymentId);
      if found.Some? {
        var p := ps[found.value];
        var after := WithPayments(bill, splitLabel, ps + [PaymentRecord(id, Round(amount), Refund, PaymentStatus.Refunded, Some(p.id), p.cash)]);
        Repriced(after);
        assert Refundable(ps, p) == StillThere(bill, splitLabel, p);
      }
    }
  }

  /** A payment is voided exactly with a reason, if it was not refunded or voided, in cash or with the terminal's
      consent. It is marked as voided, and a reversal of it is recorded. */
  lemma VoidSucceedsIff(bill: Bill, splitLabel: nat, paymentId: string, hasReason: bool, terminalOk: bool, id: string)
    requires BillInv(bill)
    ensures var r := VoidPayment(bill, splitLabel, paymentId, hasReason, terminalOk, id);
            && (r.Ok? <==> hasReason && ValidPromotions(bill.pricing.promotions)
                           && exists p :: PaidBy(bill, splitLabel, p, paymentId) && !p.status.Voided?
                                          && RefundTotal(bill.splits[splitLabel].payments, paymentId) == 0 && (p.cash || terminalOk))
            && (r.Ok? ==> exists k: nat ::
                  k < |bill.splits[splitLabel].payments| && PaidBy(bill, splitLabel, bill.splits[splitLabel].payments[k], paymentId)
                  && var p := bill.splits[splitLabel].payments[k];
                     OneMore(WithPayments(bill, splitLabel, bill.splits[splitLabel].payments[k := p.(status := Voided)]), r.value, splitLabel,
                             PaymentRecord(id, p.amount, Reversal, Voided, Some(paymentId), p.cash)))
  {
    hide Reprice, ValidPromotions, RefundTotal, BillInv;
    if splitLabel < |bill.splits| {
      var ps := bill.splits[splitLabel].payments;
      FoundPayment(bill, splitLabel, paymentId);
      var found := FindPayment(ps, paymentId);
      if found.Some? {
        var p := ps[found.value];
        NotReversed(bill, splitLabel, found.value);
        var reversal := PaymentRecord(id, p.amount, Reversal, Voided, Some(p.id), p.cash);
        var after := WithPayments(bill, splitLabel, ps[found.value := p.(status := Voided)] + [reversal]);
        Repriced(after);
      }
    }
  }

  lemma ReversalVoids(ps: seq<PaymentRecord>, i: nat, id: string)
    requires Balanced(ps) && i < |ps| && ps[i].paymentType.Reversal? && ps[i].linkedPaymentId == Some(id)
    ensures exists k :: 0 <= k < |ps| && IsPayment(ps[k], id) && ps[k].status.Voided?
  {
    hide AmountPaid, RefundTotal, Residuals, Sum;
    assert Linked(ps[i], ps);
  }

  /** A payment that is not voided has no reversal, and no payment has less than nothing refunded. */
  lemma NotReversed(bill: Bill, splitLabel: nat, k: nat)
    requires BillInv(bill) && splitLabel < |bill.splits| && k < |bill.splits[splitLabel].payments| && bill.splits[splitLabel].payments[k].paymentType.Payment?
    ensures var ps := bill.splits[splitLabel].payments;
            && RefundTotal(ps, ps[k].id) >= 0
            && forall p | p in ps && p.paymentType.Reversal? && p.linkedPaymentId == Some(ps[k].id) :: ps[k].status.Voided?
  {
    var ps := bill.splits[splitLabel].payments;
    assert SplitInv(bill.splits[splitLabel]);
    assert Balanced(ps);
    hide BillInv, AmountPaid, RefundTotal, Residuals, Sum;
    forall p | p in ps && p.paymentType.Reversal? && p.linkedPaymentId == Some(ps[k].id) ensures ps[k].status.Voided? {
      hide Balanced;
      var i :| 0 <= i < |ps| && ps[i] == p;
      ReversalVoids(ps, i, ps[k].id);
      var j :| 0 <= j < |ps| && IsPayment(ps[j], ps[k].id) && ps[j].status.Voided?;
      FoundAt(ps, j);
      FoundAt(ps, k);
    }
  }

  /******* Changes *******/

  /** Nothing was paid on the bill, nothing of it is a debt, and it is not void. */
  predicate Untouched(bill: Bill) {
    !bill.state.VoidBill? && forall s | s in bill.splits :: s.payments == [] && !s.state.Debt?
  }

  /** A stored bill may be changed exactly when it is untouched: the other checks follow. */
  lemma EditableIff(bill: Bill)
    requires BillInv(bill)
    ensures Editable(bill) <==> Untouched(bill)
    ensures Untouched(bill) ==> SplitsEditable(bill)
  {
    if Untouched(bill) {
      UntouchedState(bill);
      hide BillInv;
    }
  }

  /** An untouched bill is not in debt, nothing is paid on it, and if it is paid it comes to nothing. */
  lemma UntouchedState(bill: Bill)
    requires BillInv(bill) && Untouched(bill)
    ensures !bill.state.Debt? && (bill.state.Paid? ==> bill.breakdown[Due] == 0)
    ensures forall s | s in bill.splits :: s.amountPaid == 0
  {
    NothingPaid();
    hide Reprice, Balanced, AmountPaid, ValidPricing;
    forall s | s in bill.splits ensures s.amountPaid == AmountPaid(s.payments) == 0 { assert SplitInv(s); }
    BillStateSumsUp(bill);
    BooksBalance(bill);
    Merged(bill);
    hide SumsOf, Balances, Merge, BillInv, Untouched;
    if bill.state.Paid? {
      forall s | s in bill.splits ensures s.breakdown[Due] == 0 { assert Settled(s) && s.unpaidBalance == Positive(s.totalDue - AmountPaid(s.payments)); }
      MergeDue(bill.splits);
    }
  }

  /** All that changing a stored bill depends on. */
  lemma MayChange(bill: Bill)
    requires BillInv(bill)
    ensures |bill.splits| == 3 && (Editable(bill) <==> Untouched(bill))
    ensures Untouched(bill) ==> SplitsEditable(bill) && ValidPromotions(bill.pricing.promotions)
  {
    EditableIff(bill);
    UntouchedValid(bill);
    hide Reprice, SplitInv, Editable, Untouched, SplitsEditable;
  }

  /** The promotions of an untouched bill were checked when it was priced. */
  lemma UntouchedValid(bill: Bill)
    requires BillInv(bill)
    ensures !bill.state.VoidBill? ==> ValidPromotions(bill.pricing.promotions)
    ensures Untouched(bill) ==> ValidPromotions(bill.pricing.promotions)
  {
    hide Reprice, ValidPromotions, SplitInv;
    RepriceSucceedsIff(bill);
  }

  lemma NothingPaid()
    ensures AmountPaid([]) == 0
  {}

  lemma Merged(bill: Bill)
    requires Reprice(bill) == Ok(bill)
    ensures bill.breakdown == Merge(bill.splits)
  {
    hide PriceSplits, Merge;
  }

  lemma {:induction false} MergeDue(splits: seq<Split>)
    requires forall s | s in splits :: s.breakdown[Due] == 0
    ensures Merge(splits)[Due] == 0
  {
    if splits != [] {
      assert splits[|splits| - 1] in splits && forall s | s in splits[..|splits| - 1] :: s in splits;
      MergeDue(splits[..|splits| - 1]);
    }
  }

  /** Bills are generated exactly on three splits, with a tax rate and a service charge in range and valid
      promotions, and start out without payments. */
  lemma GenerateSucceedsIff(id: string, sessionId: string, items: seq<seq<OrderItem>>, firstIds: seq<nat>, pricing: Pricing)
    ensures var r := GenerateBill(id, sessionId, items, firstIds, pricing);
            && (r.Ok? <==> |items| == |firstIds| == 3 && pricing.taxRate >= 0 && 0.0 <= pricing.serviceChargeRate <= 100.0 && ValidPromotions(pricing.promotions))
            && (r.Ok? ==> r.value.id == id && r.value.sessionId == sessionId && r.value.pricing == pricing && |r.value.splits| == 3
                          && forall i | 0 <= i < 3 :: r.value.splits[i].payments == [] && r.value.splits[i].lines == CalculateLines(items[i], firstIds[i]))
  {
    hide Reprice, ValidPromotions, CalculateLine;
    if |items| == |firstIds| == LABELS {
      var lines := seq(LABELS, i requires 0 <= i < LABELS => CalculateLines(items[i], firstIds[i]));
      var bill := Bill(id, sessionId, WithLines([NEW_SPLIT, NEW_SPLIT, NEW_SPLIT], lines), pricing, Open, EMPTY);
      Repriced(bill);
    }
  }

  lemma RepriceHeader(bill: Bill)
    requires Reprice(bill).Ok?
    ensures var r := Reprice(bill).value; r.id == bill.id && r.sessionId == bill.sessionId && r.pricing == bill.pricing
  {
    hide PriceSplits, Merge, BillState;
  }

  /** A changed bill is priced exactly if its promotions are valid, and keeps what pricing does not compute. */
  lemma Repriced(bill: Bill)
    ensures Reprice(bill).Ok? <==> ValidPromotions(bill.pricing.promotions)
    ensures Reprice(bill).Ok? ==>
              var r := Reprice(bill).value;
              && r.id == bill.id && r.sessionId == bill.sessionId && r.pricing == bill.pricing && |r.splits| == |bill.splits|
              && forall i | 0 <= i < |bill.splits| :: r.splits[i].lines == bill.splits[i].lines && r.splits[i].payments == bill.splits[i].payments
  {
    hide Reprice, ValidPromotions;
    RepriceSucceedsIff(bill);
    if Reprice(bill).Ok? {
      SamePayments(bill);
      RepriceHeader(bill);
    }
  }

  /** What becomes of a bill that is given other lines. */
  lemma RepricedLines(bill: Bill, lines: seq<seq<Line>>)
    requires |lines| == |bill.splits|
    ensures var r := Reprice(bill.(splits := WithLines(bill.splits, lines)));
            && (r.Ok? <==> ValidPromotions(bill.pricing.promotions))
            && (r.Ok? ==> r.value.pricing == bill.pricing && |r.value.splits| == |lines| && forall i | 0 <= i < |lines| :: r.value.splits[i].lines == lines[i])
  {
    hide Reprice, ValidPromotions;
    var changed := bill.(splits := WithLines(bill.splits, lines));
    Repriced(changed);
    if Reprice(changed).Ok? {
      forall i | 0 <= i < |lines| ensures Reprice(changed).value.splits[i].lines == lines[i] {
        assert changed.splits[i].lines == lines[i];
      }
    }
  }

  /** Items are assigned exactly to every split of an untouched bill; each split then has the lines of its
      items. */
  lemma AssignSucceedsIff(bill: Bill, items: seq<seq<OrderItem>>, firstIds: seq<nat>)
    requires BillInv(bill)
    ensures var r := UpdateSplitItems(bill, items, firstIds);
            && (r.Ok? <==> |items| == |firstIds| == 3 && Untouched(bill))
            && (r.Ok? ==> |r.value.splits| == 3 && r.value.pricing == bill.pricing
                          && forall i | 0 <= i < 3 :: r.value.splits[i].lines == CalculateLines(items[i], firstIds[i]))
  {
    MayChange(bill);
    hide Reprice, ValidPromotions, CalculateLines, Editable, SplitsEditable, Untouched, BillInv, WithLines;
    if |items| == |firstIds| == LABELS {
      RepricedLines(bill, seq(|items|, i requires 0 <= i < |items| => CalculateLines(items[i], firstIds[i])));
    }
  }

  /** Changing tax or charges takes an untouched bill, applying promotions any bill; the values have to be in
      range, and lines and payments stay. */
  lemma PricingSucceedsIff(bill: Bill, pricing: Pricing, checked: bool)
    requires BillInv(bill)
    ensures var r := ChangePricing(bill, pricing, checked);
            && (r.Ok? <==> (checked ==> Untouched(bill)) && pricing.taxRate >= 0 && 0.0 <= pricing.serviceChargeRate <= 100.0 && ValidPromotions(pricing.promotions))
            && (r.Ok? ==> r.value.pricing == pricing && |r.value.splits| == |bill.splits|
                          && forall i | 0 <= i < |bill.splits| :: r.value.splits[i].lines == bill.splits[i].lines && r.value.splits[i].payments == bill.splits[i].payments)
  {
    EditableIff(bill);
    hide Reprice, ValidPromotions, Editable, Untouched, SplitInv, BillInv;
    Repriced(bill.(pricing := pricing));
  }

  /** Split by split the same lines, without those of some items. */
  ghost predicate LinesWithout(before: Bill, after: Bill, ids: seq<string>) {
    |after.splits| == |before.splits| &&
    forall i, l | 0 <= i < |before.splits| :: l in after.splits[i].lines <==> l in before.splits[i].lines && l.orderItemId !in ids
  }

  /** Removing an item takes an untouched bill and takes exactly the lines of the item off it, in place. */
  lemma RemoveSucceedsIff(bill: Bill, itemId: string)
    requires BillInv(bill)
    ensures var r := RemoveItem(bill, itemId);
            && (r.Ok? <==> Untouched(bill))
            && (r.Ok? ==> LinesWithout(bill, r.value, [itemId]))
  {
    MayChange(bill);
    hide Reprice, ValidPromotions, Editable, Untouched, BillInv, WithLines, LinesWithout, Drop;
    var lines := seq(|bill.splits|, i requires 0 <= i < |bill.splits| => Drop(bill.splits[i].lines, itemId));
    RepricedLines(bill, lines);
    if RemoveItem(bill, itemId).Ok? { OneDropped(bill, RemoveItem(bill, itemId).value, itemId); }
  }

  lemma OneDropped(before: Bill, after: Bill, itemId: string)
    requires |after.splits| == |before.splits| && forall i | 0 <= i < |before.splits| :: after.splits[i].lines == Drop(before.splits[i].lines, itemId)
    ensures LinesWithout(before, after, [itemId])
  {
    hide Drop;
    assert forall id: string :: id in [itemId] <==> id == itemId;
  }

  /** Taking an item off leaves an untouched bill untouched. */
  lemma StaysUntouched(bill: Bill, itemId: string)
    requires BillInv(bill) && RemoveItem(bill, itemId).Ok?
    ensures Untouched(RemoveItem(bill, itemId).value)
  {
    RemoveSucceedsIff(bill, itemId);
    var lines := seq(|bill.splits|, i requires 0 <= i < |bill.splits| => Drop(bill.splits[i].lines, itemId));
    NoDebt(bill.(splits := WithLines(bill.splits, lines)));
  }

  /** Pricing puts nothing into debt and voids nothing. */
  lemma NoDebt(bill: Bill)
    requires Reprice(bill).Ok? && forall s | s in bill.splits :: s.payments == [] && !s.state.Debt?
    ensures Untouched(Reprice(bill).value)
  {
    NothingPaid();
    hide PriceSplit, Merge, AmountPaid, PriceSplits;
    forall s | s in bill.splits ensures AmountPaid(s.payments) >= 0 {}
    BillStateSumsUp(bill);
    var priced := PriceSplits(bill.splits, bill.pricing).value;
    forall s | s in priced ensures s.payments == [] && !s.state.Debt? {
      var i :| 0 <= i < |priced| && priced[i] == s;
      assert bill.splits[i] in bill.splits;
      var discount, tax, service := PricedAt(bill.splits, bill.pricing, i);
      SplitStates(bill.splits[i], discount, tax, service);
      SplitAmounts(bill.splits[i], discount, tax, service);
    }
  }

  /** A bill is voided exactly with a reason and unless it is paid. */
  lemma VoidBillSucceedsIff(bill: Bill, hasReason: bool)
    ensures var r := VoidWholeBill(bill, hasReason);
            && (r.Ok? <==> hasReason && !bill.state.Paid?)
            && (r.Ok? ==> r.value.state.VoidBill? && |r.value.splits| == |bill.splits| && r.value.breakdown == EMPTY
                          && forall i | 0 <= i < |bill.splits| ::
                               && r.value.splits[i].totalDue == r.value.splits[i].unpaidBalance == 0 && r.value.splits[i].state.VoidBill?
                               && r.value.splits[i].payments == bill.splits[i].payments && r.value.splits[i].lines == bill.splits[i].lines)
  {}

  /** Bills are transferred exactly between two sessions whose bills, as far as there are any, are untouched. */
  lemma TransferSucceedsIff(bills: Bills, source: string, destination: string, billId: string, items: seq<OrderItem>, firstId: nat)
    requires Inv(bills)
    ensures TransferBills(bills, source, destination, billId, items, firstId).Ok? <==>
              source != destination && (source in bills ==> Untouched(bills[source])) && (destination in bills ==> Untouched(bills[destination]))
  {
    if source in bills { MayChange(bills[source]); }
    if destination in bills { MayChange(bills[destination]); }
    TransferRefused(bills, source, destination, billId, items, firstId);
    hide Inv, BillInv, Editable, Untouched, ValidPromotions, TransferBills;
    if source != destination && (source in bills ==> Untouched(bills[source])) && (destination in bills ==> Untouched(bills[destination])) {
      TransferWorks(bills, source, destination, billId, items, firstId);
    }
  }

  lemma TransferRefused(bills: Bills, source: string, destination: string, billId: string, items: seq<OrderItem>, firstId: nat)
    ensures source == destination || (source in bills && !Editable(bills[source])) || (destination in bills && !Editable(bills[destination])) ==>
              TransferBills(bills, source, destination, billId, items, firstId).Err?
  {
    hide Editable, TransferredBill, Emptied;
  }

  lemma TransferWorks(bills: Bills, source: string, destination: string, billId: string, items: seq<OrderItem>, firstId: nat)
    requires source != destination
    requires source in bills ==> |bills[source].splits| == 3 && Editable(bills[source]) && ValidPromotions(bills[source].pricing.promotions)
    requires destination in bills ==> |bills[destination].splits| == 3 && Editable(bills[destination]) && ValidPromotions(bills[destination].pricing.promotions)
    ensures TransferBills(bills, source, destination, billId, items, firstId).Ok?
  {
    if source in bills { EmptiedIff(bills[source]); }
    hide Editable, ValidPromotions, TransferredBill, Emptied;
    if destination in bills {
      TransferredIff(bills[destination].(sessionId := destination), if source in bills then Some(bills[source]) else None, items, firstId);
    } else if source in bills {
      TransferredIff(bills[source].(id := billId).(sessionId := destination), None, items, firstId);
    }
  }

  lemma TransferredIff(bill: Bill, source: Option<Bill>, items: seq<OrderItem>, firstId: nat)
    requires |bill.splits| > 0
    ensures TransferredBill(bill, source, items, firstId).Ok? <==> ValidPromotions(bill.pricing.promotions)
  {
    hide Reprice, ValidPromotions, Lines, Unbilled, CalculateLines;
    var joined := Concatenated(bill.splits, if source.Some? then source.value.splits else []);
    var added := CalculateLines(Unbilled(items, Lines(WithLines(bill.splits, joined))), firstId);
    Repriced(bill.(splits := WithLines(bill.splits, joined[0 := joined[0] + added])));
  }

  lemma EmptiedIff(bill: Bill)
    ensures Emptied(bill).Ok? <==> ValidPromotions(bill.pricing.promotions)
  {
    hide Reprice, ValidPromotions;
    Repriced(bill.(splits := WithLines(bill.splits, seq(|bill.splits|, i => []))));
  }
}
