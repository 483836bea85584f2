/** Payments, refunds, voids and edits on the bills of a branch (backend/billing/service.ts). A bill is
    stored under the id of its table session. */
module PaymentLedger {
  import opened Results
  import opened Apportionment
  import opened BillPricing

  const LABELS: nat := 3

  type Bills = map<string, Bill>

  /******* The payments of one split *******/

  function RefundOf(p: PaymentRecord, id: string): int {
    if p.paymentType.Refund? && p.linkedPaymentId == Some(id) then p.amount else 0
  }

  function RefundsOf(ps: seq<PaymentRecord>, id: string): (rs: seq<int>)
    ensures |rs| == |ps| && forall i | 0 <= i < |ps| :: rs[i] == RefundOf(ps[i], id)
  {
    seq(|ps|, i requires 0 <= i < |ps| => RefundOf(ps[i], id))
  }

  function RefundTotal(ps: seq<PaymentRecord>, id: string): int {
    Sum(RefundsOf(ps, id))
  }

  /** What is left of a payment: nothing once it is voided, else its amount less its refunds. */
  function Residual(p: PaymentRecord, ps: seq<PaymentRecord>): int {
    if p.paymentType.Payment? && !p.status.Voided? then p.amount - RefundTotal(ps, p.id) else 0
  }

  function Residuals(ps: seq<PaymentRecord>): (rs: seq<int>)
    ensures |rs| == |ps| && forall i | 0 <= i < |ps| :: rs[i] == Residual(ps[i], ps)
  {
    seq(|ps|, i requires 0 <= i < |ps| => Residual(ps[i], ps))
  }

  predicate IsPayment(p: PaymentRecord, id: string) {
    p.paymentType.Payment? && p.id == id
  }

  /** The ledger invariant of one split. */
  ghost predicate Balanced(ps: seq<PaymentRecord>) {
    && (forall i | 0 <= i < |ps| :: ps[i].amount >= 0)
    && (forall i | 0 <= i < |ps| && ps[i].paymentType.Payment? :: ps[i].status.Captured? || ps[i].status.Voided?)
    && (forall i, j | 0 <= i < j < |ps| && ps[i].paymentType.Payment? && ps[j].paymentType.Payment? :: ps[i].id != ps[j].id)
    && (forall i | 0 <= i < |ps| && !ps[i].paymentType.Payment? :: Linked(ps[i], ps))
    && (forall i | 0 <= i < |ps| && ps[i].paymentType.Payment? ::
          0 <= RefundTotal(ps, ps[i].id) <= if ps[i].status.Voided? then 0 else ps[i].amount)
    && AmountPaid(ps) == Sum(Residuals(ps))
  }

  /** A refund or a reversal belongs to a payment of the same split; a reversal to a voided one. */
  ghost predicate Linked(p: PaymentRecord, ps: seq<PaymentRecord>) {
    p.linkedPaymentId.Some? && exists k :: 0 <= k < |ps| && IsPayment(ps[k], p.linkedPaymentId.value) && (p.paymentType.Reversal? ==> ps[k].status.Voided?)
  }

  lemma BalancedNonNegative(ps: seq<PaymentRecord>)
    requires Balanced(ps)
    ensures AmountPaid(ps) >= 0
  {
    var zeros := seq(|ps|, i => 0);
    SumConstant(zeros, 0);
    SumLess(zeros, Residuals(ps));
  }

  lemma BalancedEmpty()
    ensures Balanced([])
  {}

  lemma RefundedAppend(ps: seq<PaymentRecord>, p: PaymentRecord, id: string)
    ensures RefundTotal(ps + [p], id) == RefundTotal(ps, id) + RefundOf(p, id)
  {
    SumAppend(RefundsOf(ps, id), RefundOf(p, id));
    assert RefundsOf(ps + [p], id) == RefundsOf(ps, id) + [RefundOf(p, id)];
  }

  lemma AmountPaidAppend(ps: seq<PaymentRecord>, p: PaymentRecord)
    ensures AmountPaid(ps + [p]) == AmountPaid(ps) + Contribution(p)
  {
    SumAppend(Contributions(ps), Contribution(p));
    assert Contributions(ps + [p]) == Contributions(ps) + [Contribution(p)];
  }

  lemma NoRefunds(ps: seq<PaymentRecord>, id: string)
    requires forall i | 0 <= i < |ps| :: ps[i].paymentType.Refund? ==> ps[i].linkedPaymentId != Some(id)
    ensures RefundTotal(ps, id) == 0
  {
    SumConstant(RefundsOf(ps, id), 0);
  }

  /** A captured payment with a fresh id. */
  lemma PaymentBalances(ps: seq<PaymentRecord>, p: PaymentRecord)
    requires Balanced(ps) && p.paymentType.Payment? && p.status.Captured? && p.amount >= 0
    requires forall i | 0 <= i < |ps| :: !IsPayment(ps[i], p.id)
    ensures Balanced(ps + [p])
  {
    hide Sum, AmountPaid, RefundTotal;
    var all := ps + [p];
    forall i | 0 <= i < |ps| && !ps[i].paymentType.Payment? ensures Linked(all[i], all) && ps[i].linkedPaymentId != Some(p.id) {
      var k :| 0 <= k < |ps| && IsPayment(ps[k], ps[i].linkedPaymentId.value) && (ps[i].paymentType.Reversal? ==> ps[k].status.Voided?);
      assert all[k] == ps[k];
    }
    NoRefunds(ps, p.id);
    forall id: string ensures RefundTotal(all, id) == RefundTotal(ps, id) { RefundedAppend(ps, p, id); }
    AmountPaidAppend(ps, p);
    SumAppend(Residuals(ps), p.amount);
    assert Residuals(all) == Residuals(ps) + [p.amount];
  }

  /** A refund of no more than what is left of payment `i`. */
  lemma RefundBalances(ps: seq<PaymentRecord>, i: nat, p: PaymentRecord)
    requires Balanced(ps) && i < |ps| && ps[i].paymentType.Payment? && p.paymentType.Refund? && p.linkedPaymentId == Some(ps[i].id)
    requires 0 <= p.amount <= Residual(ps[i], ps)
    ensures Balanced(ps + [p])
  {
    hide Sum, AmountPaid, RefundTotal;
    var all := ps + [p];
    forall k | 0 <= k < |all| && !all[k].paymentType.Payment? ensures Linked(all[k], all) {
      if k < |ps| {
        var m :| 0 <= m < |ps| && IsPayment(ps[m], ps[k].linkedPaymentId.value) && (ps[k].paymentType.Reversal? ==> ps[m].status.Voided?);
        assert all[m] == ps[m];
      } else {
        assert all[i] == ps[i] && IsPayment(all[i], p.linkedPaymentId.value);
      }
    }
    forall id: string ensures RefundTotal(all, id) == RefundTotal(ps, id) + if id == ps[i].id then p.amount else 0 { RefundedAppend(ps, p, id); }
    AmountPaidAppend(ps, p);
    var lowered := Residuals(ps)[i := Residuals(ps)[i] - p.amount];
    SumUpdate(Residuals(ps), i, Residuals(ps)[i] - p.amount);
    SumAppend(lowered, 0);
    assert Residuals(all) == lowered + [0];
  }

  /** Voiding payment `i`, which has not been refunded or voided. */
  lemma VoidBalances(ps: seq<PaymentRecord>, i: nat, p: PaymentRecord)
    requires Balanced(ps) && i < |ps| && ps[i].paymentType.Payment? && ps[i].status.Captured? && RefundTotal(ps, ps[i].id) <= 0
    requires p.paymentType.Reversal? && p.linkedPaymentId == Some(ps[i].id) && p.amount >= 0
    ensures Balanced(ps[i := ps[i].(status := Voided)] + [p])
  {
    hide Sum, AmountPaid, RefundTotal;
    var voided := ps[i := ps[i].(status := Voided)];
    var all := voided + [p];
    forall k | 0 <= k < |all| && !all[k].paymentType.Payment? ensures Linked(all[k], all) {
      if k < |ps| {
        assert Linked(ps[k], ps);
        var m :| 0 <= m < |ps| && IsPayment(ps[m], ps[k].linkedPaymentId.value) && (ps[k].paymentType.Reversal? ==> ps[m].status.Voided?);
        assert IsPayment(all[m], ps[m].id);
      } else {
        assert IsPayment(all[i], p.linkedPaymentId.value);
      }
    }
    forall id: string ensures RefundTotal(all, id) == RefundTotal(ps, id) {
      RefundedAppend(voided, p, id);
      SameRefunds(ps, voided, id);
    }
    AmountPaidAppend(voided, p);
    AmountPaidVoid(ps, i);
    SumUpdate(Residuals(ps), i, 0);
    SumAppend(Residuals(ps)[i := 0], 0);
    assert Residuals(all) == Residuals(ps)[i := 0] + [0];
  }

  lemma SameRefunds(ps: seq<PaymentRecord>, qs: seq<PaymentRecord>, id: string)
    requires |ps| == |qs| && forall i | 0 <= i < |ps| :: RefundOf(ps[i], id) == RefundOf(qs[i], id)
    ensures RefundTotal(ps, id) == RefundTotal(qs, id)
  {
    assert RefundsOf(ps, id) == RefundsOf(qs, id);
  }

  lemma AmountPaidVoid(ps: seq<PaymentRecord>, i: nat)
    requires i < |ps| && ps[i].paymentType.Payment? && ps[i].status.Captured?
    ensures AmountPaid(ps[i := ps[i].(status := Voided)]) == AmountPaid(ps) - ps[i].amount
  {
    SumUpdate(Contributions(ps), i, 0);
    assert Contributions(ps[i := ps[i].(status := Voided)]) == Contributions(ps)[i := 0];
  }

  /******* Operations on one bill *******/

  function FindPayment(ps: seq<PaymentRecord>, id: string): (r: Option<nat>)
    ensures r.Some? ==> r.value < |ps| && IsPayment(ps[r.value], id)
    ensures r.None? ==> forall i | 0 <= i < |ps| :: !IsPayment(ps[i], id)
  {
    if ps == [] then None
    else
      var earlier := FindPayment(ps[..|ps| - 1], id);
      if earlier.Some? then earlier
      else if IsPayment(ps[|ps| - 1], id) then Some(|ps| - 1)
      else None
  }

  function WithPayments(bill: Bill, splitLabel: nat, ps: seq<PaymentRecord>): Bill
    requires splitLabel < |bill.splits|
  {
    bill.(splits := bill.splits[splitLabel := bill.splits[splitLabel].(payments := ps)])
  }

  /** A payment, or the settlement of a debt, by cash or, when the terminal authorises and captures it, by another method. What it
      leaves unpaid is moved to debt unless the caller declines. */
  function RecordPayment(bill: Bill, splitLabel: nat, amount: real, cash: bool, terminalOk: bool, id: string, createDebt: bool)
    : Result<Bill>
  {
    if splitLabel >= |bill.splits| then Err("Invalid split label. Use A, B, or C.")
    else if amount <= 0.0 then Err("Payment amount must be greater than zero.")
    else if !cash && !terminalOk then Err("Payment authorization declined.")
    else
      var payment := PaymentRecord(id, Round(amount), Payment, Captured, None, cash);
      var paid :- Reprice(WithPayments(bill, splitLabel, bill.splits[splitLabel].payments + [payment]));
      if createDebt && paid.splits[splitLabel].unpaidBalance > 0
      then Reprice(paid.(splits := paid.splits[splitLabel := paid.splits[splitLabel].(state := Debt)]))
      else Ok(paid)
  }

  function Refundable(ps: seq<PaymentRecord>, original: PaymentRecord): int {
    original.amount - if original.status.Voided? then original.amount else RefundTotal(ps, original.id)
  }

  function RefundPayment(bill: Bill, splitLabel: nat, paymentId: string, amount: real, hasReason: bool, terminalOk: bool, id: string): Result<Bill> {
    if amount <= 0.0 then Err("Refund amount must be greater than zero.")
    else if !hasReason then Err("A refund reason is required.")
    else if splitLabel >= |bill.splits| then Err("split is undefined")
    else
      var ps := bill.splits[splitLabel].payments;
      var found := FindPayment(ps, paymentId);
      if found.None? then Err("Original payment not found for split.")
      else
        var original := ps[found.value];
        if Round(amount) > Refundable(ps, original) then Err("Refund amount exceeds remaining captured amount.")
        else if !original.cash && !terminalOk then Err("Payment refund failed.")
        else Reprice(WithPayments(bill, splitLabel, ps + [PaymentRecord(id, Round(amount), Refund, PaymentStatus.Refunded, Some(original.id), original.cash)]))
  }

  function VoidPayment(bill: Bill, splitLabel: nat, paymentId: string, hasReason: bool, terminalOk: bool, id: string): Result<Bill> {
    if !hasReason then Err("A void reason is required.")
    else if splitLabel >= |bill.splits| then Err("split is undefined")
    else
      var ps := bill.splits[splitLabel].payments;
      var found := FindPayment(ps, paymentId);
      if found.None? then Err("Original payment not found for split.")
      else
        var i, original := found.value, ps[found.value];
        if RefundTotal(ps, original.id) > 0 then Err("Refunded payments cannot be voided; refund the remaining amount instead.")
        else if original.status.Voided? || exists p | p in ps :: p.paymentType.Reversal? && p.linkedPaymentId == Some(original.id)
        then Err("Payment has already been voided.")
        else if !original.cash && !terminalOk then Err("Payment void failed.")
        else
          var reversal := PaymentRecord(id, original.amount, Reversal, Voided, Some(original.id), original.cash);
          Reprice(WithPayments(bill, splitLabel, ps[i := original.(status := Voided)] + [reversal]))
  }

  /** Voiding a bill waives what it asks for; payments already made stay on it. */
  function VoidWholeBill(bill: Bill, hasReason: bool): Result<Bill> {
    if !hasReason then Err("A void reason is required.")
    else if bill.state.Paid? then Err("Paid bills cannot be voided.")
    else Ok(bill.(splits := seq(|bill.splits|, i requires 0 <= i < |bill.splits| => Waived(bill.splits[i])),
                  state := VoidBill, pricing := bill.pricing.(promotions := []), breakdown := EMPTY))
  }

  function Waived(split: Split): Split {
    split.(state := VoidBill, totalDue := 0, unpaidBalance := 0)
  }

  /** assertBillEditable. */
  predicate Editable(bill: Bill) {
    && !bill.state.Debt? && !bill.state.VoidBill? && !(bill.state.Paid? && bill.breakdown[Due] > 0)
    && forall s | s in bill.splits :: s.payments == [] && !s.state.Debt?
  }

  /** assertEditableSplit for every split. */
  predicate SplitsEditable(bill: Bill) {
    forall s | s in bill.splits :: s.payments == [] && s.amountPaid <= 0
  }

  function CalculateLines(items: seq<OrderItem>, firstId: nat): (lines: seq<Line>)
    ensures |lines| == |items| && forall i | 0 <= i < |items| :: lines[i] == CalculateLine(items[i], firstId + i)
  {
    seq(|items|, i requires 0 <= i < |items| => CalculateLine(items[i], firstId + i))
  }

  function WithLines(splits: seq<Split>, lines: seq<seq<Line>>): (r: seq<Split>)
    requires |splits| == |lines|
    ensures |r| == |splits| && forall i | 0 <= i < |r| :: r[i] == splits[i].(lines := lines[i])
  {
    seq(|splits|, i requires 0 <= i < |splits| => splits[i].(lines := lines[i]))
  }

  function GenerateBill(id: string, sessionId: string, items: seq<seq<OrderItem>>, firstIds: seq<nat>, pricing: Pricing): Result<Bill> {
    if |items| != LABELS || |firstIds| != LABELS then Err("Invalid split label. Use A, B, or C.")
    else if !ValidPricing(pricing) then Err("taxRate and serviceChargeRate must be in range.")
    else
      var lines := seq(LABELS, i requires 0 <= i < LABELS => CalculateLines(items[i], firstIds[i]));
      Reprice(Bill(id, sessionId, WithLines([NEW_SPLIT, NEW_SPLIT, NEW_SPLIT], lines), pricing, Open, EMPTY))
  }

  function UpdateSplitItems(bill: Bill, items: seq<seq<OrderItem>>, firstIds: seq<nat>): Result<Bill> {
    if |items| != |bill.splits| || |firstIds| != |bill.splits| then Err("Invalid split label. Use A, B, or C.")
    else if !Editable(bill) then Err("Cannot change a bill after payment or debt settlement.")
    else if !SplitsEditable(bill) then Err("A split has payments and cannot be reassigned or merged.")
    else
      var lines := seq(|items|, i requires 0 <= i < |items| => CalculateLines(items[i], firstIds[i]));
      Reprice(bill.(splits := WithLines(bill.splits, lines)))
  }

  function MergeSplits(bill: Bill, target: nat): Result<Bill> {
    if target >= |bill.splits| then Err("Invalid target split label. Use A, B, or C.")
    else if !SplitsEditable(bill) then Err("A split has payments and cannot be reassigned or merged.")
    else Reprice(bill.(splits := WithLines(bill.splits, Gathered(bill.splits, target))))
  }

  /** All lines on the target, none elsewhere. */
  function Gathered(splits: seq<Split>, target: nat): (lines: seq<seq<Line>>)
    ensures |lines| == |splits| && forall i | 0 <= i < |splits| :: lines[i] == if i == target then Lines(splits) else []
  {
    seq(|splits|, i requires 0 <= i < |splits| => if i == target then Lines(splits) else [])
  }

  function ChangePricing(bill: Bill, pricing: Pricing, checked: bool): Result<Bill> {
    if checked && !Editable(bill) then Err("Cannot change a bill after payment or debt settlement.")
    else if !ValidPricing(pricing) then Err("taxRate and serviceChargeRate must be in range.")
    else Reprice(bill.(pricing := pricing))
  }

  function Drop(lines: seq<Line>, orderItemId: string): (r: seq<Line>)
    ensures forall l :: l in r <==> l in lines && l.orderItemId != orderItemId
  {
    if lines == [] then []
    else
      var init := Drop(lines[..|lines| - 1], orderItemId);
      if lines[|lines| - 1].orderItemId == orderItemId then init else init + [lines[|lines| - 1]]
  }

  function RemoveItem(bill: Bill, orderItemId: string): Result<Bill> {
    if !Editable(bill) then Err("Cannot change a bill after payment or debt settlement.")
    else
      var lines := seq(|bill.splits|, i requires 0 <= i < |bill.splits| => Drop(bill.splits[i].lines, orderItemId));
      Reprice(bill.(splits := WithLines(bill.splits, lines)))
  }

  /** The items that no line of the bill refers to yet. */
  function Unbilled(items: seq<OrderItem>, lines: seq<Line>): (r: seq<OrderItem>)
    ensures forall x :: x in r <==> x in items && forall l | l in lines :: l.orderItemId != x.id
  {
    if items == [] then []
    else
      var init := Unbilled(items[..|items| - 1], lines);
      if exists l | l in lines :: l.orderItemId == items[|items| - 1].id then init else init + [items[|items| - 1]]
  }

  function Concatenated(xs: seq<Split>, ys: seq<Split>): (lines: seq<seq<Line>>)
    ensures |lines| == |xs|
    ensures forall i | 0 <= i < |xs| :: lines[i] == xs[i].lines + if i < |ys| then ys[i].lines else []
  {
    seq(|xs|, i requires 0 <= i < |xs| => xs[i].lines + if i < |ys| then ys[i].lines else [])
  }

  /** The bill of the destination session after a transfer: its own lines and the source's stay in their
      splits, and every item that is not billed yet joins split A. */
  function TransferredBill(bill: Bill, source: Option<Bill>, items: seq<OrderItem>, firstId: nat): Result<Bill>
    requires |bill.splits| > 0
  {
    var joined := Concatenated(bill.splits, if source.Some? then source.value.splits else []);
    var added := CalculateLines(Unbilled(items, Lines(WithLines(bill.splits, joined))), firstId);
    Reprice(bill.(splits := WithLines(bill.splits, joined[0 := joined[0] + added])))
  }

  function Emptied(bill: Bill): Result<Bill> {
    var bare :- Reprice(bill.(splits := WithLines(bill.splits, seq(|bill.splits|, i => []))));
    Ok(bare.(state := VoidBill))
  }

  /******* Operations on the stored bills *******/

  datatype Action =
    | Generate(session: string, billId: string, items: seq<seq<OrderItem>>, firstIds: seq<nat>, pricing: Pricing)
    | AssignItems(session: string, items: seq<seq<OrderItem>>, firstIds: seq<nat>)
    | MergeBillSplits(session: string, target: nat)
    | SetTaxMode(session: string, taxable: bool, taxRate: int)
    | SetCharges(session: string, includeTax: bool, includeServiceCharge: bool)
    | ApplyPromotions(session: string, promotions: seq<Promotion>)
    | RemoveVoidedItem(session: string, orderItemId: string)
    | Pay(session: string, splitLabel: nat, amount: real, cash: bool, terminalOk: bool, id: string, createDebt: bool)
    | RefundSplit(session: string, splitLabel: nat, paymentId: string, amount: real, hasReason: bool, terminalOk: bool, id: string)
    | VoidSplitPayment(session: string, splitLabel: nat, paymentId: string, hasReason: bool, terminalOk: bool, id: string)
    | VoidTheBill(session: string, hasReason: bool)
    | Transfer(source: string, destination: string, newBillId: string, sessionItems: seq<OrderItem>, firstId: nat)

  /** What the action makes of the bill it is about. */
  function OnBill(bill: Bill, a: Action): Result<Bill>
    requires !a.Generate? && !a.Transfer?
  {
    match a
    case AssignItems(_, items, firstIds) => UpdateSplitItems(bill, items, firstIds)
    case MergeBillSplits(_, target) => MergeSplits(bill, target)
    case SetTaxMode(_, taxable, taxRate) => ChangePricing(bill, bill.pricing.(taxable := taxable, taxRate := taxRate), true)
    case SetCharges(_, tax, service) => ChangePricing(bill, bill.pricing.(taxable := tax, serviceChargeEnabled := service), true)
    case ApplyPromotions(_, promotions) => ChangePricing(bill, bill.pricing.(promotions := promotions), false)
    case RemoveVoidedItem(_, orderItemId) => RemoveItem(bill, orderItemId)
    case Pay(_, splitLabel, amount, cash, terminalOk, id, createDebt) => RecordPayment(bill, splitLabel, amount, cash, terminalOk, id, createDebt)
    case RefundSplit(_, splitLabel, paymentId, amount, hasReason, terminalOk, id) => RefundPayment(bill, splitLabel, paymentId, amount, hasReason, terminalOk, id)
    case VoidSplitPayment(_, splitLabel, paymentId, hasReason, terminalOk, id) => VoidPayment(bill, splitLabel, paymentId, hasReason, terminalOk, id)
    case VoidTheBill(_, hasReason) => VoidWholeBill(bill, hasReason)
  }

  function TransferBills(bills: Bills, source: string, destination: string, billId: string, items: seq<OrderItem>, firstId: nat): Result<Bills> {
    if source == destination then Err("Choose a different destination table.")
    else if (source in bills && !Editable(bills[source])) || (destination in bills && !Editable(bills[destination]))
    then Err("Cannot change a bill after payment or debt settlement.")
    else if source !in bills && destination !in bills then Ok(bills)
    else
      var base := (if destination in bills then bills[destination] else bills[source].(id := billId)).(sessionId := destination);
      if base.splits == [] then Err("split A is undefined")
      else
        var joining := if source in bills && destination in bills then Some(bills[source]) else None;
        var bill :- TransferredBill(base, joining, items, firstId);
        if source !in bills then Ok(bills[destination := bill])
        else
          var empty :- Emptied(bills[source]);
          Ok(bills[destination := bill][source := empty])
  }

  function Perform(bills: Bills, a: Action): Result<Bills> {
    match a
    case Generate(session, billId, items, firstIds, pricing) =>
      if session in bills then Err("Bill already exists for table session.")
      else
        var bill :- GenerateBill(billId, session, items, firstIds, pricing);
        Ok(bills[session := bill])
    case Transfer(source, destination, billId, items, firstId) => TransferBills(bills, source, destination, billId, items, firstId)
    case _ =>
      if a.session !in bills then (if a.RemoveVoidedItem? then Ok(bills) else Err("Bill not found for table session."))
      else
        var bill :- OnBill(bills[a.session], a);
        Ok(bills[a.session := bill])
  }

  /** A failing operation is rolled back. */
  function Next(bills: Bills, a: Action): Bills {
    match Perform(bills, a)
    case Ok(after) => after
    case Err(_) => bills
  }

  function Run(bills: Bills, actions: seq<Action>): Bills {
    if actions == [] then bills else Next(Run(bills, actions[..|actions| - 1]), actions[|actions| - 1])
  }

  /******* What every operation keeps *******/

  ghost predicate BillInv(bill: Bill) {
    && |bill.splits| == LABELS && ValidPricing(bill.pricing)
    && (forall s | s in bill.splits :: SplitInv(s))
    && (bill.state.VoidBill? || Reprice(bill) == Ok(bill))
  }

  ghost predicate SplitInv(s: Split) {
    Balanced(s.payments) && s.amountPaid == AmountPaid(s.payments) && s.unpaidBalance == Positive(s.totalDue - s.amountPaid)
  }

  ghost predicate Inv(bills: Bills) {
    forall s | s in bills :: BillInv(bills[s]) && bills[s].sessionId == s
  }

  /** A new payment gets an id that no payment of the split has. */
  ghost predicate Fresh(bills: Bills, a: Action) {
    a.Pay? && a.session in bills && a.splitLabel < |bills[a.session].splits| ==>
      forall p | p in bills[a.session].splits[a.splitLabel].payments :: !IsPayment(p, a.id)
  }

  /** Pricing changes neither lines nor payments, and leaves a bill that satisfies the invariant. */
  lemma RepriceKeeps(bill: Bill)
    requires Reprice(bill).Ok?
    ensures var priced := Reprice(bill).value;
            && priced.sessionId == bill.sessionId && priced.pricing == bill.pricing && |priced.splits| == |bill.splits|
            && (forall i | 0 <= i < |bill.splits| :: Kept(bill.splits[i], priced.splits[i]))
            && Reprice(priced) == Ok(priced)
  {
    hide PriceSplit, Allocate, Tally, Merge;
    RepriceIdempotent(bill);
    forall i | 0 <= i < |bill.splits| ensures Kept(bill.splits[i], Reprice(bill).value.splits[i]) {
      PricedSplitKept(bill.splits, bill.pricing, i);
    }
  }

  ghost predicate Kept(before: Split, after: Split) {
    && after.lines == before.lines && after.payments == before.payments && after.amountPaid == AmountPaid(after.payments)
    && after.unpaidBalance == Positive(after.totalDue - after.amountPaid)
  }

  lemma PricedSplitKept(splits: seq<Split>, pricing: Pricing, i: nat)
    requires PriceSplits(splits, pricing).Ok? && i < |splits|
    ensures Kept(splits[i], PriceSplits(splits, pricing).value[i])
  {
    hide Allocate, Tally, PromotionAmounts, AmountPaid;
  }

  lemma RepricedInv(bill: Bill)
    requires Reprice(bill).Ok? && |bill.splits| == LABELS && ValidPricing(bill.pricing)
    requires forall s | s in bill.splits :: Balanced(s.payments)
    ensures BillInv(Reprice(bill).value)
  {
    hide Reprice, Balanced, AmountPaid, ValidPricing;
    RepriceKeeps(bill);
    var priced := Reprice(bill).value;
    forall s | s in priced.splits ensures SplitInv(s) {
      var i :| 0 <= i < |priced.splits| && priced.splits[i] == s;
      assert Kept(bill.splits[i], s) && Balanced(bill.splits[i].payments);
    }
  }

  lemma PaymentsReplaced(bill: Bill, splitLabel: nat, ps: seq<PaymentRecord>)
    requires BillInv(bill) && splitLabel < |bill.splits| && Balanced(ps) && Reprice(WithPayments(bill, splitLabel, ps)).Ok?
    ensures BillInv(Reprice(WithPayments(bill, splitLabel, ps)).value)
    ensures Reprice(WithPayments(bill, splitLabel, ps)).value.splits[splitLabel].amountPaid == AmountPaid(ps)
    ensures SameLines(bill, Reprice(WithPayments(bill, splitLabel, ps)).value)
  {
    hide Balanced, AmountPaid, Reprice;
    var changed := WithPayments(bill, splitLabel, ps);
    forall s | s in changed.splits ensures Balanced(s.payments) {
      var i :| 0 <= i < |changed.splits| && changed.splits[i] == s;
      assert SplitInv(bill.splits[i]);
    }
    RepricedInv(changed);
    RepriceKeeps(changed);
    assert Kept(changed.splits[splitLabel], Reprice(changed).value.splits[splitLabel]);
  }

  /** The same lines in the same splits. */
  predicate SameLines(x: Bill, y: Bill) {
    |x.splits| == |y.splits| && forall i | 0 <= i < |x.splits| :: x.splits[i].lines == y.splits[i].lines
  }

  /** A payment raises what is paid by its rounded amount; no line changes. */
  lemma RecordPaymentEffect(bill: Bill, splitLabel: nat, amount: real, cash: bool, terminalOk: bool, id: string, createDebt: bool)
    requires BillInv(bill) && RecordPayment(bill, splitLabel, amount, cash, terminalOk, id, createDebt).Ok?
    requires splitLabel < |bill.splits| ==> forall p | p in bill.splits[splitLabel].payments :: !IsPayment(p, id)
    ensures var after := RecordPayment(bill, splitLabel, amount, cash, terminalOk, id, createDebt).value;
            && BillInv(after) && SameLines(bill, after) && splitLabel < LABELS && after.sessionId == bill.sessionId
            && after.splits[splitLabel].payments != [] && HasPayments(after)
            && after.splits[splitLabel].amountPaid == bill.splits[splitLabel].amountPaid + Round(amount)
            && (createDebt && after.splits[splitLabel].unpaidBalance > 0 ==> after.splits[splitLabel].state.Debt? || after.splits[splitLabel].totalDue == 0)
  {
    hide Balanced, AmountPaid, Reprice, Round;
    var ps := bill.splits[splitLabel].payments;
    var payment := PaymentRecord(id, Round(amount), Payment, Captured, None, cash);
    assert SplitInv(bill.splits[splitLabel]);
    RoundBounds(amount, 0);
    PaymentBalances(ps, payment);
    AmountPaidAppend(ps, payment);
    PaymentsReplaced(bill, splitLabel, ps + [payment]);
    var paid := Reprice(WithPayments(bill, splitLabel, ps + [payment])).value;
    RepriceKeeps(WithPayments(bill, splitLabel, ps + [payment]));
    assert paid.splits[splitLabel].payments == ps + [payment];
    if createDebt && paid.splits[splitLabel].unpaidBalance > 0 {
      var indebted := paid.(splits := paid.splits[splitLabel := paid.splits[splitLabel].(state := Debt)]);
      forall s | s in indebted.splits ensures Balanced(s.payments) {
        var i :| 0 <= i < |indebted.splits| && indebted.splits[i] == s;
        assert SplitInv(paid.splits[i]);
      }
      RepricedInv(indebted);
      RepriceKeeps(indebted);
      assert Kept(indebted.splits[splitLabel], Reprice(indebted).value.splits[splitLabel]);
      DebtStays(indebted, splitLabel);
    }
  }

  lemma DebtStays(bill: Bill, splitLabel: nat)
    requires splitLabel < |bill.splits| && bill.splits[splitLabel].state.Debt? && Reprice(bill).Ok?
    ensures var s := Reprice(bill).value.splits[splitLabel]; s.unpaidBalance > 0 ==> s.state.Debt? || s.totalDue == 0
  {
    hide Allocate, Tally, PromotionAmounts, AmountPaid, BillState, Merge;
  }

  /** A refund lowers what is paid by its rounded amount, which is at most what was left of the payment. */
  lemma RefundPaymentEffect(bill: Bill, splitLabel: nat, paymentId: string, amount: real, hasReason: bool, terminalOk: bool, id: string)
    requires BillInv(bill) && RefundPayment(bill, splitLabel, paymentId, amount, hasReason, terminalOk, id).Ok?
    ensures var after := RefundPayment(bill, splitLabel, paymentId, amount, hasReason, terminalOk, id).value;
            && BillInv(after) && SameLines(bill, after) && splitLabel < LABELS && after.sessionId == bill.sessionId
            && after.splits[splitLabel].payments != [] && HasPayments(after)
            && after.splits[splitLabel].amountPaid == bill.splits[splitLabel].amountPaid - Round(amount)
            && 0 <= Round(amount) <= bill.splits[splitLabel].amountPaid
  {
    hide Balanced, AmountPaid, Reprice, Round;
    var ps := bill.splits[splitLabel].payments;
    var i := FindPayment(ps, paymentId).value;
    var refund := PaymentRecord(id, Round(amount), Refund, PaymentStatus.Refunded, Some(ps[i].id), ps[i].cash);
    assert SplitInv(bill.splits[splitLabel]);
    RoundBounds(amount, 0);
    StatusOfPayment(ps, i);
    RefundBalances(ps, i, refund);
    AmountPaidAppend(ps, refund);
    BalancedNonNegative(ps + [refund]);
    PaymentsReplaced(bill, splitLabel, ps + [refund]);
    RepriceKeeps(WithPayments(bill, splitLabel, ps + [refund]));
    assert Kept(WithPayments(bill, splitLabel, ps + [refund]).splits[splitLabel],
                Reprice(WithPayments(bill, splitLabel, ps + [refund])).value.splits[splitLabel]);
  }

  lemma StatusOfPayment(ps: seq<PaymentRecord>, i: nat)
    requires Balanced(ps) && i < |ps| && ps[i].paymentType.Payment?
    ensures ps[i].status.Captured? || ps[i].status.Voided?
    ensures Refundable(ps, ps[i]) == Residual(ps[i], ps)
    ensures ps[i].amount >= 0
  {}

  /** A void takes back the whole payment. */
  lemma VoidPaymentEffect(bill: Bill, splitLabel: nat, paymentId: string, hasReason: bool, terminalOk: bool, id: string)
    requires BillInv(bill) && VoidPayment(bill, splitLabel, paymentId, hasReason, terminalOk, id).Ok?
    ensures var after := VoidPayment(bill, splitLabel, paymentId, hasReason, terminalOk, id).value;
            && BillInv(after) && SameLines(bill, after) && splitLabel < LABELS && after.sessionId == bill.sessionId
            && after.splits[splitLabel].payments != [] && HasPayments(after)
            && var found := FindPayment(bill.splits[splitLabel].payments, paymentId);
            && found.Some?
            && after.splits[splitLabel].amountPaid == bill.splits[splitLabel].amountPaid - bill.splits[splitLabel].payments[found.value].amount
  {
    hide Balanced, AmountPaid, Reprice, RefundTotal;
    var ps := bill.splits[splitLabel].payments;
    var i := FindPayment(ps, paymentId).value;
    var reversal := PaymentRecord(id, ps[i].amount, Reversal, Voided, Some(ps[i].id), ps[i].cash);
    var voided := ps[i := ps[i].(status := Voided)];
    assert SplitInv(bill.splits[splitLabel]);
    StatusOfPayment(ps, i);
    VoidBalances(ps, i, reversal);
    AmountPaidAppend(voided, reversal);
    AmountPaidVoid(ps, i);
    PaymentsReplaced(bill, splitLabel, voided + [reversal]);
    RepriceKeeps(WithPayments(bill, splitLabel, voided + [reversal]));
    assert Kept(WithPayments(bill, splitLabel, voided + [reversal]).splits[splitLabel],
                Reprice(WithPayments(bill, splitLabel, voided + [reversal])).value.splits[splitLabel]);
  }

  predicate HasPayments(bill: Bill) {
    exists s | s in bill.splits :: s.payments != []
  }

  lemma LinesReplaced(bill: Bill, lines: seq<seq<Line>>)
    requires BillInv(bill) && |lines| == |bill.splits| && Reprice(bill.(splits := WithLines(bill.splits, lines))).Ok?
    ensures BillInv(Reprice(bill.(splits := WithLines(bill.splits, lines))).value)
    ensures Reprice(bill.(splits := WithLines(bill.splits, lines))).value.sessionId == bill.sessionId
  {
    hide Balanced, Reprice;
    var changed := bill.(splits := WithLines(bill.splits, lines));
    forall s | s in changed.splits ensures Balanced(s.payments) {
      var i :| 0 <= i < |changed.splits| && changed.splits[i] == s;
      assert SplitInv(bill.splits[i]);
    }
    RepricedInv(changed);
    RepriceKeeps(changed);
  }

  lemma PricingReplaced(bill: Bill, pricing: Pricing)
    requires BillInv(bill) && ValidPricing(pricing) && Reprice(bill.(pricing := pricing)).Ok?
    ensures BillInv(Reprice(bill.(pricing := pricing)).value)
    ensures Reprice(bill.(pricing := pricing)).value.sessionId == bill.sessionId
    ensures SameLines(bill, Reprice(bill.(pricing := pricing)).value)
    ensures HasPayments(bill) ==> HasPayments(Reprice(bill.(pricing := pricing)).value)
  {
    hide Balanced, Reprice;
    var changed := bill.(pricing := pricing);
    forall s | s in changed.splits ensures Balanced(s.payments) {
      assert SplitInv(s);
    }
    RepricedInv(changed);
    RepriceKeeps(changed);
    if s :| s in bill.splits && s.payments != [] {
      var i :| 0 <= i < |bill.splits| && bill.splits[i] == s;
      assert Kept(bill.splits[i], Reprice(changed).value.splits[i]);
      assert Reprice(changed).value.splits[i] in Reprice(changed).value.splits;
    }
  }

  lemma WaivedInv(bill: Bill)
    requires BillInv(bill) && VoidWholeBill(bill, true).Ok?
    ensures var after := VoidWholeBill(bill, true).value;
            BillInv(after) && SameLines(bill, after) && (HasPayments(bill) ==> HasPayments(after)) && after.sessionId == bill.sessionId
  {
    hide Balanced, Reprice, AmountPaid;
    var after := VoidWholeBill(bill, true).value;
    forall s | s in after.splits ensures SplitInv(s) {
      var i :| 0 <= i < |after.splits| && after.splits[i] == s;
      assert SplitInv(bill.splits[i]);
      BalancedNonNegative(bill.splits[i].payments);
    }
    if s :| s in bill.splits && s.payments != [] {
      var i :| 0 <= i < |bill.splits| && bill.splits[i] == s;
      assert after.splits[i] in after.splits;
    }
  }

  lemma MoneyKeeps(bill: Bill, a: Action)
    requires (a.Pay? || a.RefundSplit? || a.VoidSplitPayment? || a.VoidTheBill?) && BillInv(bill) && OnBill(bill, a).Ok?
    requires a.Pay? && a.splitLabel < |bill.splits| ==> forall p | p in bill.splits[a.splitLabel].payments :: !IsPayment(p, a.id)
    ensures BillInv(OnBill(bill, a).value) && OnBill(bill, a).value.sessionId == bill.sessionId
    ensures HasPayments(bill) ==> HasPayments(OnBill(bill, a).value) && SameLines(bill, OnBill(bill, a).value)
  {
    hide BillInv, Reprice, SplitInv, RecordPayment, RefundPayment, VoidPayment, VoidWholeBill, Kept, WithLines;
    hide HasPayments, Editable, SplitsEditable, SameLines, ValidPricing;
    match a
    case Pay(_, splitLabel, amount, cash, terminalOk, id, createDebt) =>
      RecordPaymentEffect(bill, splitLabel, amount, cash, terminalOk, id, createDebt);
    case RefundSplit(_, splitLabel, paymentId, amount, hasReason, terminalOk, id) =>
      RefundPaymentEffect(bill, splitLabel, paymentId, amount, hasReason, terminalOk, id);
    case VoidSplitPayment(_, splitLabel, paymentId, hasReason, terminalOk, id) =>
      VoidPaymentEffect(bill, splitLabel, paymentId, hasReason, terminalOk, id);
    case VoidTheBill(_, hasReason) => VoidReason(bill, hasReason); WaivedInv(bill);
  }

  lemma LinesKeep(bill: Bill, a: Action)
    requires (a.AssignItems? || a.MergeBillSplits? || a.RemoveVoidedItem?) && BillInv(bill) && OnBill(bill, a).Ok?
    ensures BillInv(OnBill(bill, a).value) && OnBill(bill, a).value.sessionId == bill.sessionId && !HasPayments(bill)
  {
    hide BillInv, Reprice, WithLines, CalculateLines, Gathered, Drop;
    EditableUnpaid(bill);
    hide HasPayments, Editable, SplitsEditable, SameLines;
    match a
    case AssignItems(_, items, firstIds) =>
      LinesReplaced(bill, seq(|items|, i requires 0 <= i < |items| => CalculateLines(items[i], firstIds[i])));
    case MergeBillSplits(_, target) => LinesReplaced(bill, Gathered(bill.splits, target));
    case RemoveVoidedItem(_, id) =>
      LinesReplaced(bill, seq(|bill.splits|, i requires 0 <= i < |bill.splits| => Drop(bill.splits[i].lines, id)));
  }

  lemma PricingKeeps(bill: Bill, a: Action)
    requires (a.SetTaxMode? || a.SetCharges? || a.ApplyPromotions?) && BillInv(bill) && OnBill(bill, a).Ok?
    ensures BillInv(OnBill(bill, a).value) && OnBill(bill, a).value.sessionId == bill.sessionId
    ensures HasPayments(bill) ==> HasPayments(OnBill(bill, a).value) && SameLines(bill, OnBill(bill, a).value)
  {
    hide BillInv, Reprice, HasPayments, Editable, SameLines, ValidPricing;
    match a
    case SetTaxMode(_, taxable, taxRate) => PricingReplaced(bill, bill.pricing.(taxable := taxable, taxRate := taxRate));
    case SetCharges(_, tax, service) => PricingReplaced(bill, bill.pricing.(taxable := tax, serviceChargeEnabled := service));
    case ApplyPromotions(_, promotions) => PricingReplaced(bill, bill.pricing.(promotions := promotions));
  }

  /** Every operation on a stored bill keeps the invariant, and once the bill has payments it keeps them
      and leaves every line where it is. */
  lemma OnBillKeeps(bill: Bill, a: Action)
    requires !a.Generate? && !a.Transfer? && BillInv(bill) && OnBill(bill, a).Ok?
    requires a.Pay? && a.splitLabel < |bill.splits| ==> forall p | p in bill.splits[a.splitLabel].payments :: !IsPayment(p, a.id)
    ensures BillInv(OnBill(bill, a).value) && OnBill(bill, a).value.sessionId == bill.sessionId
    ensures HasPayments(bill) ==> HasPayments(OnBill(bill, a).value) && SameLines(bill, OnBill(bill, a).value)
  {
    hide BillInv, OnBill, HasPayments, SameLines;
    if a.AssignItems? || a.MergeBillSplits? || a.RemoveVoidedItem? {
      LinesKeep(bill, a);
    } else if a.SetTaxMode? || a.SetCharges? || a.ApplyPromotions? {
      PricingKeeps(bill, a);
    } else {
      MoneyKeeps(bill, a);
    }
  }

  lemma VoidReason(bill: Bill, hasReason: bool)
    ensures VoidWholeBill(bill, hasReason).Ok? ==> VoidWholeBill(bill, hasReason) == VoidWholeBill(bill, true)
  {}

  lemma GenerateInv(id: string, sessionId: string, items: seq<seq<OrderItem>>, firstIds: seq<nat>, pricing: Pricing)
    requires GenerateBill(id, sessionId, items, firstIds, pricing).Ok?
    ensures BillInv(GenerateBill(id, sessionId, items, firstIds, pricing).value)
    ensures GenerateBill(id, sessionId, items, firstIds, pricing).value.sessionId == sessionId
  {
    hide Reprice, Balanced, BillInv;
    BalancedEmpty();
    var lines := seq(LABELS, i requires 0 <= i < LABELS => CalculateLines(items[i], firstIds[i]));
    var bill := Bill(id, sessionId, WithLines([NEW_SPLIT, NEW_SPLIT, NEW_SPLIT], lines), pricing, Open, EMPTY);
    RepricedInv(bill);
    RepriceKeeps(bill);
  }

  lemma EmptiedInv(bill: Bill)
    requires BillInv(bill) && Emptied(bill).Ok?
    ensures BillInv(Emptied(bill).value) && Emptied(bill).value.sessionId == bill.sessionId
    ensures forall s | s in Emptied(bill).value.splits :: s.lines == []
  {
    hide Reprice, Balanced;
    var none := seq(|bill.splits|, i => []);
    LinesReplaced(bill, none);
    RepriceKeeps(bill.(splits := WithLines(bill.splits, none)));
    var bare := Reprice(bill.(splits := WithLines(bill.splits, none))).value;
    forall s | s in bare.splits ensures s.lines == [] {
      var i :| 0 <= i < |bare.splits| && bare.splits[i] == s;
      assert Kept(WithLines(bill.splits, none)[i], s);
    }
  }

  lemma TransferInv(bills: Bills, source: string, destination: string, billId: string, items: seq<OrderItem>, firstId: nat)
    requires Inv(bills) && TransferBills(bills, source, destination, billId, items, firstId).Ok?
    ensures Inv(TransferBills(bills, source, destination, billId, items, firstId).value)
  {
    hide Reprice, BillInv, Editable;
    if source in bills || destination in bills {
      var base := (if destination in bills then bills[destination] else bills[source].(id := billId)).(sessionId := destination);
      Renamed(if destination in bills then bills[destination] else bills[source], base.id, destination);
      var joining := if source in bills && destination in bills then Some(bills[source]) else None;
      var joined := Concatenated(base.splits, if joining.Some? then joining.value.splits else []);
      var added := CalculateLines(Unbilled(items, Lines(WithLines(base.splits, joined))), firstId);
      LinesReplaced(base, joined[0 := joined[0] + added]);
      if source in bills {
        EmptiedInv(bills[source]);
      }
    }
  }

  lemma Renamed(bill: Bill, id: string, sessionId: string)
    requires BillInv(bill)
    ensures BillInv(bill.(id := id, sessionId := sessionId))
  {}

  lemma NextInv(bills: Bills, a: Action)
    requires Inv(bills) && Fresh(bills, a)
    ensures Inv(Next(bills, a))
  {
    hide BillInv, OnBill, GenerateBill, TransferBills;
    if Perform(bills, a).Ok? {
      match a
      case Generate(session, billId, items, firstIds, pricing) => GenerateInv(billId, session, items, firstIds, pricing);
      case Transfer(source, destination, billId, items, firstId) => TransferInv(bills, source, destination, billId, items, firstId);
      case _ =>
        if a.session in bills {
          OnBillKeeps(bills[a.session], a);
        }
    }
  }

  ghost predicate FreshRun(bills: Bills, actions: seq<Action>) {
    forall n | 0 <= n < |actions| :: Fresh(Run(bills, actions[..n]), actions[n])
  }

  lemma FreshPrefix(bills: Bills, actions: seq<Action>, n: nat)
    requires FreshRun(bills, actions) && n <= |actions|
    ensures FreshRun(bills, actions[..n])
  {
    forall k | 0 <= k < n ensures Fresh(Run(bills, actions[..n][..k]), actions[..n][k]) {
      assert actions[..n][..k] == actions[..k];
    }
  }

  /** After any run of operations from an empty store, every split's ledger balances. */
  lemma {:induction false} RunInv(actions: seq<Action>)
    requires FreshRun(map[], actions)
    ensures Inv(Run(map[], actions))
  {
    if actions != [] {
      var n := |actions| - 1;
      FreshPrefix(map[], actions, n);
      RunInv(actions[..n]);
      NextInv(Run(map[], actions[..n]), actions[n]);
    }
  }

  /** What a balanced ledger says about each split: what is paid is the sum of what is left of the
      payments, it is never negative, and the balance is what is due beyond it. No payment has both been
      voided and refunded, or been refunded by more than its amount. */
  lemma LedgerOfRun(actions: seq<Action>, session: string, splitLabel: nat)
    requires FreshRun(map[], actions) && session in Run(map[], actions) && splitLabel < LABELS
    ensures |Run(map[], actions)[session].splits| == LABELS
    ensures var split := Run(map[], actions)[session].splits[splitLabel];
            && split.amountPaid == Sum(Residuals(split.payments)) >= 0
            && split.unpaidBalance == Positive(split.totalDue - split.amountPaid)
            && forall p | p in split.payments && p.paymentType.Payment? ::
                 0 <= RefundTotal(split.payments, p.id) <= p.amount && (p.status.Voided? ==> RefundTotal(split.payments, p.id) == 0)
  {
    hide Run, FreshRun, Reprice;
    RunInv(actions);
    BalancedSplit(Run(map[], actions)[session], splitLabel);
  }

  lemma BalancedSplit(bill: Bill, splitLabel: nat)
    requires BillInv(bill) && splitLabel < LABELS
    ensures var split := bill.splits[splitLabel];
            && split.amountPaid == Sum(Residuals(split.payments)) >= 0
            && split.unpaidBalance == Positive(split.totalDue - split.amountPaid)
            && forall p | p in split.payments && p.paymentType.Payment? ::
                 0 <= RefundTotal(split.payments, p.id) <= p.amount && (p.status.Voided? ==> RefundTotal(split.payments, p.id) == 0)
  {
    hide Reprice, RefundTotal, Residuals, Sum;
    assert SplitInv(bill.splits[splitLabel]);
    BalancedNonNegative(bill.splits[splitLabel].payments);
  }

  /** What the state of a bill says, in every run: paid means that every split is settled, debt that some
      split is in debt and the others are settled or in debt, open that nothing is under way. */
  lemma StateOfRun(actions: seq<Action>, session: string)
    requires FreshRun(map[], actions) && session in Run(map[], actions) && !Run(map[], actions)[session].state.VoidBill?
    ensures var bill := Run(map[], actions)[session];
            && (bill.state.Paid? <==> forall s | s in bill.splits :: Settled(s))
            && (bill.state.Debt? <==> (exists s :: s in bill.splits && s.state.Debt?) && forall s | s in bill.splits :: s.state.Debt? || Settled(s))
            && (bill.state.Open? <==> (exists s :: s in bill.splits && !Settled(s)) && forall s | s in bill.splits :: !Underway(s))
  {
    hide Run, FreshRun, Reprice, AmountPaid, Settled, Underway;
    RunInv(actions);
    var bill := Run(map[], actions)[session];
    forall s | s in bill.splits ensures AmountPaid(s.payments) >= 0 {
      BalancedNonNegative(s.payments);
    }
    BillStateSumsUp(bill);
  }

  /** Billing one credit leaves a bill on which nothing is unpaid, and which is open. */
  lemma CreditStaysOpen(session: string, billId: string)
    ensures var bills := Run(map[], [Generate(session, billId, [[CREDIT], [], []], [0, 0, 0], UNTAXED)]);
            session in bills && bills[session].state.Open? && forall s | s in bills[session].splits :: s.unpaidBalance == 0
  {
    CreditBill(billId, session);
    OpenCreditBill(billId, session);
    hide GenerateBill, Reprice;
    var action := Generate(session, billId, [[CREDIT], [], []], [0, 0, 0], UNTAXED);
    assert [action][..0] == [];
  }

  lemma CreditBill(billId: string, session: string)
    ensures GenerateBill(billId, session, [[CREDIT], [], []], [0, 0, 0], UNTAXED) ==
            Reprice(Bill(billId, session, [CREDIT_SPLIT, NEW_SPLIT, NEW_SPLIT], UNTAXED, Open, EMPTY))
  {
    CreditSplits();
    hide CREDIT, CREDIT_SPLIT, NEW_SPLIT, Reprice, CalculateLine;
    var items, firstIds := [[CREDIT], [], []], [0, 0, 0];
    var lines := seq(LABELS, i requires 0 <= i < LABELS => CalculateLines(items[i], firstIds[i]));
    assert lines == [CREDIT_SPLIT.lines, [], []];
    assert WithLines([NEW_SPLIT, NEW_SPLIT, NEW_SPLIT], lines) == [CREDIT_SPLIT, NEW_SPLIT, NEW_SPLIT];
  }

  lemma OpenCreditBill(billId: string, session: string)
    ensures var r := Reprice(Bill(billId, session, [CREDIT_SPLIT, NEW_SPLIT, NEW_SPLIT], UNTAXED, Open, EMPTY));
            r.Ok? && r.value.state.Open? && forall s | s in r.value.splits :: s.unpaidBalance == 0
  {
    var splits := [CREDIT_SPLIT, NEW_SPLIT, NEW_SPLIT];
    UntaxedSplits(splits);
    UnpaidCredit();
    hide CREDIT_SPLIT, NEW_SPLIT, PriceSplit, PriceSplits, Merge, UNTAXED;
    var priced := PriceSplits(splits, UNTAXED).value;
    assert priced[0] == PriceSplit(CREDIT_SPLIT, 0, 0, 0) && priced[1] == priced[2] == PriceSplit(NEW_SPLIT, 0, 0, 0);
    assert priced[0] in priced;
  }

  lemma CreditSplits()
    ensures CalculateLines([CREDIT], 0) == CREDIT_SPLIT.lines
    ensures CalculateLines([], 0) == [] && NEW_SPLIT.(lines := CREDIT_SPLIT.lines) == CREDIT_SPLIT && NEW_SPLIT.(lines := []) == NEW_SPLIT
  {
    hide CREDIT, CalculateLine;
  }

  /******* Paid bills keep their lines *******/

  lemma PaidKeepsLines(bills: Bills, a: Action, session: string)
    requires Inv(bills) && Fresh(bills, a) && session in bills && HasPayments(bills[session])
    ensures session in Next(bills, a) && HasPayments(Next(bills, a)[session]) && SameLines(bills[session], Next(bills, a)[session])
  {
    hide Inv, Fresh, BillInv, Next, HasPayments, SameLines;
    SameLinesReflexive(bills[session]);
    if OnOne(a) && a.session == session && OnBill(bills[session], a).Ok? {
      PaidOnBill(bills, a, session);
    } else {
      PaidUntouched(bills, a, session);
    }
  }

  /** The action is about one stored bill. */
  predicate OnOne(a: Action) {
    !a.Generate? && !a.Transfer?
  }

  lemma PaidOnBill(bills: Bills, a: Action, session: string)
    requires Inv(bills) && Fresh(bills, a) && session in bills && OnOne(a) && a.session == session && OnBill(bills[session], a).Ok?
    ensures session in Next(bills, a) && (HasPayments(bills[session]) ==> HasPayments(Next(bills, a)[session]) && SameLines(bills[session], Next(bills, a)[session]))
  {
    hide BillInv, HasPayments, SameLines, OnBill;
    OnBillKeeps(bills[session], a);
  }

  /** An operation that is not about the bill, or that fails, leaves it as it is; transfers fail on a bill
      with payments. */
  lemma PaidUntouched(bills: Bills, a: Action, session: string)
    requires session in bills && HasPayments(bills[session]) && (OnOne(a) && a.session == session ==> OnBill(bills[session], a).Err?)
    ensures session in Next(bills, a) && Next(bills, a)[session] == bills[session]
  {
    hide HasPayments, OnBill, GenerateBill, TransferBills;
    if a.Transfer? && Perform(bills, a).Ok? {
      EditableUnpaid(bills[session]);
      NotMoved(bills, a.source, a.destination, a.newBillId, a.sessionItems, a.firstId, session);
    }
  }

  lemma NotMoved(bills: Bills, source: string, destination: string, billId: string, items: seq<OrderItem>, firstId: nat, session: string)
    requires session in bills && !Editable(bills[session]) && TransferBills(bills, source, destination, billId, items, firstId).Ok?
    ensures var after := TransferBills(bills, source, destination, billId, items, firstId).value; session in after && after[session] == bills[session]
  {
    hide Editable, Emptied, TransferredBill;
  }

  lemma SameLinesReflexive(bill: Bill)
    ensures SameLines(bill, bill)
  {}

  lemma EditableUnpaid(bill: Bill)
    ensures HasPayments(bill) ==> !Editable(bill) && !SplitsEditable(bill)
  {}

  lemma SameLinesChain(a: Bill, b: Bill, c: Bill)
    requires SameLines(a, b) && SameLines(b, c)
    ensures SameLines(a, c)
  {}

  /** After its first payment, no operation ever changes a line of the bill or moves it between splits. */
  lemma {:induction false} LinesFrozen(actions: seq<Action>, n: nat, session: string)
    requires FreshRun(map[], actions) && n <= |actions|
    requires session in Run(map[], actions[..n]) && HasPayments(Run(map[], actions[..n])[session])
    ensures session in Run(map[], actions) && HasPayments(Run(map[], actions)[session])
    ensures SameLines(Run(map[], actions[..n])[session], Run(map[], actions)[session])
    decreases |actions|
  {
    hide Next, Inv, Fresh, HasPayments;
    if n == |actions| {
      assert actions[..n] == actions;
    } else {
      hide SameLines;
      var m := |actions| - 1;
      assert actions[..m][..n] == actions[..n];
      FreshPrefix(map[], actions, m);
      LinesFrozen(actions[..m], n, session);
      RunInv(actions[..m]);
      assert Fresh(Run(map[], actions[..m]), actions[m]);
      PaidKeepsLines(Run(map[], actions[..m]), actions[m], session);
      SameLinesChain(Run(map[], actions[..n])[session], Run(map[], actions[..m])[session], Run(map[], actions)[session]);
    }
  }

  /******* Merging splits *******/

  lemma {:induction false} GatheredLines(splits: seq<Split>, target: nat, lines: seq<Line>)
    requires forall i | 0 <= i < |splits| :: splits[i].lines == if i == target then lines else []
    ensures Lines(splits) == if target < |splits| then lines else []
  {
    if splits != [] {
      GatheredLines(splits[..|splits| - 1], target, lines);
    }
  }

  /** Merging the splits of a priced bill changes none of its totals, except that a charge no split could
      carry may find one, or lose it; without credit lines nothing changes at all. */
  lemma MergePreservesTotals(bill: Bill, target: nat)
    requires Reprice(bill) == Ok(bill)
    ensures MergeSplits(bill, target).Ok? <==> target < |bill.splits| && SplitsEditable(bill)
    ensures MergeSplits(bill, target).Ok? ==>
              (MergeSplits(bill, target).value.breakdown == bill.breakdown <==>
                 (Carries(bill.splits, bill.pricing) <==> Carries(WithLines(bill.splits, Gathered(bill.splits, target)), bill.pricing)))
    ensures MergeSplits(bill, target).Ok? && SoundSplits(bill.splits) ==> MergeSplits(bill, target).value.breakdown == bill.breakdown
  {
    hide PriceSplits, Merge, Carries, SoundSplits, SplitsEditable, BillState;
    if target < |bill.splits| {
      var merged := WithLines(bill.splits, Gathered(bill.splits, target));
      GatheredLines(merged, target, Lines(bill.splits));
      AssignmentIrrelevant(bill.splits, merged, bill.pricing);
      if SoundSplits(bill.splits) {
        SoundAssignment(bill.splits, merged, bill.pricing);
      }
    }
  }

  /******* The service *******/

  /** Repricing keeps lines and payments, brings every balance up to date and is done after one time. */
  method UpdateBillStateAndBreakdown(bill: Bill) returns (r: Result<Bill>)
    ensures r == Reprice(bill)
    ensures r.Ok? ==> |r.value.splits| == |bill.splits| && forall i | 0 <= i < |bill.splits| :: Kept(bill.splits[i], r.value.splits[i])
    ensures r.Ok? ==> Reprice(r.value) == r
  {
    hide PriceSplits, BillState, Merge, Kept;
    if Reprice(bill).Ok? {
      RepriceKeeps(bill);
    }
    var splits, shown := ApplyBillLevelPricing(bill.splits, bill.pricing);
    if splits.Err? {
      return Err(splits.message);
    }
    r := Ok(bill.(splits := splits.value, state := BillState(splits.value), breakdown := Merge(splits.value)));
  }

  /** The split has no payment of that id. */
  ghost predicate NewPayment(bill: Bill, splitLabel: nat, id: string) {
    splitLabel < |bill.splits| ==> forall p | p in bill.splits[splitLabel].payments :: !IsPayment(p, id)
  }

  /** The bills in memory. Every method reads a copy of a bill, changes the copy step by step and stores
      it at the end; an error leaves the store as it was. */
  class BillDesk {
    var bills: Bills

    constructor ()
      ensures bills == map[]
    {
      bills := map[];
    }

    /** A payment raises what is paid on its split by its amount, and the bill's ledger still balances. */
    method RecordSplitPayment(session: string, splitLabel: nat, amount: real, cash: bool, terminalOk: bool, id: string, createDebt: bool)
      returns (r: Result<Bill>)
      modifies this
      ensures r == if session in old(bills) then RecordPayment(old(bills)[session], splitLabel, amount, cash, terminalOk, id, createDebt)
                   else Err("Bill not found for table session.")
      ensures bills == if r.Ok? then old(bills)[session := r.value] else old(bills)
      ensures r.Ok? && BillInv(old(bills)[session]) && NewPayment(old(bills)[session], splitLabel, id) ==>
                && BillInv(r.value) && SameLines(old(bills)[session], r.value)
                && r.value.splits[splitLabel].amountPaid == old(bills)[session].splits[splitLabel].amountPaid + Round(amount)
    {
      hide Reprice, BillInv, Kept, Round;
      if session !in bills { return Err("Bill not found for table session."); }
      var bill := bills[session];
      if splitLabel >= |bill.splits| { return Err("Invalid split label. Use A, B, or C."); }
      if amount <= 0.0 { return Err("Payment amount must be greater than zero."); }
      if !cash && !terminalOk { return Err("Payment authorization declined."); }
      var split := bill.splits[splitLabel];
      split := split.(payments := split.payments + [PaymentRecord(id, Round(amount), Payment, Captured, None, cash)]);
      r := UpdateBillStateAndBreakdown(bill.(splits := bill.splits[splitLabel := split]));
      if r.Err? { return; }
      var paid := r.value;
      if createDebt && paid.splits[splitLabel].unpaidBalance > 0 {
        split := paid.splits[splitLabel].(state := Debt);
        r := UpdateBillStateAndBreakdown(paid.(splits := paid.splits[splitLabel := split]));
        if r.Err? { return; }
      }
      bills := bills[session := r.value];
      assert r == RecordPayment(bill, splitLabel, amount, cash, terminalOk, id, createDebt);
      hide RecordPayment;
      if BillInv(bill) && NewPayment(bill, splitLabel, id) {
        RecordPaymentEffect(bill, splitLabel, amount, cash, terminalOk, id, createDebt);
      }
    }

    /** A refund lowers what is paid on its split by its amount, which is at most what was paid. */
    method RefundSplitPayment(session: string, splitLabel: nat, paymentId: string, amount: real, hasReason: bool, terminalOk: bool, id: string)
      returns (r: Result<Bill>)
      modifies this
      ensures r == if session in old(bills) then RefundPayment(old(bills)[session], splitLabel, paymentId, amount, hasReason, terminalOk, id)
                   else Err("Bill not found for table session.")
      ensures bills == if r.Ok? then old(bills)[session := r.value] else old(bills)
      ensures r.Ok? && BillInv(old(bills)[session]) ==>
                && BillInv(r.value) && SameLines(old(bills)[session], r.value)
                && 0 <= r.value.splits[splitLabel].amountPaid == old(bills)[session].splits[splitLabel].amountPaid - Round(amount)
    {
      hide Reprice, BillInv, Kept, Round;
      if session !in bills { return Err("Bill not found for table session."); }
      var bill := bills[session];
      if amount <= 0.0 { return Err("Refund amount must be greater than zero."); }
      if !hasReason { return Err("A refund reason is required."); }
      if splitLabel >= |bill.splits| { return Err("split is undefined"); }
      var payments := bill.splits[splitLabel].payments;
      var found := FindPayment(payments, paymentId);
      if found.None? { return Err("Original payment not found for split."); }
      var original := payments[found.value];
      var alreadyReversed := if original.status.Voided? then original.amount else RefundTotal(payments, original.id);
      var refundable := original.amount - alreadyReversed;
      if Round(amount) > refundable { return Err("Refund amount exceeds remaining captured amount."); }
      if !original.cash && !terminalOk { return Err("Payment refund failed."); }
      payments := payments + [PaymentRecord(id, Round(amount), Refund, PaymentStatus.Refunded, Some(original.id), original.cash)];
      r := UpdateBillStateAndBreakdown(WithPayments(bill, splitLabel, payments));
      if r.Err? { return; }
      bills := bills[session := r.value];
      assert r == RefundPayment(bill, splitLabel, paymentId, amount, hasReason, terminalOk, id);
      hide RefundPayment;
      if BillInv(bill) {
        RefundPaymentEffect(bill, splitLabel, paymentId, amount, hasReason, terminalOk, id);
      }
    }

    /** A void takes the whole payment back from what is paid on its split. */
    method VoidSplitPayment(session: string, splitLabel: nat, paymentId: string, hasReason: bool, terminalOk: bool, id: string)
      returns (r: Result<Bill>)
      modifies this
      ensures r == if session in old(bills) then VoidPayment(old(bills)[session], splitLabel, paymentId, hasReason, terminalOk, id)
                   else Err("Bill not found for table session.")
      ensures bills == if r.Ok? then old(bills)[session := r.value] else old(bills)
      ensures r.Ok? && BillInv(old(bills)[session]) ==>
                && BillInv(r.value) && SameLines(old(bills)[session], r.value)
                && (exists p :: p in old(bills)[session].splits[splitLabel].payments && IsPayment(p, paymentId)
                      && r.value.splits[splitLabel].amountPaid == old(bills)[session].splits[splitLabel].amountPaid - p.amount)
    {
      hide Reprice, BillInv, Kept, RefundTotal;
      if session !in bills { return Err("Bill not found for table session."); }
      var bill := bills[session];
      if !hasReason { return Err("A void reason is required."); }
      if splitLabel >= |bill.splits| { return Err("split is undefined"); }
      var payments := bill.splits[splitLabel].payments;
      var found := FindPayment(payments, paymentId);
      if found.None? { return Err("Original payment not found for split."); }
      var original := payments[found.value];
      if RefundTotal(payments, original.id) > 0 { return Err("Refunded payments cannot be voided; refund the remaining amount instead."); }
      var alreadyReversed := exists p | p in payments :: p.paymentType.Reversal? && p.linkedPaymentId == Some(original.id);
      if alreadyReversed || original.status.Voided? { return Err("Payment has already been voided."); }
      if !original.cash && !terminalOk { return Err("Payment void failed."); }
      payments := payments[found.value := original.(status := Voided)];
      payments := payments + [PaymentRecord(id, original.amount, Reversal, Voided, Some(original.id), original.cash)];
      r := UpdateBillStateAndBreakdown(WithPayments(bill, splitLabel, payments));
      if r.Err? { return; }
      bills := bills[session := r.value];
      assert r == VoidPayment(bill, splitLabel, paymentId, hasReason, terminalOk, id);
      hide VoidPayment;
      if BillInv(bill) {
        VoidPaymentEffect(bill, splitLabel, paymentId, hasReason, terminalOk, id);
        assert original in bill.splits[splitLabel].payments && IsPayment(original, paymentId);
      }
    }

    method VoidBill(session: string, hasReason: bool) returns (r: Result<Bill>)
      modifies this
      ensures bills == Next(old(bills), VoidTheBill(session, hasReason))
      ensures r.Ok? <==> Perform(old(bills), VoidTheBill(session, hasReason)).Ok?
      ensures r.Ok? ==> session in bills && bills[session] == r.value
    {
      if session !in bills { return Err("Bill not found for table session."); }
      var bill := bills[session];
      if !hasReason { return Err("A void reason is required."); }
      if bill.state.Paid? { return Err("Paid bills cannot be voided."); }
      var splits := bill.splits;
      for i := 0 to |splits|
        invariant |splits| == |bill.splits|
        invariant forall k | 0 <= k < |splits| :: splits[k] == if k < i then Waived(bill.splits[k]) else bill.splits[k]
      {
        splits := splits[i := splits[i].(state := State.VoidBill, totalDue := 0, unpaidBalance := 0)];
      }
      assert splits == VoidWholeBill(bill, hasReason).value.splits;
      bill := bill.(splits := splits, state := State.VoidBill, pricing := bill.pricing.(promotions := []), breakdown := EMPTY);
      bills := bills[session := bill];
      r := Ok(bill);
    }

    method MergeBillSplits(session: string, target: nat) returns (r: Result<Bill>)
      modifies this
      ensures bills == Next(old(bills), Action.MergeBillSplits(session, target))
      ensures r.Ok? <==> Perform(old(bills), Action.MergeBillSplits(session, target)).Ok?
      ensures r.Ok? ==> session in bills && bills[session] == r.value
    {
      hide Reprice, UpdateSplitItems, ChangePricing, RemoveItem, RecordPayment, RefundPayment, VoidPayment, VoidWholeBill, GenerateBill, TransferBills;
      if session !in bills { return Err("Bill not found for table session."); }
      var bill := bills[session];
      if target >= |bill.splits| { return Err("Invalid target split label. Use A, B, or C."); }
      if !SplitsEditable(bill) { return Err("A split has payments and cannot be reassigned or merged."); }
      var merged := Lines(bill.splits);
      var splits := bill.splits;
      for i := 0 to |splits|
        invariant |splits| == |bill.splits|
        invariant forall k | 0 <= k < |splits| ::
          splits[k] == if k < i then bill.splits[k].(lines := if k == target then merged else []) else bill.splits[k]
      {
        splits := splits[i := splits[i].(lines := if i == target then merged else [])];
      }
      assert splits == WithLines(bill.splits, Gathered(bill.splits, target));
      r := UpdateBillStateAndBreakdown(bill.(splits := splits));
      if r.Ok? {
        bills := bills[session := r.value];
      }
    }

    method RemoveVoidedBillItem(session: string, orderItemId: string) returns (r: Result<()>)
      modifies this
      ensures bills == Next(old(bills), RemoveVoidedItem(session, orderItemId))
      ensures r.Ok? <==> Perform(old(bills), RemoveVoidedItem(session, orderItemId)).Ok?
    {
      hide Reprice, UpdateSplitItems, MergeSplits, ChangePricing, RecordPayment, RefundPayment, VoidPayment, VoidWholeBill, GenerateBill, TransferBills;
      if session !in bills { return Ok(()); }
      var bill := bills[session];
      if !Editable(bill) { return Err("Cannot change a bill after payment or debt settlement."); }
      var splits := bill.splits;
      for i := 0 to |splits|
        invariant |splits| == |bill.splits|
        invariant forall k | 0 <= k < |splits| ::
          splits[k] == if k < i then bill.splits[k].(lines := Drop(bill.splits[k].lines, orderItemId)) else bill.splits[k]
      {
        splits := splits[i := splits[i].(lines := Drop(splits[i].lines, orderItemId))];
      }
      assert splits == WithLines(bill.splits, seq(|bill.splits|, i requires 0 <= i < |bill.splits| => Drop(bill.splits[i].lines, orderItemId)));
      var priced := UpdateBillStateAndBreakdown(bill.(splits := splits));
      if priced.Err? { return Err(priced.message); }
      bills := bills[session := priced.value];
      r := Ok(());
    }

    /** transferUnpaidBill: the source's lines are pushed onto the same splits of the destination's bill,
        items without a line are pushed onto split A, and the source's bill is emptied. */
    method TransferUnpaidBill(source: string, destination: string, newBillId: string, items: seq<OrderItem>, firstId: nat)
      returns (r: Result<()>)
      requires source != destination
      requires forall s | s in bills :: |bills[s].splits| == LABELS
      modifies this
      ensures bills == Next(old(bills), Transfer(source, destination, newBillId, items, firstId))
      ensures r.Ok? <==> Perform(old(bills), Transfer(source, destination, newBillId, items, firstId)).Ok?
    {
      hide Reprice, Editable, Lines;
      if (source in bills && !Editable(bills[source])) || (destination in bills && !Editable(bills[destination])) {
        return Err("Cannot change a bill after payment or debt settlement.");
      }
      if source !in bills && destination !in bills { return Ok(()); }
      var bill := (if destination in bills then bills[destination] else bills[source].(id := newBillId)).(sessionId := destination);
      var joining := if source in bills && destination in bills then bills[source].splits else [];
      var splits := PushLines(bill.splits, joining);
      var unbilled := FindUnbilled(items, Lines(splits));
      var added := CalculateLines(unbilled, firstId);
      ghost var joined := Concatenated(bill.splits, joining);
      assert splits == WithLines(bill.splits, joined);
      splits := splits[0 := splits[0].(lines := splits[0].lines + added)];
      assert splits == WithLines(bill.splits, joined[0 := joined[0] + added]);
      var priced := UpdateBillStateAndBreakdown(bill.(splits := splits));
      if priced.Err? { return Err(priced.message); }
      if source in bills {
        var none := WithLines(bills[source].splits, seq(|bills[source].splits|, i => []));
        var empty := UpdateBillStateAndBreakdown(bills[source].(splits := none));
        if empty.Err? { return Err(empty.message); }
        bills := bills[destination := priced.value][source := empty.value.(state := State.VoidBill)];
      } else {
        bills := bills[destination := priced.value];
      }
      r := Ok(());
    }
  }

  method PushLines(onto: seq<Split>, more: seq<Split>) returns (splits: seq<Split>)
    ensures splits == WithLines(onto, Concatenated(onto, more))
  {
    splits := onto;
    for i := 0 to |splits|
      invariant |splits| == |onto|
      invariant forall k | 0 <= k < |splits| :: splits[k] == onto[k].(lines := if k < i then Concatenated(onto, more)[k] else onto[k].lines)
    {
      splits := splits[i := splits[i].(lines := splits[i].lines + if i < |more| then more[i].lines else [])];
    }
  }

  method FindUnbilled(items: seq<OrderItem>, lines: seq<Line>) returns (unbilled: seq<OrderItem>)
    ensures unbilled == Unbilled(items, lines)
  {
    unbilled := [];
    for i := 0 to |items|
      invariant unbilled == Unbilled(items[..i], lines)
    {
      assert items[..i + 1][..i] == items[..i];
      if forall l | l in lines :: l.orderItemId != items[i].id {
        unbilled := unbilled + [items[i]];
      }
    }
    assert items[..|items|] == items;
  }

}
