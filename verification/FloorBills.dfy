/** Which lines the operations of the payment ledger put on a bill and take off it. */
module FloorBills {
  import opened Results
  import opened BillPricing
  import opened PaymentLedger

  ghost predicate On(bill: Bill, l: Line) {
    exists s :: s in bill.splits && l in s.lines
  }

  lemma OnSplit(bill: Bill, i: nat, l: Line)
    requires i < |bill.splits| && l in bill.splits[i].lines
    ensures On(bill, l)
  {
    assert bill.splits[i] in bill.splits;
  }

  lemma SplitOf(bill: Bill, l: Line) returns (i: nat)
    requires On(bill, l)
    ensures i < |bill.splits| && l in bill.splits[i].lines
  {
    var s :| s in bill.splits && l in s.lines;
    var k :| 0 <= k < |bill.splits| && bill.splits[k] == s;
    i := k;
  }

  lemma SameOn(x: Bill, y: Bill)
    requires SameLines(x, y)
    ensures forall l :: On(x, l) <==> On(y, l)
  {
    forall l ensures On(x, l) <==> On(y, l) {
      if On(x, l) { var i := SplitOf(x, l); OnSplit(y, i, l); }
      if On(y, l) { var i := SplitOf(y, l); OnSplit(x, i, l); }
    }
  }

  lemma RepricedSame(bill: Bill)
    requires Reprice(bill).Ok?
    ensures SameLines(bill, Reprice(bill).value)
  {
    hide Reprice;
    RepriceKeeps(bill);
    forall i | 0 <= i < |bill.splits| ensures Reprice(bill).value.splits[i].lines == bill.splits[i].lines {
      assert Kept(bill.splits[i], Reprice(bill).value.splits[i]);
    }
  }

  /** The lines of a repriced bill are those it was given. */
  lemma GivenLines(bill: Bill, lines: seq<seq<Line>>)
    requires |lines| == |bill.splits| && Reprice(bill.(splits := WithLines(bill.splits, lines))).Ok?
    ensures var after := Reprice(bill.(splits := WithLines(bill.splits, lines))).value;
            |after.splits| == |lines| && forall i | 0 <= i < |lines| :: after.splits[i].lines == lines[i]
  {
    RepricedSame(bill.(splits := WithLines(bill.splits, lines)));
  }

  /** Assigning items is the only operation on a stored bill that brings lines; removing an item takes all
      its lines away. */
  lemma OnBillLines(bill: Bill, a: Action)
    requires !a.Generate? && !a.Transfer? && !a.AssignItems? && BillInv(bill) && OnBill(bill, a).Ok?
    requires a.Pay? && a.splitLabel < |bill.splits| ==> forall p | p in bill.splits[a.splitLabel].payments :: !IsPayment(p, a.id)
    ensures forall l | On(OnBill(bill, a).value, l) :: On(bill, l)
    ensures a.RemoveVoidedItem? ==> forall l | On(OnBill(bill, a).value, l) :: l.orderItemId != a.orderItemId
  {
    hide BillInv, Reprice, On, RecordPayment, RefundPayment, VoidPayment, SplitsEditable, Editable;
    var after := OnBill(bill, a).value;
    match a
    case MergeBillSplits(_, target) => MergedLines(bill, target);
    case RemoveVoidedItem(_, id) => RemovedLines(bill, id);
    case SetTaxMode(_, taxable, taxRate) => RepricedSame(bill.(pricing := bill.pricing.(taxable := taxable, taxRate := taxRate))); SameOn(bill, after);
    case SetCharges(_, tax, service) => RepricedSame(bill.(pricing := bill.pricing.(taxable := tax, serviceChargeEnabled := service))); SameOn(bill, after);
    case ApplyPromotions(_, promotions) => RepricedSame(bill.(pricing := bill.pricing.(promotions := promotions))); SameOn(bill, after);
    case Pay(_, splitLabel, amount, cash, terminalOk, id, createDebt) =>
      RecordPaymentEffect(bill, splitLabel, amount, cash, terminalOk, id, createDebt); SameOn(bill, after);
    case RefundSplit(_, splitLabel, paymentId, amount, hasReason, terminalOk, id) =>
      RefundPaymentEffect(bill, splitLabel, paymentId, amount, hasReason, terminalOk, id); SameOn(bill, after);
    case VoidSplitPayment(_, splitLabel, paymentId, hasReason, terminalOk, id) =>
      VoidPaymentEffect(bill, splitLabel, paymentId, hasReason, terminalOk, id); SameOn(bill, after);
    case VoidTheBill(_, hasReason) => SameOn(bill, after);
  }

  lemma MergedLines(bill: Bill, target: nat)
    requires MergeSplits(bill, target).Ok?
    ensures forall l | On(MergeSplits(bill, target).value, l) :: On(bill, l)
  {
    hide Reprice, SplitsEditable;
    GivenLines(bill, Gathered(bill.splits, target));
    forall l | On(MergeSplits(bill, target).value, l) ensures On(bill, l) {
      var i := SplitOf(MergeSplits(bill, target).value, l);
      LinesOfSplits(bill.splits);
      assert l in Lines(bill.splits);
    }
  }

  lemma RemovedLines(bill: Bill, id: string)
    requires RemoveItem(bill, id).Ok?
    ensures forall l | On(RemoveItem(bill, id).value, l) :: On(bill, l) && l.orderItemId != id
  {
    hide Reprice, Editable;
    var lines := seq(|bill.splits|, i requires 0 <= i < |bill.splits| => Drop(bill.splits[i].lines, id));
    GivenLines(bill, lines);
    forall l | On(RemoveItem(bill, id).value, l) ensures On(bill, l) && l.orderItemId != id {
      var i := SplitOf(RemoveItem(bill, id).value, l);
      assert l in lines[i];
      OnSplit(bill, i, l);
    }
  }

  /** A bill made from items has a line for an item's id only if the item is among them. */
  predicate Given(items: seq<seq<OrderItem>>, id: string) {
    exists xs, x | xs in items && x in xs :: x.id == id
  }

  lemma CalculatedLines(items: seq<seq<OrderItem>>, firstIds: seq<nat>, i: nat, l: Line)
    requires i < |items| && i < |firstIds| && l in CalculateLines(items[i], firstIds[i])
    ensures Given(items, l.orderItemId)
  {
    var lines := CalculateLines(items[i], firstIds[i]);
    var k :| 0 <= k < |lines| && lines[k] == l;
    assert items[i] in items && items[i][k] in items[i] && items[i][k].id == l.orderItemId;
  }

  lemma GeneratedLines(id: string, sessionId: string, items: seq<seq<OrderItem>>, firstIds: seq<nat>, pricing: Pricing)
    requires GenerateBill(id, sessionId, items, firstIds, pricing).Ok?
    ensures forall l | On(GenerateBill(id, sessionId, items, firstIds, pricing).value, l) :: Given(items, l.orderItemId)
  {
    hide Reprice, Given;
    var lines := seq(LABELS, i requires 0 <= i < LABELS => CalculateLines(items[i], firstIds[i]));
    GivenLines(Bill(id, sessionId, [NEW_SPLIT, NEW_SPLIT, NEW_SPLIT], pricing, Open, EMPTY), lines);
    var after := GenerateBill(id, sessionId, items, firstIds, pricing).value;
    forall l | On(after, l) ensures Given(items, l.orderItemId) {
      var i := SplitOf(after, l);
      CalculatedLines(items, firstIds, i, l);
    }
  }

  lemma AssignedLines(bill: Bill, items: seq<seq<OrderItem>>, firstIds: seq<nat>)
    requires UpdateSplitItems(bill, items, firstIds).Ok?
    ensures forall l | On(UpdateSplitItems(bill, items, firstIds).value, l) :: Given(items, l.orderItemId)
  {
    hide Reprice, Given, Editable, SplitsEditable;
    var lines := seq(|items|, i requires 0 <= i < |items| => CalculateLines(items[i], firstIds[i]));
    GivenLines(bill, lines);
    var after := UpdateSplitItems(bill, items, firstIds).value;
    forall l | On(after, l) ensures Given(items, l.orderItemId) {
      var i := SplitOf(after, l);
      CalculatedLines(items, firstIds, i, l);
    }
  }

  /******* Transfers *******/

  /** A transfer keeps every line of both bills in its split, after each other, adds one line for each item
      that had none, in order, to split A, and leaves the source without lines and void. */
  lemma TransferLines(bills: Bills, source: string, destination: string, billId: string, items: seq<OrderItem>, firstId: nat)
    requires Inv(bills) && TransferBills(bills, source, destination, billId, items, firstId).Ok? && (source in bills || destination in bills)
    ensures var after := TransferBills(bills, source, destination, billId, items, firstId).value;
            && source != destination && destination in after && |after[destination].splits| == LABELS && after.Keys == bills.Keys + {destination}
            && (forall i | 0 <= i < LABELS ::
                  after[destination].splits[i].lines == LinesAt(bills, destination, i) + LinesAt(bills, source, i) + (if i == 0 then AddedBy(bills, source, destination, items, firstId) else []))
            && (source in bills ==> after[source].state.VoidBill? && (forall s | s in after[source].splits :: s.lines == [])
                                    && Editable(bills[source]))
            && (destination in bills ==> Editable(bills[destination]))
            && forall k | k in bills && k != source && k != destination :: after[k] == bills[k]
  {
    hide Reprice, Editable, Lines, BillInv, TransferredBill;
    var base := if destination in bills then bills[destination] else bills[source].(id := billId);
    ThreeSplits(bills);
    var joining := if source in bills && destination in bills then Some(bills[source]) else None;
    TransferredLines(base.(sessionId := destination), joining, items, firstId);
    if source in bills {
      EmptiedInv(bills[source]);
      EmptiedVoid(bills[source]);
    }
    var joined := Joined(bills, source, destination);
    SameJoin(bills, source, destination, joined);
  }

  lemma ThreeSplits(bills: Bills)
    requires Inv(bills)
    ensures forall k | k in bills :: |bills[k].splits| == LABELS
  {
    hide Reprice;
  }

  lemma EmptiedVoid(bill: Bill)
    ensures Emptied(bill).Ok? ==> Emptied(bill).value.state.VoidBill?
  {
    hide Reprice;
  }

  function LinesAt(bills: Bills, session: string, i: nat): seq<Line> {
    if session in bills && i < |bills[session].splits| then bills[session].splits[i].lines else []
  }

  function Joined(bills: Bills, source: string, destination: string): (lines: seq<seq<Line>>)
    ensures |lines| == LABELS && forall i | 0 <= i < LABELS :: lines[i] == LinesAt(bills, destination, i) + LinesAt(bills, source, i)
  {
    seq(LABELS, i requires 0 <= i < LABELS => LinesAt(bills, destination, i) + LinesAt(bills, source, i))
  }

  function All(lines: seq<seq<Line>>): (r: seq<Line>)
    ensures forall l :: l in r <==> exists ls :: ls in lines && l in ls
  {
    if lines == [] then [] else All(lines[..|lines| - 1]) + lines[|lines| - 1]
  }

  /** The lines for the items that neither bill has. */
  function AddedBy(bills: Bills, source: string, destination: string, items: seq<OrderItem>, firstId: nat): seq<Line> {
    CalculateLines(Unbilled(items, All(Joined(bills, source, destination))), firstId)
  }

  lemma {:induction false} LinesAll(splits: seq<Split>, lines: seq<seq<Line>>)
    requires |splits| == |lines| && forall i | 0 <= i < |lines| :: splits[i].lines == lines[i]
    ensures Lines(splits) == All(lines)
  {
    if lines != [] {
      LinesAll(splits[..|splits| - 1], lines[..|lines| - 1]);
    }
  }

  lemma TransferredLines(bill: Bill, source: Option<Bill>, items: seq<OrderItem>, firstId: nat)
    requires |bill.splits| > 0 && TransferredBill(bill, source, items, firstId).Ok?
    ensures var after, joined := TransferredBill(bill, source, items, firstId).value, Concatenated(bill.splits, if source.Some? then source.value.splits else []);
            && |after.splits| == |bill.splits|
            && forall i | 0 <= i < |bill.splits| ::
                 after.splits[i].lines == joined[i] + if i == 0 then CalculateLines(Unbilled(items, All(joined)), firstId) else []
  {
    hide Reprice, Lines, All, Unbilled;
    var joined := Concatenated(bill.splits, if source.Some? then source.value.splits else []);
    LinesAll(WithLines(bill.splits, joined), joined);
    var added := CalculateLines(Unbilled(items, All(joined)), firstId);
    GivenLines(bill, joined[0 := joined[0] + added]);
    assert forall i | 0 < i < |bill.splits| :: joined[i] + [] == joined[i];
  }

  lemma SameJoin(bills: Bills, source: string, destination: string, joined: seq<seq<Line>>)
    requires (source in bills || destination in bills) && (forall k | k in bills :: |bills[k].splits| == LABELS)
    requires joined == Joined(bills, source, destination)
    ensures var base := (if destination in bills then bills[destination] else bills[source]).splits;
            Concatenated(base, if source in bills && destination in bills then bills[source].splits else []) == joined
  {
    var base := (if destination in bills then bills[destination] else bills[source]).splits;
    forall i | 0 <= i < LABELS
      ensures joined[i] == base[i].lines + if source in bills && destination in bills then bills[source].splits[i].lines else []
    {
      assert base[i].lines + [] == base[i].lines == [] + base[i].lines;
    }
  }

  /******* Counting lines *******/

  /** How many of the lines are for the item. */
  function LinesFor(lines: seq<Line>, itemId: string): nat {
    if lines == [] then 0
    else LinesFor(lines[..|lines| - 1], itemId) + if lines[|lines| - 1].orderItemId == itemId then 1 else 0
  }

  lemma LinesForAppend(lines: seq<Line>, l: Line, itemId: string)
    ensures LinesFor(lines + [l], itemId) == LinesFor(lines, itemId) + if l.orderItemId == itemId then 1 else 0
  {
    assert (lines + [l])[..|lines|] == lines;
  }

  lemma {:induction false} LinesForConcat(xs: seq<Line>, ys: seq<Line>, itemId: string)
    ensures LinesFor(xs + ys, itemId) == LinesFor(xs, itemId) + LinesFor(ys, itemId)
  {
    if ys == [] {
      assert xs + ys == xs;
    } else {
      LinesForConcat(xs, ys[..|ys| - 1], itemId);
      assert (xs + ys)[..|xs + ys| - 1] == xs + ys[..|ys| - 1];
    }
  }

  lemma {:induction false} LinesForNone(lines: seq<Line>, itemId: string)
    ensures LinesFor(lines, itemId) == 0 <==> forall l | l in lines :: l.orderItemId != itemId
  {
    if lines != [] {
      LinesForNone(lines[..|lines| - 1], itemId);
      assert lines == lines[..|lines| - 1] + [lines[|lines| - 1]];
    }
  }

  predicate DistinctItems(items: seq<OrderItem>) {
    forall i, j | 0 <= i < j < |items| :: items[i].id != items[j].id
  }

  lemma CalculateAppend(items: seq<OrderItem>, x: OrderItem, firstId: nat)
    ensures CalculateLines(items + [x], firstId) == CalculateLines(items, firstId) + [CalculateLine(x, firstId + |items|)]
  {
    hide CalculateLine;
  }

  /** Every item is billed exactly once: by the lines it had, or else by one new line. */
  lemma {:induction false} UnbilledOnce(items: seq<OrderItem>, lines: seq<Line>, firstId: nat, itemId: string)
    requires DistinctItems(items)
    ensures LinesFor(CalculateLines(Unbilled(items, lines), firstId), itemId)
            == if (exists x :: x in items && x.id == itemId) && LinesFor(lines, itemId) == 0 then 1 else 0
  {
    hide LinesFor, CalculateLines, CalculateLine;
    LinesForNone(lines, itemId);
    if items == [] {
      NoLinesFor(firstId, itemId);
    } else {
      var init, last := items[..|items| - 1], items[|items| - 1];
      UnbilledOnce(init, lines, firstId, itemId);
      var unbilled := Unbilled(init, lines);
      CalculateAppend(unbilled, last, firstId);
      CalculatedFor(last, firstId + |unbilled|);
      LinesForAppend(CalculateLines(unbilled, firstId), CalculateLine(last, firstId + |unbilled|), itemId);
      assert forall x :: x in items <==> x in init || x == last by { assert items == init + [last]; }
      assert last.id == itemId ==> forall x | x in init :: x.id != itemId;
    }
  }

  lemma NoLinesFor(firstId: nat, itemId: string)
    ensures LinesFor(CalculateLines([], firstId), itemId) == 0
  {}

  lemma CalculatedFor(item: OrderItem, id: nat)
    ensures CalculateLine(item, id).orderItemId == item.id
  {}

  /** How many lines a stored bill has for the item, on all its splits. */
  function CountAt(bills: Bills, session: string, itemId: string): nat {
    LinesFor(LinesAt(bills, session, 0), itemId) + LinesFor(LinesAt(bills, session, 1), itemId) + LinesFor(LinesAt(bills, session, 2), itemId)
  }

  lemma CountJoined(bills: Bills, source: string, destination: string, itemId: string)
    ensures LinesFor(All(Joined(bills, source, destination)), itemId) == CountAt(bills, destination, itemId) + CountAt(bills, source, itemId)
  {
    hide LinesFor, LinesAt;
    var j := Joined(bills, source, destination);
    AllOfThree(j);
    LinesForConcat(j[0] + j[1], j[2], itemId);
    LinesForConcat(j[0], j[1], itemId);
    forall i | 0 <= i < LABELS ensures LinesFor(j[i], itemId) == LinesFor(LinesAt(bills, destination, i), itemId) + LinesFor(LinesAt(bills, source, i), itemId) {
      LinesForConcat(LinesAt(bills, destination, i), LinesAt(bills, source, i), itemId);
    }
  }

  lemma AllOfThree(lines: seq<seq<Line>>)
    requires |lines| == 3
    ensures All(lines) == lines[0] + lines[1] + lines[2]
  {
    assert lines[..2][..1][..0] == [] && lines[..2][..1] == lines[..1] && lines[..1][..0] == [];
    assert All(lines[..0]) == [];
    assert All(lines[..1]) == [] + lines[0] == lines[0];
    assert All(lines[..2]) == lines[0] + lines[1];
  }

  /** After a transfer an item has on the destination the lines it had on both bills, or, if it had none
      and is among the items of the session, exactly one. */
  lemma TransferCounts(bills: Bills, source: string, destination: string, billId: string, items: seq<OrderItem>, firstId: nat, itemId: string)
    requires Inv(bills) && TransferBills(bills, source, destination, billId, items, firstId).Ok? && (source in bills || destination in bills)
    requires DistinctItems(items)
    ensures CountAt(TransferBills(bills, source, destination, billId, items, firstId).value, destination, itemId)
            == CountAt(bills, destination, itemId) + CountAt(bills, source, itemId)
               + if (exists x :: x in items && x.id == itemId) && CountAt(bills, destination, itemId) + CountAt(bills, source, itemId) == 0 then 1 else 0
  {
    hide LinesFor, Inv, TransferBills, All, Joined, Unbilled, CalculateLines, DistinctItems;
    TransferLines(bills, source, destination, billId, items, firstId);
    CountJoined(bills, source, destination, itemId);
    UnbilledOnce(items, All(Joined(bills, source, destination)), firstId, itemId);
    var after := TransferBills(bills, source, destination, billId, items, firstId).value;
    forall i | 0 <= i < LABELS
      ensures LinesFor(LinesAt(after, destination, i), itemId)
              == LinesFor(LinesAt(bills, destination, i), itemId) + LinesFor(LinesAt(bills, source, i), itemId)
                 + if i == 0 then LinesFor(AddedBy(bills, source, destination, items, firstId), itemId) else 0
    {
      var both := LinesAt(bills, destination, i) + LinesAt(bills, source, i);
      LinesForConcat(LinesAt(bills, destination, i), LinesAt(bills, source, i), itemId);
      if i == 0 {
        LinesForConcat(both, AddedBy(bills, source, destination, items, firstId), itemId);
      } else {
        assert both + [] == both;
      }
    }
  }
}
