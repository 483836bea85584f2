/** What the floor's operations charge: the lines a transfer adds, and what an accepted assignment covers
    (backend/tables/service.ts, backend/billing/service.ts). */
module FloorCharges {
  import opened Results
  import opened TableFloor
  import opened FloorSafety
  import A = Apportionment
  import B = BillPricing
  import E = BillAmounts
  import F = FloorBills
  import L = PaymentLedger
  import O = OrderBook

  /******* Transfers *******/

  /** The line charges the item as the order does: its quantity at its price, without discounts. */
  predicate Charges(l: B.Line, i: O.Item) {
    && l.orderItemId == i.id && l.quantity == i.quantity && l.unitPrice == i.unitPrice && l.gross == i.lineTotal
    && l.itemDiscount == l.comboDiscount == l.happyHourDiscount == l.lineDiscount == 0
  }

  lemma PlainLine(i: O.Item, id: nat)
    requires i.lineTotal == O.LineTotal(i.quantity, i.unitPrice)
    ensures Charges(B.CalculateLine(AsBillItem(i), id), i)
  {
    var item := AsBillItem(i);
    E.LineOf(item, id);
    SameRounding(i);
    assert B.CalculateLine(item, id).orderItemId == i.id;
    assert B.RequestedItemDiscount(item) == B.Requested(item.comboDiscount) == B.Requested(item.happyHourDiscount) == 0;
    NoDiscount(item, id);
  }

  lemma SameRounding(i: O.Item)
    ensures B.Gross(AsBillItem(i)) == O.LineTotal(i.quantity, i.unitPrice)
  {}

  lemma NoDiscount(item: B.OrderItem, id: nat)
    requires B.RequestedItemDiscount(item) == B.Requested(item.comboDiscount) == B.Requested(item.happyHourDiscount) == 0
    ensures var l := B.CalculateLine(item, id); l.itemDiscount == l.comboDiscount == l.happyHourDiscount == l.lineDiscount == 0
  {
    hide B.Gross, B.RequestedItemDiscount, B.Requested;
  }

  /** The item is on an order of one of the two sessions that is not cancelled. */
  ghost predicate LiveItem(s: State, id: string, target: string, i: O.Item) {
    exists k :: k in s.store.orders && !s.store.orders[k].status.Cancelled? && i in s.store.orders[k].items
                && (s.store.orders[k].session == Some(id) || s.store.orders[k].session == Some(target))
  }

  lemma MovedItem(s: State, id: string, target: string, i: O.Item)
    requires OrdersInv(s) && LiveItem(s, id, target, i)
    ensures AsBillItem(i) in MovedItems(s, id, target) && i.lineTotal == O.LineTotal(i.quantity, i.unitPrice)
  {
    hide O.LineTotal, O.Shows;
    var k :| k in s.store.orders && !s.store.orders[k].status.Cancelled? && i in s.store.orders[k].items
             && (s.store.orders[k].session == Some(id) || s.store.orders[k].session == Some(target));
    var orders := SessionOrders(s.store.orders, s.orderIds, {id, target});
    assert s.store.orders[k] in orders;
    assert i in LiveItems(orders);
    var n :| 0 <= n < |LiveItems(orders)| && LiveItems(orders)[n] == i;
    assert AsBillItems(LiveItems(orders))[n] == AsBillItem(i);
  }

  lemma NotJoined(bills: L.Bills, source: string, destination: string, itemId: string)
    requires F.CountAt(bills, destination, itemId) + F.CountAt(bills, source, itemId) == 0
    ensures forall l | l in F.All(F.Joined(bills, source, destination)) :: l.orderItemId != itemId
  {
    hide F.CountAt, F.All, F.Joined;
    F.CountJoined(bills, source, destination, itemId);
    F.LinesForNone(F.All(F.Joined(bills, source, destination)), itemId);
  }

  lemma LineAdded(bills: L.Bills, source: string, destination: string, items: seq<B.OrderItem>, firstId: nat, x: B.OrderItem) returns (id: nat)
    requires x in items && forall l | l in F.All(F.Joined(bills, source, destination)) :: l.orderItemId != x.id
    ensures B.CalculateLine(x, id) in F.AddedBy(bills, source, destination, items, firstId)
  {
    hide F.All, F.Joined, B.CalculateLine;
    var unbilled := L.Unbilled(items, F.All(F.Joined(bills, source, destination)));
    var k :| 0 <= k < |unbilled| && unbilled[k] == x;
    id := firstId + k;
    assert L.CalculateLines(unbilled, firstId)[k] == B.CalculateLine(x, id);
  }

  /** A transfer bills every live item of both sessions that had no line yet by a line in split A that charges
      it as its order does: in its quantity, at its price, for the order's total of it. */
  lemma MoveChargesOrders(s: State, id: string, table: string, merge: bool, newSession: string, newBill: string, firstLine: nat, i: O.Item)
    requires Inv(s) && newSession !in s.sessions && MoveSession(s, id, table, merge, newSession, newBill, firstLine).Ok?
    requires var target := Target(s, id, table, newSession);
             && (id in s.bills || target in s.bills) && LiveItem(s, id, target, i)
             && F.CountAt(s.bills, target, i.id) + F.CountAt(s.bills, id, i.id) == 0
    ensures var t, target := MoveSession(s, id, table, merge, newSession, newBill, firstLine).value, Target(s, id, table, newSession);
            target in t.bills && |t.bills[target].splits| == L.LABELS && exists l :: l in t.bills[target].splits[0].lines && Charges(l, i)
  {
    hide MoveSession, Target, SessionsInv, Listed, L.Inv, L.TransferBills, MovedItems, F.AddedBy, F.LinesAt, F.CountAt, LiveItem, Charges, B.CalculateLine, O.LineTotal;
    MoveShape(s, id, table, merge, newSession, newBill, firstLine);
    var t, target := MoveSession(s, id, table, merge, newSession, newBill, firstLine).value, Target(s, id, table, newSession);
    var items := MovedItems(s, id, target);
    Balances(s);
    MovedItem(s, id, target, i);
    NotJoined(s.bills, id, target, i.id);
    var lineId := LineAdded(s.bills, id, target, items, firstLine, AsBillItem(i));
    PlainLine(i, lineId);
    F.TransferLines(s.bills, id, target, newBill, items, firstLine);
    assert B.CalculateLine(AsBillItem(i), lineId) in t.bills[target].splits[0].lines;
  }

  /******* Assignments *******/

  /** All that is assigned of an item. */
  function Given(items: seq<B.OrderItem>, id: string): real {
    if items == [] then 0.0 else Given(items[..|items| - 1], id) + if items[|items| - 1].id == id then items[|items| - 1].quantity else 0.0
  }

  /** In how many parts. */
  function Parts(items: seq<B.OrderItem>, id: string): nat {
    if items == [] then 0 else Parts(items[..|items| - 1], id) + if items[|items| - 1].id == id then 1 else 0
  }

  lemma {:induction false} AssignedNear(items: seq<B.OrderItem>, id: string)
    ensures -0.5 * Parts(items, id) as real <= Assigned(items, id) as real - 100.0 * Given(items, id) <= 0.5 * Parts(items, id) as real
  {
    hide B.Round;
    if items != [] {
      var init, last := items[..|items| - 1], items[|items| - 1];
      AssignedNear(init, id);
      if last.id == id {
        B.RoundNearest(Assigned(init, id) as real + last.quantity * 100.0);
        assert Parts(items, id) == Parts(init, id) + 1;
      }
    }
  }

  /** A whole number of hundredths. */
  predicate Hundredths(x: real) {
    100.0 * x == (100.0 * x).Floor as real
  }

  lemma {:induction false} AssignedExactly(items: seq<B.OrderItem>, id: string)
    requires forall x | x in items && x.id == id :: Hundredths(x.quantity)
    ensures Assigned(items, id) as real == 100.0 * Given(items, id)
  {
    hide Hundredths, B.Round;
    if items != [] {
      var init, last := items[..|items| - 1], items[|items| - 1];
      assert last in items && forall x | x in init :: x in items;
      AssignedExactly(init, id);
      if last.id == id { RoundedHundredths(Assigned(init, id), last.quantity); }
    }
  }

  lemma RoundedHundredths(n: int, x: real)
    requires Hundredths(x)
    ensures B.Round(n as real + x * 100.0) as real == n as real + 100.0 * x
  {
    var k := (100.0 * x).Floor;
    assert n as real + x * 100.0 == (n + k) as real;
    Whole(n + k);
  }

  lemma Whole(n: int)
    ensures B.Round(n as real) == n
  {}

  /** The item is given out in the quantity ordered: exactly in whole hundredths, and otherwise to within half
      a hundredth for the order and for each part. */
  predicate Covered(given: seq<B.OrderItem>, i: O.Item) {
    var off := 100.0 * Given(given, i.id) - 100.0 * i.quantity;
    && -0.5 * (Parts(given, i.id) + 1) as real <= off <= 0.5 * (Parts(given, i.id) + 1) as real
    && (Hundredths(i.quantity) && (forall x | x in given && x.id == i.id :: Hundredths(x.quantity)) ==> Given(given, i.id) == i.quantity)
  }

  lemma CoveredOne(given: seq<B.OrderItem>, i: O.Item)
    requires Assigned(given, i.id) == B.Round(i.quantity * 100.0)
    ensures Covered(given, i)
  {
    AssignedNear(given, i.id);
    B.RoundNearest(i.quantity * 100.0);
    hide B.Round, Hundredths, Given, Parts, Assigned;
    if Hundredths(i.quantity) && forall x | x in given && x.id == i.id :: Hundredths(x.quantity) {
      AssignedExactly(given, i.id);
      RoundedHundredths(0, i.quantity);
    }
  }

  /** An accepted assignment of a session with orders is for live items only, at their prices, and gives each
      live item out in its ordered quantity. */
  lemma AssignmentCovers(s: State, session: string, items: seq<seq<B.OrderItem>>)
    requires AssignmentAccepted(s, session, items) && SessionOrders(s.store.orders, s.orderIds, {session}) != []
    ensures var live, given := LiveItems(SessionOrders(s.store.orders, s.orderIds, {session})), Flat(items);
            && (forall x | x in given :: x.quantity > 0.0 && exists i :: i in live && i.id == x.id && i.unitPrice == x.unitPrice)
            && (forall i | i in live :: Covered(given, i) && exists x :: x in given && x.id == i.id)
  {
    hide LiveItems, SessionOrders, Flat, Covered, B.Round, Assigned;
    var live, given := LiveItems(SessionOrders(s.store.orders, s.orderIds, {session})), Flat(items);
    forall i | i in live ensures Covered(given, i) {
      CoveredOne(given, i);
    }
  }

  /** In whole hundredths, an assignment of a session with orders is accepted exactly if it is for live items
      only, in positive quantities at their prices, and gives out each live item in its ordered quantity. */
  lemma HundredthsAcceptedIff(s: State, session: string, items: seq<seq<B.OrderItem>>)
    requires SessionOrders(s.store.orders, s.orderIds, {session}) != []
    requires forall x | x in Flat(items) :: Hundredths(x.quantity)
    requires forall i | i in LiveItems(SessionOrders(s.store.orders, s.orderIds, {session})) :: Hundredths(i.quantity)
    ensures var live, given := LiveItems(SessionOrders(s.store.orders, s.orderIds, {session})), Flat(items);
            AssignmentAccepted(s, session, items) <==>
              && (forall x | x in given :: x.quantity > 0.0 && exists i :: i in live && i.id == x.id && i.unitPrice == x.unitPrice)
              && (forall i | i in live :: Given(given, i.id) == i.quantity && exists x :: x in given && x.id == i.id)
  {
    hide LiveItems, SessionOrders, Flat, B.Round, Assigned, Given, Hundredths;
    var live, given := LiveItems(SessionOrders(s.store.orders, s.orderIds, {session})), Flat(items);
    forall i | i in live ensures Assigned(given, i.id) == B.Round(i.quantity * 100.0) <==> Given(given, i.id) == i.quantity {
      AssignedExactly(given, i.id);
      RoundedHundredths(0, i.quantity);
    }
  }

}
