/** When the operations on the table floor succeed (backend/tables/service.ts, backend/orders/service.ts,
    backend/billing/service.ts). */
module FloorActions {
  import opened Results
  import opened TableFloor
  import opened FloorSafety
  import B = BillPricing
  import L = PaymentLedger
  import A = BillActions
  import E = OrderEdits
  import O = OrderBook

  /** The session is there and open. */
  predicate InUse(s: State, id: string) {
    id in s.sessions && s.sessions[id].open
  }

  /** A table can be given to guests. */
  predicate FreeTable(s: State, branch: string, table: string) {
    forall x | x in s.sessions :: !(s.sessions[x].open && s.sessions[x].branch == branch && s.sessions[x].table == table)
  }

  lemma Opens(s: State, id: string, table: string, branch: Option<string>, guests: int)
    ensures Perform(s, Open(id, table, branch, guests)) == OpenSession(s, id, table, branch, guests)
  {
    hide OpenSession;
  }

  lemma Closes(s: State, id: string)
    ensures Perform(s, Close(id)) == CloseSession(s, id)
  {
    hide CloseSession;
  }

  lemma Moves(s: State, id: string, table: string, merge: bool, newSession: string, newBill: string, firstLine: nat)
    ensures Perform(s, Move(id, table, merge, newSession, newBill, firstLine)) == MoveSession(s, id, table, merge, newSession, newBill, firstLine)
  {
    hide MoveSession;
  }

  lemma Updates(s: State, id: string, version: nat, m: O.Mutation, stockDeducted: bool)
    ensures Perform(s, ChangeOrder(id, version, m, stockDeducted)) == UpdateOrder(s, id, version, m, stockDeducted)
  {
    hide UpdateOrder;
  }

  lemma Bills(s: State, a: L.Action)
    ensures Perform(s, Billing(a)) == Bill(s, a)
  {
    hide Bill;
  }

  /** A session is opened exactly at an active table that is free, for at least one guest; it is then the open
      session of that table. */
  lemma OpenSucceedsIff(s: State, id: string, table: string, branch: Option<string>, guests: int)
    requires Listed(s)
    ensures var r := Perform(s, Open(id, table, branch, guests));
            && (r.Ok? <==> table in s.tables && s.tables[table].active && guests >= 1
                           && FreeTable(s, if branch.Some? then branch.value else s.tables[table].branch, table))
            && (r.Ok? ==> r.value == s.(sessions := r.value.sessions, sessionIds := s.sessionIds + [id])
                          && r.value.sessions.Keys == s.sessions.Keys + {id} && (forall x | x in s.sessions && x != id :: r.value.sessions[x] == s.sessions[x])
                          && InUse(r.value, id) && r.value.sessions[id].table == table && r.value.sessions[id].guests == guests
                          && r.value.sessions[id].branch == if branch.Some? then branch.value else s.tables[table].branch)
  {
    Opens(s, id, table, branch, guests);
    hide O.Apart, FindOpen, Perform;
    if table in s.tables {
      FreeIff(s, if branch.Some? then branch.value else s.tables[table].branch, table);
    }
  }

  lemma FreeIff(s: State, branch: string, table: string)
    requires Listed(s)
    ensures FindOpen(s.sessions, s.sessionIds, branch, table).None? <==> FreeTable(s, branch, table)
  {
    hide O.Apart;
    var found := FindOpen(s.sessions, s.sessionIds, branch, table);
    if found.Some? { assert OpenAt(s.sessions[found.value], branch, table); }
  }

  /** The bill is paid, void or a debt. */
  predicate Complete(bill: B.Bill) {
    bill.state == B.Paid || bill.state == B.VoidBill || bill.state == B.Debt
  }

  ghost predicate HasOrders(s: State, id: string) {
    exists k :: k in s.store.orders && s.store.orders[k].session == Some(id)
  }

  /** Every order of the session is delivered or cancelled. */
  ghost predicate AllFinished(s: State, id: string) {
    forall k | k in s.store.orders && s.store.orders[k].session == Some(id) :: s.store.orders[k].status.Delivered? || s.store.orders[k].status.Cancelled?
  }

  /** A session is closed exactly if it is in use, all its orders are delivered or cancelled, and it has a
      complete bill, or no bill and no orders. */
  lemma CloseSucceedsIff(s: State, id: string)
    requires Listed(s)
    ensures Perform(s, Close(id)).Ok? <==>
              && InUse(s, id) && AllFinished(s, id)
              && (if id in s.bills then Complete(s.bills[id]) else !HasOrders(s, id))
    ensures Perform(s, Close(id)).Ok? ==> Perform(s, Close(id)).value == s.(sessions := s.sessions[id := s.sessions[id].(open := false)])
  {
    OrdersListed(s, id);
    if id in s.bills { SameComplete(s.bills[id]); }
    Closes(s, id);
    hide Listed, SessionOrders, HasOrders, AllFinished, BillComplete, Complete, Perform;
  }

  lemma SameComplete(bill: B.Bill)
    ensures BillComplete(bill) <==> Complete(bill)
  {}

  /** What the list of a session's orders says. */
  lemma OrdersListed(s: State, id: string)
    requires Listed(s)
    ensures var orders := SessionOrders(s.store.orders, s.orderIds, {id});
            && (orders != [] <==> HasOrders(s, id))
            && ((forall o | o in orders :: o.status.Delivered? || o.status.Cancelled?) <==> AllFinished(s, id))
  {
    hide O.Apart, SessionOrders;
    var orders := SessionOrders(s.store.orders, s.orderIds, {id});
    forall k | k in s.store.orders && s.store.orders[k].session == Some(id) ensures s.store.orders[k] in orders {
      assert k in s.orderIds;
    }
    forall o | o in orders ensures exists k :: k in s.store.orders && s.store.orders[k] == o && s.store.orders[k].session == Some(id) {
      var k :| k in s.orderIds && k in s.store.orders && s.store.orders[k] == o && o.session.Some? && o.session.value in {id};
    }
    if orders != [] { assert orders[0] in orders; }
  }

  /** A session is moved exactly if it is in use, to another active table of its branch; if that table is in use
      the caller has to have confirmed the merge; and the bills of both, as far as there are any, are
      untouched. */
  lemma MoveSucceedsIff(s: State, id: string, table: string, merge: bool, newSession: string, newBill: string, firstLine: nat)
    requires Inv(s) && newSession !in s.sessions && newSession !in s.bills
    ensures Perform(s, Move(id, table, merge, newSession, newBill, firstLine)).Ok? <==>
              && InUse(s, id) && s.sessions[id].table != table
              && table in s.tables && s.tables[table].active && s.tables[table].branch == s.sessions[id].branch
              && (!FreeTable(s, s.sessions[id].branch, table) ==> merge)
              && (id in s.bills ==> A.Untouched(s.bills[id]))
              && forall x | x in s.sessions && OpenAt(s.sessions[x], s.sessions[id].branch, table) && x in s.bills :: A.Untouched(s.bills[x])
  {
    Moves(s, id, table, merge, newSession, newBill, firstLine);
    hide Perform;
    hide SessionsInv, OrdersInv, LinesLive, L.Inv, A.Untouched, FindOpen, L.TransferBills, MovedItems, MoveOrders, O.Apart;
    if id in s.sessions {
      FreeIff(s, s.sessions[id].branch, table);
      var target := Target(s, id, table, newSession);
      OnlyOpen(s, id, table, newSession);
      A.TransferSucceedsIff(s.bills, id, target, newBill, MovedItems(s, id, target), firstLine);
    }
  }

  /** The target is the open session of the table, or new. */
  lemma OnlyOpen(s: State, id: string, table: string, newSession: string)
    requires SessionsInv(s) && Listed(s) && id in s.sessions && newSession !in s.sessions
    ensures var target := Target(s, id, table, newSession);
            && (forall x | x in s.sessions && OpenAt(s.sessions[x], s.sessions[id].branch, table) :: x == target)
            && (target in s.sessions ==> OpenAt(s.sessions[target], s.sessions[id].branch, table))
            && (target !in s.sessions ==> target == newSession)
            && (s.sessions[id].table != table ==> target != id)
  {
    hide O.Apart, Ends;
    var found := FindOpen(s.sessions, s.sessionIds, s.sessions[id].branch, table);
    hide FindOpen;
  }

  /** Orders are taken exactly for no session or one in use, of positive quantities. */
  lemma CreateOrderSucceedsIff(s: State, order: string, session: Option<string>, items: seq<O.Item>)
    ensures var r := Perform(s, CreateOrder(order, session, items));
            && (r.Ok? <==> (session.Some? ==> InUse(s, session.value)) && forall i | i in items :: i.quantity > 0.0)
            && (r.Ok? ==> O.Perform(s.store, O.Create(order, session, items)) == Ok(r.value.store) && r.value == s.(store := r.value.store, orderIds := s.orderIds + [order]))
  {
    E.CreateSucceedsIff(s.store, order, session, items);
    hide O.Perform;
  }

  /** An update of an order goes through exactly if it is not a move, which only its session makes; if the stock
      could be deducted for a new status; if the bill of its session is untouched, unless only its status changes;
      if an item is voided only while the session is in use; and if the order accepts it. */
  lemma UpdateSucceedsIff(s: State, id: string, version: nat, m: O.Mutation, stockDeducted: bool)
    requires BillsInv(s)
    ensures Perform(s, ChangeOrder(id, version, m, stockDeducted)).Ok? <==>
              && id in s.store.orders && !m.MoveTo? && (m.Transition? ==> stockDeducted)
              && (s.store.orders[id].session.Some? ==>
                    var session := s.store.orders[id].session.value;
                    && (!m.Transition? && session in s.bills ==> A.Untouched(s.bills[session]))
                    && (m.VoidItem? ==> InUse(s, session)))
              && O.Perform(s.store, O.Update(id, version, m)).Ok?
  {
    Updates(s, id, version, m, stockDeducted);
    hide L.Inv, A.Untouched, O.Perform, L.Editable, Withdrawn, LinesLive, Perform;
    if id in s.store.orders && s.store.orders[id].session.Some? {
      var session := s.store.orders[id].session.value;
      MayEdit(s.bills, session);
      NothingWithdrawn(s.store.orders[id], m);
      if session !in s.bills || A.Untouched(s.bills[session]) {
        RemovalSucceeds(s.bills, session, Withdrawn(s.store.orders[id], m));
      }
      assert RemoveFromBill(s.bills, session, []) == Ok(s.bills);
    }
  }

  /** The update takes the item off the bill: it removes or voids it, or cancels its order. */
  predicate Withdraws(o: O.Order, m: O.Mutation, itemId: string) {
    match m
    case Edit(_, _, removeItemIds) => itemId in removeItemIds
    case Cancel(_, _) => exists i :: i in o.items && i.id == itemId
    case VoidItem(voided, _) => itemId == voided
    case _ => false
  }

  lemma {:induction false} IdsOf(items: seq<O.Item>, id: string)
    ensures id in O.Ids(items) <==> exists i :: i in items && i.id == id
  {
    if items != [] {
      var init, last := items[..|items| - 1], items[|items| - 1];
      IdsOf(init, id);
      assert items == init + [last];
    }
  }

  lemma WithdrawnIff(o: O.Order, m: O.Mutation, itemId: string)
    ensures itemId in Withdrawn(o, m) <==> Withdraws(o, m, itemId)
  {
    IdsOf(o.items, itemId);
  }

  /** After an update the order is what its repository makes of it, exactly the lines of the items that it takes
      off are gone from the bill of its session, and every other bill is as it was. */
  lemma UpdateEffect(s: State, id: string, version: nat, m: O.Mutation, stockDeducted: bool)
    requires BillsInv(s) && Perform(s, ChangeOrder(id, version, m, stockDeducted)).Ok?
    ensures var t, session := Perform(s, ChangeOrder(id, version, m, stockDeducted)).value, s.store.orders[id].session;
            && id in s.store.orders && O.Perform(s.store, O.Update(id, version, m)) == Ok(t.store) && t == s.(store := t.store, bills := t.bills)
            && t.bills.Keys == s.bills.Keys && (forall b | b in s.bills && session != Some(b) :: t.bills[b] == s.bills[b])
            && (session.Some? && session.value in s.bills ==> A.LinesWithout(s.bills[session.value], t.bills[session.value], Withdrawn(s.store.orders[id], m)))
  {
    hide *;
    UpdateParts(s, id, version, m, stockDeducted);
    UpdateSucceedsIff(s, id, version, m, stockDeducted);
    BillsSound(s);
    var o := s.store.orders[id];
    if o.session.Some? {
      var session := o.session.value;
      if m.Transition? {
        NothingWithdrawn(o, m);
        NothingRemoved(s.bills, session);
        if session in s.bills { NothingLost(s.bills[session]); }
      } else {
        RemovalSucceeds(s.bills, session, Withdrawn(o, m));
      }
    }
  }

  lemma BillsSound(s: State)
    requires BillsInv(s)
    ensures L.Inv(s.bills)
  {
    hide L.Inv, LinesLive;
  }

  lemma NothingRemoved(bills: L.Bills, session: string)
    ensures RemoveFromBill(bills, session, []) == Ok(bills)
  {}

  lemma UpdateParts(s: State, id: string, version: nat, m: O.Mutation, stockDeducted: bool)
    requires Perform(s, ChangeOrder(id, version, m, stockDeducted)).Ok?
    ensures var t := Perform(s, ChangeOrder(id, version, m, stockDeducted)).value;
            && id in s.store.orders && O.Perform(s.store, O.Update(id, version, m)) == Ok(t.store) && t == s.(store := t.store, bills := t.bills)
            && match s.store.orders[id].session
               case None => t.bills == s.bills
               case Some(session) => RemoveFromBill(s.bills, session, Withdrawn(s.store.orders[id], m)) == Ok(t.bills)
  {
    Updates(s, id, version, m, stockDeducted);
    hide Perform, O.Perform, L.Editable, Withdrawn, RemoveFromBill;
  }

  lemma NothingLost(bill: B.Bill)
    ensures A.LinesWithout(bill, bill, [])
  {}

  lemma NothingWithdrawn(o: O.Order, m: O.Mutation)
    ensures m.Transition? ==> Withdrawn(o, m) == []
  {}

  lemma MayEdit(bills: L.Bills, session: string)
    requires L.Inv(bills)
    ensures session in bills ==> (L.Editable(bills[session]) <==> A.Untouched(bills[session]))
  {
    hide L.BillInv, L.Editable, A.Untouched;
    if session in bills { A.EditableIff(bills[session]); }
  }

  /** Items can be taken off an untouched bill, which stays untouched. */
  lemma {:induction false} RemovalSucceeds(bills: L.Bills, session: string, ids: seq<string>)
    requires L.Inv(bills) && (session in bills ==> A.Untouched(bills[session]))
    ensures RemoveFromBill(bills, session, ids).Ok?
    ensures var after := RemoveFromBill(bills, session, ids).value;
            && L.Inv(after) && after.Keys == bills.Keys && (forall b | b in bills && b != session :: after[b] == bills[b])
            && (session in bills ==> A.Untouched(after[session]) && A.LinesWithout(bills[session], after[session], ids))
  {
    hide L.Inv, A.Untouched, L.Perform, A.LinesWithout;
    if ids != [] {
      RemovalSucceeds(bills, session, ids[..|ids| - 1]);
      var some := RemoveFromBill(bills, session, ids[..|ids| - 1]).value;
      OneRemoved(some, session, ids[|ids| - 1]);
      if session in bills { WithoutMore(bills[session], some[session], RemoveFromBill(bills, session, ids).value[session], ids); }
    } else if session in bills {
      NothingLost(bills[session]);
    }
  }

  lemma WithoutMore(before: B.Bill, middle: B.Bill, after: B.Bill, ids: seq<string>)
    requires ids != [] && A.LinesWithout(before, middle, ids[..|ids| - 1]) && A.LinesWithout(middle, after, [ids[|ids| - 1]])
    ensures A.LinesWithout(before, after, ids)
  {
    var init, last := ids[..|ids| - 1], ids[|ids| - 1];
    assert ids == init + [last];
    forall i, l | 0 <= i < |before.splits| ensures l in after.splits[i].lines <==> l in before.splits[i].lines && l.orderItemId !in ids {
      assert l.orderItemId in ids <==> l.orderItemId in init || l.orderItemId == last;
      assert l in middle.splits[i].lines <==> l in before.splits[i].lines && l.orderItemId !in init;
      assert l in after.splits[i].lines <==> l in middle.splits[i].lines && l.orderItemId !in [last];
    }
  }

  lemma RemovalPerformed(bills: L.Bills, session: string, itemId: string)
    ensures L.Perform(bills, L.RemoveVoidedItem(session, itemId)) ==
            if session !in bills then Ok(bills)
            else match L.RemoveItem(bills[session], itemId)
                 case Ok(bill) => Ok(bills[session := bill])
                 case Err(message) => Err(message)
  {
    hide L.RemoveItem;
  }

  lemma NextIsPerform(bills: L.Bills, a: L.Action)
    requires L.Perform(bills, a).Ok?
    ensures L.Next(bills, a) == L.Perform(bills, a).value
  {
    hide L.Perform;
  }

  lemma OneRemoved(bills: L.Bills, session: string, itemId: string)
    requires L.Inv(bills) && (session in bills ==> A.Untouched(bills[session]))
    ensures var r := L.Perform(bills, L.RemoveVoidedItem(session, itemId));
            && r.Ok? && L.Inv(r.value) && r.value.Keys == bills.Keys && (forall b | b in bills && b != session :: r.value[b] == bills[b])
            && (session in bills ==> A.Untouched(r.value[session]) && A.LinesWithout(bills[session], r.value[session], [itemId]))
  {
    hide *;
    RemovalKeepsInv(bills, session, itemId);
    RemovalPerformed(bills, session, itemId);
    if session in bills {
      InvOfOne(bills, session);
      ItemGone(bills[session], itemId);
    }
  }

  lemma InvOfOne(bills: L.Bills, session: string)
    requires L.Inv(bills) && session in bills
    ensures L.BillInv(bills[session])
  {
    hide L.BillInv;
  }

  lemma RemovalKeepsInv(bills: L.Bills, session: string, itemId: string)
    requires L.Inv(bills)
    ensures var r := L.Perform(bills, L.RemoveVoidedItem(session, itemId)); r.Ok? ==> L.Inv(r.value)
  {
    hide L.Inv, L.Perform, L.Next;
    L.NextInv(bills, L.RemoveVoidedItem(session, itemId));
    if L.Perform(bills, L.RemoveVoidedItem(session, itemId)).Ok? { NextIsPerform(bills, L.RemoveVoidedItem(session, itemId)); }
  }

  lemma ItemGone(bill: B.Bill, itemId: string)
    requires L.BillInv(bill) && A.Untouched(bill)
    ensures L.RemoveItem(bill, itemId).Ok? && A.Untouched(L.RemoveItem(bill, itemId).value) && A.LinesWithout(bill, L.RemoveItem(bill, itemId).value, [itemId])
  {
    hide L.BillInv, L.RemoveItem, A.Untouched;
    A.RemoveSucceedsIff(bill, itemId);
    A.StaysUntouched(bill, itemId);
  }

  /** A bill is generated exactly for a session in use that has none, if the assignment matches its orders and
      the bill itself can be generated. */
  lemma GenerateSucceedsIff(s: State, session: string, billId: string, items: seq<seq<B.OrderItem>>, firstIds: seq<nat>, pricing: B.Pricing)
    ensures Perform(s, Billing(L.Generate(session, billId, items, firstIds, pricing))).Ok? <==>
              InUse(s, session) && session !in s.bills && AssignmentAccepted(s, session, items) && L.GenerateBill(billId, session, items, firstIds, pricing).Ok?
  {
    Bills(s, L.Generate(session, billId, items, firstIds, pricing));
    hide AssignmentAccepted, L.GenerateBill, NoteAssignment, Perform;
  }

  /** Items are assigned exactly on an untouched bill, to every split, if the assignment matches the orders. */
  lemma AssignSucceedsIff(s: State, session: string, items: seq<seq<B.OrderItem>>, firstIds: seq<nat>)
    requires BillsInv(s)
    ensures Perform(s, Billing(L.AssignItems(session, items, firstIds))).Ok? <==>
              session in s.bills && A.Untouched(s.bills[session]) && AssignmentAccepted(s, session, items) && |items| == |firstIds| == 3
  {
    Bills(s, L.AssignItems(session, items, firstIds));
    hide AssignmentAccepted, NoteAssignment, L.UpdateSplitItems, A.Untouched, LinesLive, L.BillInv, Perform;
    if session in s.bills { A.AssignSucceedsIff(s.bills[session], items, firstIds); }
  }

  /** Charges change exactly on an untouched bill of a session in use. */
  lemma ChargesSucceedIff(s: State, session: string, tax: bool, service: bool)
    requires BillsInv(s)
    ensures Perform(s, Billing(L.SetCharges(session, tax, service))).Ok? <==> InUse(s, session) && session in s.bills && A.Untouched(s.bills[session])
  {
    Bills(s, L.SetCharges(session, tax, service));
    hide L.ChangePricing, A.Untouched, LinesLive, L.BillInv, Perform;
    if session in s.bills {
      var pricing := s.bills[session].pricing;
      A.PricingSucceedsIff(s.bills[session], pricing.(taxable := tax, serviceChargeEnabled := service), true);
      A.MayChange(s.bills[session]);
      RangesKept(s.bills[session]);
    }
  }

  lemma RangesKept(bill: B.Bill)
    requires L.BillInv(bill)
    ensures bill.pricing.taxRate >= 0 && 0.0 <= bill.pricing.serviceChargeRate <= 100.0
  {
    hide B.Reprice, L.SplitInv;
  }

  /** Everything else about a bill succeeds as it does without the floor, except that bills move only with their
      sessions and items leave them only with their orders. */
  lemma OtherBilling(s: State, a: L.Action)
    requires !a.Generate? && !a.AssignItems? && !a.SetCharges?
    ensures Perform(s, Billing(a)).Ok? <==> !a.Transfer? && !a.RemoveVoidedItem? && L.Perform(s.bills, a).Ok?
  {
    Bills(s, a);
    hide L.Perform, Perform;
  }

  /** Billing makes of the bills what the ledger makes of them. Sessions, tables and orders stay; only generating
      and assigning note something: whether the bill stands alone, its session without orders. */
  lemma BillingEffect(s: State, a: L.Action)
    requires Listed(s) && Perform(s, Billing(a)).Ok?
    ensures var t := Perform(s, Billing(a)).value;
            && L.Perform(s.bills, a) == Ok(t.bills) && t == s.(bills := t.bills, standalone := t.standalone)
            && (a.Generate? || a.AssignItems? ==> forall x :: x in t.standalone <==> if x == a.session then !HasOrders(s, x) else x in s.standalone)
            && (!a.Generate? && !a.AssignItems? ==> t.standalone == s.standalone)
  {
    Bills(s, a);
    hide L.Perform, AssignmentAccepted, NoteAssignment, HasOrders, Perform, Listed;
    if a.Generate? || a.AssignItems? { Noted(s, a.session); }
  }

  /******* Orders and their sessions *******/

  /** A transfer takes an order along as the order's own update to the new table would. */
  lemma MovedAsUpdated(s: State, k: string, target: string)
    requires k in s.store.orders
    ensures var r := O.Perform(s.store, O.Update(k, s.store.orders[k].version, O.MoveTo(target)));
            r.Ok? && k in r.value.orders && r.value.orders[k] == MoveOrder(s.store.orders[k], target)
  {
    hide O.SyncKds;
  }

  /** For a session without orders every assignment is accepted. */
  lemma FreeAssignment(s: State, session: string, items: seq<seq<B.OrderItem>>)
    requires Listed(s) && !HasOrders(s, session)
    ensures AssignmentAccepted(s, session, items)
  {
    OrdersListed(s, session);
    hide MatchesOrders, SessionOrders, LiveItems, Flat, HasOrders;
  }

  lemma Noted(s: State, session: string)
    requires Listed(s)
    ensures forall x :: x in NoteAssignment(s, session) <==> if x == session then !HasOrders(s, x) else x in s.standalone
  {
    OrdersListed(s, session);
    hide SessionOrders, HasOrders, Listed;
  }

  /** What the kitchen reports is stored in the row of the order's item, if the kitchen has it, and nothing else
      changes. */
  lemma PrepareStored(s: State, order: string, itemId: string, progress: O.Progress)
    ensures var r := Perform(s, Prepare(order, itemId, progress));
            && (r.Ok? <==> (order, itemId) in s.store.kds)
            && (r.Ok? ==> && r.value == s.(store := O.Store(s.store.orders, r.value.store.kds)) && r.value.store.kds.Keys == s.store.kds.Keys
                          && r.value.store.kds[(order, itemId)].progress == progress
                          && forall k | k in s.store.kds && k != (order, itemId) :: r.value.store.kds[k] == s.store.kds[k])
  {
    E.ProgressStored(s.store, order, itemId, progress);
    hide O.Perform;
  }
}
