/** Table sessions, their orders and their bills as one state (backend/tables/service.ts, with the parts
    of backend/orders/service.ts and backend/billing/service.ts that tie them together). */
module TableFloor {
  import opened Results
  import B = BillPricing
  import L = PaymentLedger
  import O = OrderBook

  datatype Table = Table(branch: string, active: bool)

  datatype Session = Session(branch: string, table: string, guests: nat, open: bool, transferredTo: Option<string>)

  /** Sessions and orders are listed in the order in which they were created. `standalone` keeps track of
      the sessions whose bill took lines while the session had no orders. */
  datatype State = State(tables: map<string, Table>, sessions: map<string, Session>, sessionIds: seq<string>,
                         store: O.Store, orderIds: seq<string>, bills: L.Bills, standalone: set<string>)

  /******* Lookups *******/

  predicate OpenAt(s: Session, branch: string, table: string) {
    s.open && s.branch == branch && s.table == table
  }

  /** The open session of a table, if it has one. */
  function FindOpen(sessions: map<string, Session>, ids: seq<string>, branch: string, table: string): (r: Option<string>)
    ensures r.Some? ==> r.value in ids && r.value in sessions && OpenAt(sessions[r.value], branch, table)
    ensures r.None? ==> forall id | id in ids && id in sessions :: !OpenAt(sessions[id], branch, table)
  {
    if ids == [] then None
    else
      var earlier := FindOpen(sessions, ids[..|ids| - 1], branch, table);
      var id := ids[|ids| - 1];
      if earlier.Some? then earlier
      else if id in sessions && OpenAt(sessions[id], branch, table) then Some(id)
      else None
  }

  /** The orders of the given sessions. */
  function SessionOrders(orders: map<string, O.Order>, ids: seq<string>, among: set<string>): (r: seq<O.Order>)
    ensures forall o :: o in r <==> exists id :: id in ids && id in orders && orders[id] == o && o.session.Some? && o.session.value in among
  {
    if ids == [] then []
    else
      var earlier := SessionOrders(orders, ids[..|ids| - 1], among);
      var id := ids[|ids| - 1];
      if id in orders && orders[id].session.Some? && orders[id].session.value in among then earlier + [orders[id]] else earlier
  }

  function AsBillItem(i: O.Item): B.OrderItem {
    B.OrderItem(i.id, i.quantity, i.unitPrice, None, None, None, None)
  }

  function AsBillItems(items: seq<O.Item>): (r: seq<B.OrderItem>)
    ensures |r| == |items| && forall k | 0 <= k < |items| :: r[k] == AsBillItem(items[k])
  {
    seq(|items|, k requires 0 <= k < |items| => AsBillItem(items[k]))
  }

  /** The items of the orders that are not cancelled. */
  function LiveItems(orders: seq<O.Order>): (r: seq<O.Item>)
    ensures forall i :: i in r <==> exists o :: o in orders && !o.status.Cancelled? && i in o.items
  {
    if orders == [] then []
    else
      var last := orders[|orders| - 1];
      LiveItems(orders[..|orders| - 1]) + if last.status.Cancelled? then [] else last.items
  }

  /******* Bill lines against orders *******/

  /** The quantity assigned to an item, in hundredths and rounded after each addition. */
  function Assigned(items: seq<B.OrderItem>, id: string): int {
    if items == [] then 0
    else
      var sofar := Assigned(items[..|items| - 1], id);
      if items[|items| - 1].id == id then B.Round(sofar as real + items[|items| - 1].quantity * 100.0) else sofar
  }

  /** assertSessionItemAssignments, for a session with orders: every line is a live item at its ordered
      price, and every live item is assigned in its ordered quantity. */
  predicate MatchesOrders(items: seq<B.OrderItem>, live: seq<O.Item>) {
    && (forall x | x in items :: x.quantity > 0.0 && exists i | i in live :: i.id == x.id && i.unitPrice == x.unitPrice)
    && (forall i | i in live :: (exists x | x in items :: x.id == i.id) && Assigned(items, i.id) == B.Round(i.quantity * 100.0))
  }

  function Flat(items: seq<seq<B.OrderItem>>): (r: seq<B.OrderItem>)
    ensures forall x :: x in r <==> exists xs :: xs in items && x in xs
  {
    if items == [] then [] else Flat(items[..|items| - 1]) + items[|items| - 1]
  }

  predicate AssignmentAccepted(s: State, session: string, items: seq<seq<B.OrderItem>>) {
    var orders := SessionOrders(s.store.orders, s.orderIds, {session});
    orders == [] || MatchesOrders(Flat(items), LiveItems(orders))
  }

  function NoteAssignment(s: State, session: string): set<string> {
    if SessionOrders(s.store.orders, s.orderIds, {session}) == [] then s.standalone + {session} else s.standalone - {session}
  }

  /******* Operations *******/

  datatype Action =
    | SetTable(table: string, record: Table)
    | Open(id: string, table: string, branch: Option<string>, guests: int)
    | Close(id: string)
    | Move(id: string, table: string, merge: bool, newSession: string, newBill: string, firstLine: nat)
    | CreateOrder(order: string, orderSession: Option<string>, items: seq<O.Item>)
    | ChangeOrder(order: string, expectedVersion: nat, mutation: O.Mutation, stockDeducted: bool)
    | Prepare(order: string, itemId: string, progress: O.Progress)
    | Billing(action: L.Action)

  function OpenSession(s: State, id: string, table: string, branch: Option<string>, guests: int): Result<State> {
    if table !in s.tables then Err("Table not found.")
    else if !s.tables[table].active then Err("Cannot open a session for an inactive table.")
    else
      var at := if branch.Some? then branch.value else s.tables[table].branch;
      if FindOpen(s.sessions, s.sessionIds, at, table).Some? then Err("An active session already exists for the table.")
      else if guests < 1 then Err("guestCount must be a positive integer.")
      else Ok(s.(sessions := s.sessions[id := Session(at, table, guests, true, None)], sessionIds := s.sessionIds + [id]))
  }

  predicate BillComplete(bill: B.Bill) {
    bill.state.Paid? || bill.state.VoidBill? || bill.state.Debt?
  }

  function CloseSession(s: State, id: string): Result<State> {
    if id !in s.sessions then Err("Table session not found.")
    else if !s.sessions[id].open then Err("Table session is already closed.")
    else
      var orders := SessionOrders(s.store.orders, s.orderIds, {id});
      if exists o | o in orders :: !o.status.Delivered? && !o.status.Cancelled? then Err("Cannot close table session while an order is unfinished.")
      else if id in s.bills && !BillComplete(s.bills[id]) then Err("Cannot close table session until every split is paid, void, or moved to debt.")
      else if orders != [] && id !in s.bills then Err("Cannot close table session until the linked bill is paid, void, or moved to debt.")
      else Ok(s.(sessions := s.sessions[id := s.sessions[id].(open := false)]))
  }

  /** An order as its session takes it along: only session, version and log change. */
  function MoveOrder(o: O.Order, target: string): O.Order {
    o.(session := Some(target), log := o.log + [O.TableTransferred(o.session, target)], version := o.version + 1)
  }

  function MoveOrders(store: O.Store, ids: seq<string>, source: string, target: string): O.Store {
    if ids == [] then store
    else
      var s := MoveOrders(store, ids[..|ids| - 1], source, target);
      var id := ids[|ids| - 1];
      if id in s.orders && s.orders[id].session == Some(source)
      then
        var o := MoveOrder(s.orders[id], target);
        O.Store(s.orders[id := o], O.SyncKds(s.kds, o))
      else s
  }

  function Target(s: State, id: string, table: string, newSession: string): string {
    var found := if id in s.sessions then FindOpen(s.sessions, s.sessionIds, s.sessions[id].branch, table) else None;
    if found.Some? then found.value else newSession
  }

  /** The items that the bill of the target has to cover after the move. */
  function MovedItems(s: State, source: string, target: string): seq<B.OrderItem> {
    AsBillItems(LiveItems(SessionOrders(s.store.orders, s.orderIds, {source, target})))
  }

  function MoveSession(s: State, id: string, table: string, merge: bool, newSession: string, newBill: string, firstLine: nat): Result<State> {
    if id !in s.sessions || !s.sessions[id].open then Err("Table session is not open.")
    else if s.sessions[id].table == table then Err("Choose a different destination table.")
    else if table !in s.tables || !s.tables[table].active then Err("Destination table must be active.")
    else if s.tables[table].branch != s.sessions[id].branch then Err("Forbidden: tables must belong to your branch.")
    else
      var source := s.sessions[id];
      var found := FindOpen(s.sessions, s.sessionIds, source.branch, table);
      var target := Target(s, id, table, newSession);
      if found.Some? && !merge then Err("Destination is occupied. Confirm merge to continue.")
      else
        var bills :- L.TransferBills(s.bills, id, target, newBill, MovedItems(s, id, target), firstLine);
        var destination := if found.Some? then s.sessions[target].(guests := s.sessions[target].guests + source.guests)
                           else Session(source.branch, table, source.guests, true, None);
        Ok(s.(sessions := s.sessions[target := destination][id := source.(open := false, transferredTo := Some(target))],
              sessionIds := if found.Some? then s.sessionIds else s.sessionIds + [target],
              store := MoveOrders(s.store, s.orderIds, id, target), bills := bills,
              standalone := if id in s.standalone then s.standalone + {target} else s.standalone))
  }

  function RemoveFromBill(bills: L.Bills, session: string, ids: seq<string>): Result<L.Bills> {
    if ids == [] then Ok(bills)
    else
      var some :- RemoveFromBill(bills, session, ids[..|ids| - 1]);
      L.Perform(some, L.RemoveVoidedItem(session, ids[|ids| - 1]))
  }

  /** The items an update takes off the bill. */
  function Withdrawn(o: O.Order, m: O.Mutation): seq<string> {
    match m
    case Edit(_, _, removeItemIds) => removeItemIds
    case Cancel(_, _) => O.Ids(o.items)
    case VoidItem(itemId, _) => [itemId]
    case _ => []
  }

  function UpdateOrder(s: State, id: string, expectedVersion: nat, m: O.Mutation, stockDeducted: bool): Result<State> {
    if id !in s.store.orders then Err("Order not found.")
    else if m.MoveTo? then Err("Orders move with their session.")
    else if m.Transition? && !stockDeducted then Err("Insufficient stock for inventory item.")
    else
      var session := s.store.orders[id].session;
      if session.Some? && !m.Transition? && session.value in s.bills && !L.Editable(s.bills[session.value])
      then Err("Cannot change a bill after payment or debt settlement.")
      else if m.VoidItem? && session.Some? && !(session.value in s.sessions && s.sessions[session.value].open)
      then Err("Table session is not open.")
      else
        var store :- O.Perform(s.store, O.Update(id, expectedVersion, m));
        if session.None? then Ok(s.(store := store))
        else
          var bills :- RemoveFromBill(s.bills, session.value, Withdrawn(s.store.orders[id], m));
          Ok(s.(store := store, bills := bills))
  }

  function Bill(s: State, a: L.Action): Result<State> {
    match a
    case Generate(session, billId, items, firstIds, pricing) =>
      if session !in s.sessions || !s.sessions[session].open then Err("Table session is not open.")
      else if !AssignmentAccepted(s, session, items) then Err("Split quantities must match the order.")
      else
        var bills :- L.Perform(s.bills, a);
        Ok(s.(bills := bills, standalone := NoteAssignment(s, session)))
    case AssignItems(session, items, firstIds) =>
      if !AssignmentAccepted(s, session, items) then Err("Split quantities must match the order.")
      else
        var bills :- L.Perform(s.bills, a);
        Ok(s.(bills := bills, standalone := NoteAssignment(s, session)))
    case Transfer(_, _, _, _, _) => Err("Bills move with their session.")
    case RemoveVoidedItem(_, _) => Err("Items leave a bill with their order.")
    case SetCharges(session, _, _) =>
      if session !in s.sessions || !s.sessions[session].open then Err("Table session is not open.")
      else
        var bills :- L.Perform(s.bills, a);
        Ok(s.(bills := bills))
    case _ =>
      var bills :- L.Perform(s.bills, a);
      Ok(s.(bills := bills))
  }

  function Perform(s: State, a: Action): Result<State> {
    match a
    case SetTable(table, record) => Ok(s.(tables := s.tables[table := record]))
    case Open(id, table, branch, guests) => OpenSession(s, id, table, branch, guests)
    case Close(id) => CloseSession(s, id)
    case Move(id, table, merge, newSession, newBill, firstLine) => MoveSession(s, id, table, merge, newSession, newBill, firstLine)
    case CreateOrder(order, session, items) =>
      if session.Some? && (session.value !in s.sessions || !s.sessions[session.value].open) then Err("Table session is not open.")
      else
        var store :- O.Perform(s.store, O.Create(order, session, items));
        Ok(s.(store := store, orderIds := s.orderIds + [order]))
    case ChangeOrder(order, expectedVersion, m, stockDeducted) => UpdateOrder(s, order, expectedVersion, m, stockDeducted)
    case Prepare(order, itemId, progress) =>
      var store :- O.Perform(s.store, O.SetProgress(order, itemId, progress));
      Ok(s.(store := store))
    case Billing(action) => Bill(s, action)
  }

  /** A failing operation is rolled back. */
  function After(s: State, r: Result<State>): State {
    match r
    case Ok(after) => after
    case Err(_) => s
  }

  function Next(s: State, a: Action): State {
    After(s, Perform(s, a))
  }

  function Run(s: State, actions: seq<Action>): State {
    if actions == [] then s else Next(Run(s, actions[..|actions| - 1]), actions[|actions| - 1])
  }

  /******* The service *******/

  class Floor {
    var tables: map<string, Table>
    var sessions: map<string, Session>
    var sessionIds: seq<string>
    var orders: map<string, O.Order>
    var kds: O.Kds
    var orderIds: seq<string>
    var bills: L.Bills
    ghost var standalone: set<string>

    constructor ()
      ensures Now() == State(map[], map[], [], O.Store(map[], map[]), [], map[], {})
    {
      tables, sessions, sessionIds, orders, kds, orderIds, bills, standalone := map[], map[], [], map[], map[], [], map[], {};
    }

    ghost function Now(): State
      reads this
    {
      State(tables, sessions, sessionIds, O.Store(orders, kds), orderIds, bills, standalone)
    }

    method OpenTableSession(id: string, table: string, branch: Option<string>, guests: int) returns (r: Result<Session>)
      modifies this
      ensures Now() == After(old(Now()), OpenSession(old(Now()), id, table, branch, guests))
      ensures r.Ok? <==> table in tables && tables[table].active && guests >= 1 &&
                         forall x | x in old(sessionIds) && x in old(sessions) ::
                           !OpenAt(old(sessions)[x], if branch.Some? then branch.value else tables[table].branch, table)
      ensures r.Ok? ==> sessions == old(sessions)[id := r.value] && r.value.open && r.value.table == table && r.value.guests == guests
    {
      hide FindOpen;
      if table !in tables { return Err("Table not found."); }
      if !tables[table].active { return Err("Cannot open a session for an inactive table."); }
      var at := if branch.Some? then branch.value else tables[table].branch;
      var existing := FindOpen(sessions, sessionIds, at, table);
      if existing.Some? { return Err("An active session already exists for the table."); }
      if guests < 1 { return Err("guestCount must be a positive integer."); }
      var session := Session(at, table, guests, true, None);
      sessions, sessionIds := sessions[id := session], sessionIds + [id];
      r := Ok(session);
    }

    method CloseTableSession(id: string) returns (r: Result<Session>)
      modifies this
      ensures r.Ok? <==> CloseSession(old(Now()), id).Ok?
      ensures Now() == After(old(Now()), CloseSession(old(Now()), id))
      ensures r.Ok? ==> id in old(sessions) && old(sessions)[id].open && sessions == old(sessions)[id := old(sessions)[id].(open := false)]
      ensures r.Ok? ==> forall k | k in orderIds && k in orders && orders[k].session == Some(id) :: orders[k].status.Delivered? || orders[k].status.Cancelled?
      ensures r.Ok? ==> if id in bills then BillComplete(bills[id]) else forall k | k in orderIds && k in orders :: orders[k].session != Some(id)
    {
      hide SessionOrders, BillComplete;
      if id !in sessions { return Err("Table session not found."); }
      if !sessions[id].open { return Err("Table session is already closed."); }
      var linked := SessionOrders(orders, orderIds, {id});
      assert forall k | k in orderIds && k in orders && orders[k].session == Some(id) :: orders[k] in linked;
      if exists o | o in linked :: !o.status.Delivered? && !o.status.Cancelled? {
        return Err("Cannot close table session while an order is unfinished.");
      }
      if id in bills && !BillComplete(bills[id]) {
        return Err("Cannot close table session until every split is paid, void, or moved to debt.");
      }
      if linked != [] && id !in bills {
        return Err("Cannot close table session until the linked bill is paid, void, or moved to debt.");
      }
      sessions := sessions[id := sessions[id].(open := false)];
      r := Ok(sessions[id]);
    }

    /** Every order of the source moves under its next version, and the kitchen follows. */
    method MoveLinkedOrders(source: string, target: string)
      modifies this`orders, this`kds
      ensures O.Store(orders, kds) == MoveOrders(old(O.Store(orders, kds)), orderIds, source, target)
    {
      ghost var store := O.Store(orders, kds);
      for i := 0 to |orderIds|
        invariant O.Store(orders, kds) == MoveOrders(store, orderIds[..i], source, target)
      {
        assert orderIds[..i + 1][..i] == orderIds[..i];
        if orderIds[i] in orders && orders[orderIds[i]].session == Some(source) {
          var moved := MoveOrder(orders[orderIds[i]], target);
          orders := orders[orderIds[i] := moved];
          kds := O.SyncOrderIntoKds(kds, moved);
        }
      }
      assert orderIds[..|orderIds|] == orderIds;
    }

    method TransferTableSession(id: string, table: string, merge: bool, newSession: string, newBill: string, firstLine: nat)
      returns (r: Result<Session>)
      modifies this
      ensures r.Ok? <==> MoveSession(old(Now()), id, table, merge, newSession, newBill, firstLine).Ok?
      ensures Now() == After(old(Now()), MoveSession(old(Now()), id, table, merge, newSession, newBill, firstLine))
    {
      hide L.TransferBills, FindOpen, SessionOrders, LiveItems, MoveOrders, AsBillItems;
      if id !in sessions || !sessions[id].open { return Err("Table session is not open."); }
      var source := sessions[id];
      if source.table == table { return Err("Choose a different destination table."); }
      if table !in tables || !tables[table].active { return Err("Destination table must be active."); }
      if tables[table].branch != source.branch { return Err("Forbidden: tables must belong to your branch."); }
      var found := FindOpen(sessions, sessionIds, source.branch, table);
      if found.Some? && !merge { return Err("Destination is occupied. Confirm merge to continue."); }
      var target := if found.Some? then found.value else newSession;
      var items := AsBillItems(LiveItems(SessionOrders(orders, orderIds, {id, target})));
      var transferred := L.TransferBills(bills, id, target, newBill, items, firstLine);
      if transferred.Err? { return Err(transferred.message); }
      var destination := if found.Some? then sessions[target].(guests := sessions[target].guests + source.guests)
                         else Session(source.branch, table, source.guests, true, None);
      MoveLinkedOrders(id, target);
      if found.None? { sessionIds := sessionIds + [target]; }
      bills := transferred.value;
      source := source.(open := false, transferredTo := Some(target));
      sessions := sessions[target := destination][id := source];
      if id in standalone { standalone := standalone + {target}; }
      r := Ok(destination);
    }
  }
}
