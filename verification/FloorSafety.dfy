/** What every run of the table floor keeps. */
module FloorSafety {
  import opened Results
  import opened TableFloor
  import B = BillPricing
  import L = PaymentLedger
  import O = OrderBook
  import F = FloorBills
  import A = Apportionment

  /******* Sessions *******/

  /** A chain of transfers. */
  ghost predicate Path(sessions: map<string, Session>, p: seq<string>) {
    && |p| > 0 && (forall k | 0 <= k < |p| :: p[k] in sessions)
    && forall k | 0 <= k < |p| - 1 :: sessions[p[k]].transferredTo == Some(p[k + 1])
  }

  ghost predicate Leads(sessions: map<string, Session>, p: seq<string>, x: string, y: string) {
    Path(sessions, p) && p[0] == x && p[|p| - 1] == y
  }

  ghost predicate Reaches(sessions: map<string, Session>, x: string, y: string) {
    exists p :: Leads(sessions, p, x, y)
  }

  predicate End(sessions: map<string, Session>, x: string) {
    x in sessions && sessions[x].transferredTo.None?
  }

  /** Every chain of transfers comes to an end, so none is a cycle. */
  ghost predicate Ends(sessions: map<string, Session>, x: string) {
    exists y :: End(sessions, y) && Reaches(sessions, x, y)
  }

  ghost predicate OneOpenEach(sessions: map<string, Session>) {
    forall x, y | x in sessions && y in sessions && sessions[x].open && OpenAt(sessions[y], sessions[x].branch, sessions[x].table) :: x == y
  }

  ghost predicate SessionsInv(s: State) {
    && (forall x | x in s.sessions :: x in s.sessionIds)
    && OneOpenEach(s.sessions)
    && (forall x | x in s.sessions && s.sessions[x].open :: s.sessions[x].transferredTo.None?)
    && (forall x | x in s.sessions :: Ends(s.sessions, x))
  }

  predicate Distinct(ids: seq<string>) {
    forall i, j | 0 <= i < j < |ids| :: ids[i] != ids[j]
  }

  /** Every session and every order is listed once, and no two orders share an item id. */
  ghost predicate Listed(s: State) {
    && Distinct(s.sessionIds) && (forall x :: x in s.sessionIds <==> x in s.sessions)
    && Distinct(s.orderIds) && (forall k :: k in s.orderIds <==> k in s.store.orders)
    && O.Apart(s.store.orders)
  }

  /** Chains are unique: a session reaches at most one end. */
  lemma {:induction false} OneEnd(sessions: map<string, Session>, p: seq<string>, q: seq<string>, x: string, y: string, z: string)
    requires Leads(sessions, p, x, y) && Leads(sessions, q, x, z) && End(sessions, y) && End(sessions, z)
    ensures p == q && y == z
    decreases |p|
  {
    assert |p| > 1 ==> sessions[p[0]].transferredTo == Some(p[1]);
    assert |q| > 1 ==> sessions[q[0]].transferredTo == Some(q[1]);
    if |p| > 1 && |q| > 1 {
      OneEnd(sessions, p[1..], q[1..], p[1], y, z);
      assert p == [x] + p[1..] && q == [x] + q[1..];
    }
  }

  /** Sending `x`, the end of its chain, on to another end leaves every chain with an end, and what
      reached `x` now reaches the new end. */
  lemma ChainExtended(before: map<string, Session>, after: map<string, Session>, x: string, y: string)
    requires x != y && End(before, x) && (y in before ==> End(before, y)) && End(after, y) && x in after
    requires after.Keys == before.Keys + {y} && after[x].transferredTo == Some(y)
    requires forall k | k in before && k != x && k != y :: after[k].transferredTo == before[k].transferredTo
    ensures forall a, b | Reaches(before, a, b) :: Reaches(after, a, if b == x then y else b)
    ensures Reaches(after, y, y)
  {
    assert Leads(after, [y], y, y);
    forall a, b | Reaches(before, a, b) ensures Reaches(after, a, if b == x then y else b) {
      var p :| Leads(before, p, a, b);
      forall k | 0 <= k < |p| - 1 ensures p[k] != x && after[p[k]].transferredTo == Some(p[k + 1]) {
        assert before[p[k]].transferredTo == Some(p[k + 1]);
      }
      if b == x {
        assert Leads(after, p + [y], a, y);
      } else {
        assert Leads(after, p, a, b);
      }
    }
  }

  /** Changes that send nobody on leave every chain as it is. */
  lemma ChainsKept(before: map<string, Session>, after: map<string, Session>)
    requires before.Keys <= after.Keys && forall k | k in before :: after[k].transferredTo == before[k].transferredTo
    ensures forall a, b | Reaches(before, a, b) :: Reaches(after, a, b)
  {
    forall a, b | Reaches(before, a, b) ensures Reaches(after, a, b) {
      var p :| Leads(before, p, a, b);
      assert Leads(after, p, a, b);
    }
  }

  lemma ReachesItself(sessions: map<string, Session>, x: string)
    requires x in sessions
    ensures Reaches(sessions, x, x)
  {
    assert Leads(sessions, [x], x, x);
  }

  /** Ids of sessions and orders are drawn anew, and so are those of items and payments. */
  ghost predicate FreshIds(s: State, a: Action) {
    match a
    case Open(id, _, _, _) => id !in s.sessions
    case Move(_, _, _, newSession, _, _) => newSession !in s.sessions
    case CreateOrder(order, session, items) => O.FreshIds(s.store, O.Create(order, session, items))
    case ChangeOrder(order, v, m, _) => O.FreshIds(s.store, O.Update(order, v, m))
    case Billing(action) => L.Fresh(s.bills, action)
    case _ => true
  }

  lemma OpenKeeps(s: State, id: string, table: string, branch: Option<string>, guests: int)
    requires SessionsInv(s) && id !in s.sessions && OpenSession(s, id, table, branch, guests).Ok?
    ensures var t := OpenSession(s, id, table, branch, guests).value;
            SessionsInv(t) && forall a, b | Reaches(s.sessions, a, b) :: Reaches(t.sessions, a, b)
  {
    hide Reaches, Ends;
    var t := OpenSession(s, id, table, branch, guests).value;
    ChainsKept(s.sessions, t.sessions);
    ReachesItself(t.sessions, id);
    EndsKept(s.sessions, t.sessions, id);
    OneMoreOpen(s, t.sessions, id, t.sessions[id]);
  }

  /** Opening at a table without an open session. */
  lemma OneMoreOpen(s: State, after: map<string, Session>, id: string, record: Session)
    requires SessionsInv(s) && after == s.sessions[id := record] && FindOpen(s.sessions, s.sessionIds, record.branch, record.table).None?
    ensures OneOpenEach(after)
  {
    hide FindOpen, Ends;
  }

  lemma EndsKept(before: map<string, Session>, after: map<string, Session>, added: string)
    requires after.Keys <= before.Keys + {added} && forall x | x in before :: Ends(before, x)
    requires forall x | End(before, x) :: End(after, x)
    requires forall a, b | Reaches(before, a, b) :: Reaches(after, a, b)
    requires End(after, added) && Reaches(after, added, added)
    ensures forall x | x in after :: Ends(after, x)
  {
    hide Ends;
    forall x | x in after ensures Ends(after, x) {
      if x in before {
        EndKept(before, after, x, "", "");
      } else {
        EndFound(after, x, x);
      }
    }
  }

  lemma EndFound(sessions: map<string, Session>, x: string, y: string)
    requires End(sessions, y) && Reaches(sessions, x, y)
    ensures Ends(sessions, x)
  {}

  /** The end of `x` is still an end, or it was `source` and the chain goes on to `target`. */
  lemma EndKept(before: map<string, Session>, after: map<string, Session>, x: string, source: string, target: string)
    requires Ends(before, x) && forall y | End(before, y) && (y != source || source == target) :: End(after, y)
    requires source != target ==> End(after, target)
    requires forall b | Reaches(before, x, b) :: Reaches(after, x, if b == source then target else b)
    ensures Ends(after, x)
  {
    hide Reaches;
    var y :| End(before, y) && Reaches(before, x, y);
    assert Reaches(after, x, if y == source then target else y);
  }

  lemma CloseKeeps(s: State, id: string)
    requires SessionsInv(s) && CloseSession(s, id).Ok?
    ensures var t := CloseSession(s, id).value;
            SessionsInv(t) && forall a, b | Reaches(s.sessions, a, b) :: Reaches(t.sessions, a, b)
  {
    hide Reaches, Ends, SessionOrders, BillComplete;
    var t := CloseSession(s, id).value;
    ChainsKept(s.sessions, t.sessions);
    ReachesItself(t.sessions, id);
    EndsKept(s.sessions, t.sessions, id);
  }

  /** `after` is `before` with the guests of `x` seated at `y`: an open session of the same table, or a
      new one where no session of the table is open. */
  ghost predicate Joined(before: map<string, Session>, after: map<string, Session>, x: string, y: string) {
    && x != y && x in before && before[x].open && y in after && after[y].open && after[y].transferredTo.None?
    && after == before[y := after[y]][x := before[x].(open := false, transferredTo := Some(y))]
    && after[y].guests == before[x].guests + (if y in before then before[y].guests else 0)
    && if y in before then OpenAt(before[y], after[y].branch, after[y].table)
       else forall z | z in before :: !OpenAt(before[z], after[y].branch, after[y].table)
  }

  lemma MoveJoins(s: State, id: string, table: string, merge: bool, newSession: string, newBill: string, firstLine: nat)
    requires SessionsInv(s) && newSession !in s.sessions && MoveSession(s, id, table, merge, newSession, newBill, firstLine).Ok?
    ensures var t, target := MoveSession(s, id, table, merge, newSession, newBill, firstLine).value, Target(s, id, table, newSession);
            Joined(s.sessions, t.sessions, id, target) && forall x | x in t.sessions :: x in t.sessionIds
  {
    hide Ends, OneOpenEach, MovedItems, MoveOrders, L.TransferBills;
  }

  lemma JoinedOpen(before: map<string, Session>, after: map<string, Session>, x: string, y: string)
    requires Joined(before, after, x, y) && OneOpenEach(before)
    requires forall z | z in before && before[z].open :: before[z].transferredTo.None?
    ensures OneOpenEach(after) && forall z | z in after && after[z].open :: after[z].transferredTo.None?
  {
    forall a, b | a in after && b in after && after[a].open && OpenAt(after[b], after[a].branch, after[a].table) ensures a == b {
      assert OpenAt(after[a], after[b].branch, after[b].table);
    }
  }

  lemma JoinedChains(before: map<string, Session>, after: map<string, Session>, x: string, y: string)
    requires Joined(before, after, x, y) && (forall z | z in before :: Ends(before, z))
    requires forall z | z in before && before[z].open :: before[z].transferredTo.None?
    ensures forall z | z in after :: Ends(after, z)
    ensures forall a, b | Reaches(before, a, b) :: Reaches(after, a, if b == x then y else b)
  {
    hide Reaches, Ends;
    ChainExtended(before, after, x, y);
    forall z | z in after ensures Ends(after, z) {
      if z in before {
        EndKept(before, after, z, x, y);
      } else {
        EndFound(after, y, y);
      }
    }
  }

  /** After a move the source is closed and sent on to the target, which is an open end; the chains that
      ended at the source end at the target. */
  lemma MoveKeeps(s: State, id: string, table: string, merge: bool, newSession: string, newBill: string, firstLine: nat)
    requires SessionsInv(s) && newSession !in s.sessions && MoveSession(s, id, table, merge, newSession, newBill, firstLine).Ok?
    ensures var t, target := MoveSession(s, id, table, merge, newSession, newBill, firstLine).value, Target(s, id, table, newSession);
            && SessionsInv(t) && Joined(s.sessions, t.sessions, id, target)
            && (forall a, b | Reaches(s.sessions, a, b) :: Reaches(t.sessions, a, if b == id then target else b))
  {
    hide Reaches, MoveSession, Target, Ends, OneOpenEach, Joined;
    MoveJoins(s, id, table, merge, newSession, newBill, firstLine);
    var t, target := MoveSession(s, id, table, merge, newSession, newBill, firstLine).value, Target(s, id, table, newSession);
    JoinedChains(s.sessions, t.sessions, id, target);
    JoinedOpen(s.sessions, t.sessions, id, target);
  }

  /******* Guests *******/

  function Guests(sessions: map<string, Session>, ids: seq<string>): (guests: nat)
    ensures (forall id | id in ids :: !(id in sessions && sessions[id].open)) ==> guests == 0
  {
    if ids == [] then 0
    else
      var id := ids[|ids| - 1];
      Guests(sessions, ids[..|ids| - 1]) + if id in sessions && sessions[id].open then sessions[id].guests else 0
  }

  lemma {:induction false} GuestsOfOne(sessions: map<string, Session>, ids: seq<string>, x: string, record: Session)
    requires Distinct(ids)
    ensures Guests(sessions[x := record], ids)
            == Guests(sessions, ids) + if x in ids then (if record.open then record.guests else 0) - (if x in sessions && sessions[x].open then sessions[x].guests else 0) else 0
  {
    if ids != [] {
      var init := ids[..|ids| - 1];
      GuestsOfOne(sessions, init, x, record);
      assert ids == init + [ids[|ids| - 1]];
    }
  }

  /** A move seats the same number of guests as before. */
  lemma MoveConservesGuests(s: State, id: string, table: string, merge: bool, newSession: string, newBill: string, firstLine: nat)
    requires SessionsInv(s) && Listed(s) && newSession !in s.sessions
    requires MoveSession(s, id, table, merge, newSession, newBill, firstLine).Ok?
    ensures var t := MoveSession(s, id, table, merge, newSession, newBill, firstLine).value;
            Guests(t.sessions, t.sessionIds) == Guests(s.sessions, s.sessionIds)
  {
    hide SessionsInv, MoveSession, Target, Guests, O.Apart, Joined;
    MoveJoins(s, id, table, merge, newSession, newBill, firstLine);
    MoveListed(s, id, table, merge, newSession, newBill, firstLine);
    var t, target := MoveSession(s, id, table, merge, newSession, newBill, firstLine).value, Target(s, id, table, newSession);
    JoinedGuests(s.sessions, t.sessions, s.sessionIds, id, target);
    if target !in s.sessions {
      GuestsAppend(t.sessions, s.sessionIds, target);
    }
  }

  lemma JoinedGuests(before: map<string, Session>, after: map<string, Session>, ids: seq<string>, x: string, y: string)
    requires Joined(before, after, x, y) && Distinct(ids) && forall z :: z in ids <==> z in before
    ensures y in after && after[y].open
    ensures Guests(after, ids) + (if y in before then 0 else after[y].guests) == Guests(before, ids)
  {
    hide Guests, OpenAt;
    GuestsOfOne(before, ids, y, after[y]);
    GuestsOfOne(before[y := after[y]], ids, x, after[x]);
    assert y in before ==> before[y].open by { JoinsOpen(before, after, x, y); }
  }

  lemma JoinsOpen(before: map<string, Session>, after: map<string, Session>, x: string, y: string)
    requires Joined(before, after, x, y)
    ensures y in before ==> before[y].open
  {}

  lemma OpenSeats(s: State, id: string, table: string, branch: Option<string>, guests: int)
    requires Listed(s) && id !in s.sessions && OpenSession(s, id, table, branch, guests).Ok?
    ensures var t := OpenSession(s, id, table, branch, guests).value;
            Guests(t.sessions, t.sessionIds) == Guests(s.sessions, s.sessionIds) + guests
  {
    hide Guests, FindOpen, O.Apart;
    var t := OpenSession(s, id, table, branch, guests).value;
    assert t.sessions == s.sessions[id := t.sessions[id]] && t.sessionIds == s.sessionIds + [id];
    GuestsAppend(t.sessions, s.sessionIds, id);
    GuestsOfOne(s.sessions, s.sessionIds, id, t.sessions[id]);
  }

  lemma CloseFrees(s: State, id: string)
    requires Listed(s) && CloseSession(s, id).Ok?
    ensures id in s.sessions
    ensures var t := CloseSession(s, id).value;
            Guests(t.sessions, t.sessionIds) == Guests(s.sessions, s.sessionIds) - s.sessions[id].guests
  {
    hide Guests, SessionOrders, BillComplete, O.Apart;
    GuestsOfOne(s.sessions, s.sessionIds, id, s.sessions[id].(open := false));
  }

  lemma MoveListed(s: State, id: string, table: string, merge: bool, newSession: string, newBill: string, firstLine: nat)
    requires newSession !in s.sessions && MoveSession(s, id, table, merge, newSession, newBill, firstLine).Ok?
    ensures var t, target := MoveSession(s, id, table, merge, newSession, newBill, firstLine).value, Target(s, id, table, newSession);
            && t.sessionIds == (if target in s.sessions then s.sessionIds else s.sessionIds + [newSession])
            && (target !in s.sessions ==> target == newSession)
  {
    hide MovedItems, MoveOrders, L.TransferBills;
  }

  lemma GuestsAppend(sessions: map<string, Session>, ids: seq<string>, id: string)
    ensures Guests(sessions, ids + [id]) == Guests(sessions, ids) + if id in sessions && sessions[id].open then sessions[id].guests else 0
  {
    assert (ids + [id])[..|ids|] == ids;
  }

  /******* Orders *******/

  predicate Finished(o: O.Order) {
    o.status.Delivered? || o.status.Cancelled?
  }

  /** Every order of a session is listed, sits at the end of its session's chain, and is delivered or
      cancelled once that session is closed. */
  ghost predicate OrdersInv(s: State) {
    && O.Inv(s.store)
    && (forall id | id in s.store.orders :: id in s.orderIds)
    && (forall id | id in s.store.orders && s.store.orders[id].session.Some? :: Seated(s.sessions, s.store.orders[id]))
  }

  predicate Seated(sessions: map<string, Session>, o: O.Order)
    requires o.session.Some?
  {
    End(sessions, o.session.value) && (sessions[o.session.value].open || Finished(o))
  }

  /** Between two states: no order is lost, and each has gone where its session's chain leads. */
  ghost predicate Carried(s: State, t: State) {
    forall k | k in s.store.orders :: k in t.store.orders && Followed(s.sessions, t.sessions, s.store.orders[k], t.store.orders[k])
  }

  ghost predicate Followed(before: map<string, Session>, after: map<string, Session>, o: O.Order, p: O.Order) {
    && O.Evolves(o, p) && o.session.Some? == p.session.Some?
    && (o.session.Some? ==> forall x | Reaches(before, x, o.session.value) :: Reaches(after, x, p.session.value))
  }

  lemma MoveOrderKeeps(o: O.Order, target: string)
    requires O.OrderInv(o)
    ensures O.OrderInv(MoveOrder(o, target)) && O.Evolves(o, MoveOrder(o, target))
  {
    hide O.Sound, O.Subtotal;
    var moved := o.(session := Some(target), log := o.log + [O.TableTransferred(o.session, target)]);
    O.NoteKeeps(o, moved, O.TableTransferred(o.session, target));
  }

  lemma {:induction false} MoveOrdersKeeps(store: O.Store, ids: seq<string>, source: string, target: string)
    requires O.Inv(store) && source != target
    ensures var after := MoveOrders(store, ids, source, target);
            && O.Inv(after) && after.orders.Keys == store.orders.Keys
            && forall id | id in store.orders ::
                 after.orders[id] == if id in ids && store.orders[id].session == Some(source) then MoveOrder(store.orders[id], target) else store.orders[id]
  {
    hide O.Inv, O.SyncKds, MoveOrder;
    if ids != [] {
      var init, id := ids[..|ids| - 1], ids[|ids| - 1];
      assert ids == init + [id];
      MoveOrdersKeeps(store, init, source, target);
      var s := MoveOrders(store, init, source, target);
      MovedAway(target);
      if id in s.orders && s.orders[id].session == Some(source) {
        StoreMoved(s, id, target);
      }
    }
  }

  lemma MovedAway(target: string)
    ensures forall o: O.Order :: MoveOrder(o, target).session == Some(target)
  {}

  lemma StoreMoved(s: O.Store, id: string, target: string)
    requires O.Inv(s) && id in s.orders
    ensures var o := MoveOrder(s.orders[id], target); O.Inv(O.Store(s.orders[id := o], O.SyncKds(s.kds, o)))
  {
    hide O.OrderInv, O.SyncKds;
    MoveOrderKeeps(s.orders[id], target);
    O.OrderStored(s, MoveOrder(s.orders[id], target));
  }

  lemma MoveOrdersSeated(s: State, id: string, table: string, merge: bool, newSession: string, newBill: string, firstLine: nat)
    requires SessionsInv(s) && OrdersInv(s) && newSession !in s.sessions && MoveSession(s, id, table, merge, newSession, newBill, firstLine).Ok?
    ensures var t, target := MoveSession(s, id, table, merge, newSession, newBill, firstLine).value, Target(s, id, table, newSession);
            && t.orderIds == s.orderIds && t.store == MoveOrders(s.store, s.orderIds, id, target)
  {
    hide Ends, OneOpenEach, MovedItems, MoveOrders, L.TransferBills, O.Inv;
  }

  lemma MoveKeepsOrders(s: State, id: string, table: string, merge: bool, newSession: string, newBill: string, firstLine: nat)
    requires SessionsInv(s) && OrdersInv(s) && newSession !in s.sessions && MoveSession(s, id, table, merge, newSession, newBill, firstLine).Ok?
    ensures var t, target := MoveSession(s, id, table, merge, newSession, newBill, firstLine).value, Target(s, id, table, newSession);
            && OrdersInv(t) && t.store.orders.Keys == s.store.orders.Keys && Carried(s, t)
            && forall k | k in s.store.orders :: t.store.orders[k] == if s.store.orders[k].session == Some(id) then MoveOrder(s.store.orders[k], target) else s.store.orders[k]
  {
    hide Ends, OneOpenEach, MoveSession, Target, MoveOrders, Reaches, O.Inv, O.Evolves, O.OrderInv, MoveOrder;
    MoveKeeps(s, id, table, merge, newSession, newBill, firstLine);
    MoveOrdersSeated(s, id, table, merge, newSession, newBill, firstLine);
    var t, target := MoveSession(s, id, table, merge, newSession, newBill, firstLine).value, Target(s, id, table, newSession);
    MoveOrdersKeeps(s.store, s.orderIds, id, target);
    forall k | k in s.store.orders
      ensures Followed(s.sessions, t.sessions, s.store.orders[k], t.store.orders[k])
      ensures t.store.orders[k].session.Some? ==> Seated(t.sessions, t.store.orders[k])
    {
      var o := s.store.orders[k];
      StoredOrder(s.store, k);
      OneEvolves(o);
      MoveOrderKeeps(o, target);
      MovedAway(target);
      if o.session.Some? {
        assert Seated(s.sessions, o);
      }
    }
  }

  lemma OneEvolves(o: O.Order)
    ensures O.Evolves(o, o)
  {}

  lemma StoredOrder(store: O.Store, k: string)
    requires O.Inv(store) && k in store.orders
    ensures O.OrderInv(store.orders[k]) && store.orders[k].id == k
  {}

  /** Orders of a session that is closed by its guests leaving are all finished. */
  lemma CloseFinishes(s: State, id: string)
    requires OrdersInv(s) && CloseSession(s, id).Ok?
    ensures forall k | k in s.store.orders && s.store.orders[k].session == Some(id) :: Finished(s.store.orders[k])
  {
    hide O.Inv, BillComplete;
    forall k | k in s.store.orders && s.store.orders[k].session == Some(id) ensures Finished(s.store.orders[k]) {
      assert s.store.orders[k] in SessionOrders(s.store.orders, s.orderIds, {id});
    }
  }

  lemma CloseKeepsOrders(s: State, id: string)
    requires SessionsInv(s) && OrdersInv(s) && CloseSession(s, id).Ok?
    ensures OrdersInv(CloseSession(s, id).value)
  {
    hide O.Inv, CloseSession, Ends, OneOpenEach;
    CloseFinishes(s, id);
    CloseShape(s, id);
    var t := CloseSession(s, id).value;
    forall k | k in s.store.orders && s.store.orders[k].session.Some? ensures Seated(t.sessions, s.store.orders[k]) {
      assert Seated(s.sessions, s.store.orders[k]);
    }
  }

  lemma CloseShape(s: State, id: string)
    requires CloseSession(s, id).Ok?
    ensures id in s.sessions && s.sessions[id].open
    ensures CloseSession(s, id).value == s.(sessions := s.sessions[id := s.sessions[id].(open := false)])
  {
    hide BillComplete, SessionOrders;
  }

  /** Only a move changes the session of an order. */
  lemma MutateStays(o: O.Order, m: O.Mutation)
    requires O.Mutate(o, m).Ok? && !m.MoveTo?
    ensures O.Mutate(o, m).value.session == o.session
  {
    hide O.ModifyItem, O.BuiltItems, O.RoleAllows;
    if m.Edit? {
      ModifyStays(O.AddItems(o, O.BuiltItems(m.addItems)), m.modifyItems);
    }
  }

  lemma {:induction false} ModifyStays(o: O.Order, ms: seq<O.Modification>)
    requires O.ModifyItems(o, ms).Ok?
    ensures O.ModifyItems(o, ms).value.session == o.session && O.ModifyItems(o, ms).value.status == o.status
    ensures O.Ids(O.ModifyItems(o, ms).value.items) == O.Ids(o.items)
  {
    if ms != [] {
      var init := O.ModifyItems(o, ms[..|ms| - 1]).value;
      ModifyStays(o, ms[..|ms| - 1]);
      O.SameIds(init.items, O.ModifyItem(init, ms[|ms| - 1]).value.items);
    }
  }

  lemma CarriedUnmoved(s: State, t: State)
    requires forall a, b | Reaches(s.sessions, a, b) :: Reaches(t.sessions, a, b)
    requires forall k | k in s.store.orders :: k in t.store.orders && O.Evolves(s.store.orders[k], t.store.orders[k]) && t.store.orders[k].session == s.store.orders[k].session
    ensures Carried(s, t)
  {
    hide Reaches, O.Evolves;
  }

  /** What an update makes of its order in the store. */
  lemma ChangedOrder(s: State, id: string, expectedVersion: nat, m: O.Mutation, stockDeducted: bool)
    requires OrdersInv(s) && UpdateOrder(s, id, expectedVersion, m, stockDeducted).Ok? && O.FreshIds(s.store, O.Update(id, expectedVersion, m))
    ensures var t := UpdateOrder(s, id, expectedVersion, m, stockDeducted).value;
            && t.sessions == s.sessions && t.sessionIds == s.sessionIds && t.orderIds == s.orderIds && t.standalone == s.standalone
            && !m.MoveTo? && id in s.store.orders && O.Mutate(s.store.orders[id], m).Ok?
            && t.store.orders == s.store.orders[id := O.Mutate(s.store.orders[id], m).value.(version := s.store.orders[id].version + 1)]
            && O.Inv(t.store) && O.Evolves(s.store.orders[id], t.store.orders[id])
            && t.store.orders[id].session == s.store.orders[id].session
            && (s.store.orders[id].session.Some? ==>
                  RemoveFromBill(s.bills, s.store.orders[id].session.value, Withdrawn(s.store.orders[id], m)) == Ok(t.bills))
            && (s.store.orders[id].session.None? ==> t.bills == s.bills)
  {
    UpdateShape(s, id, expectedVersion, m, stockDeducted);
    O.NextInv(s.store, O.Update(id, expectedVersion, m));
    hide UpdateOrder, O.Inv, O.Evolves;
    MutateStays(s.store.orders[id], m);
  }

  lemma UpdateShape(s: State, id: string, expectedVersion: nat, m: O.Mutation, stockDeducted: bool)
    requires UpdateOrder(s, id, expectedVersion, m, stockDeducted).Ok?
    ensures var t := UpdateOrder(s, id, expectedVersion, m, stockDeducted).value;
            && t.sessions == s.sessions && t.sessionIds == s.sessionIds && t.orderIds == s.orderIds && t.standalone == s.standalone
            && !m.MoveTo? && id in s.store.orders && O.Mutate(s.store.orders[id], m).Ok?
            && t.store.orders == s.store.orders[id := O.Mutate(s.store.orders[id], m).value.(version := s.store.orders[id].version + 1)]
            && t.store == O.Next(s.store, O.Update(id, expectedVersion, m))
            && (s.store.orders[id].session.Some? ==>
                  RemoveFromBill(s.bills, s.store.orders[id].session.value, Withdrawn(s.store.orders[id], m)) == Ok(t.bills))
            && (s.store.orders[id].session.None? ==> t.bills == s.bills)
  {
    hide O.Mutate, O.SyncKds, O.Permitted, L.Editable, RemoveFromBill, Withdrawn;
  }

  /** A finished order stays finished. */
  lemma SeatedForever(sessions: map<string, Session>, o: O.Order, p: O.Order)
    requires o.session.Some? && Seated(sessions, o) && O.Evolves(o, p) && p.session == o.session
    ensures Seated(sessions, p)
  {}

  lemma ChangeKeepsOrders(s: State, id: string, expectedVersion: nat, m: O.Mutation, stockDeducted: bool)
    requires OrdersInv(s) && UpdateOrder(s, id, expectedVersion, m, stockDeducted).Ok? && O.FreshIds(s.store, O.Update(id, expectedVersion, m))
    ensures var t := UpdateOrder(s, id, expectedVersion, m, stockDeducted).value;
            && OrdersInv(t) && Carried(s, t)
  {
    hide UpdateOrder, O.Inv, O.Mutate, O.Evolves, RemoveFromBill, Withdrawn, Carried, OrdersInv;
    ChangedOrder(s, id, expectedVersion, m, stockDeducted);
    OneChanged(s, UpdateOrder(s, id, expectedVersion, m, stockDeducted).value, id);
  }

  lemma OneChanged(s: State, t: State, id: string)
    requires OrdersInv(s) && t.sessions == s.sessions && t.orderIds == s.orderIds && O.Inv(t.store) && id in s.store.orders
    requires t.store.orders.Keys == s.store.orders.Keys && forall k | k in s.store.orders && k != id :: t.store.orders[k] == s.store.orders[k]
    requires O.Evolves(s.store.orders[id], t.store.orders[id]) && t.store.orders[id].session == s.store.orders[id].session
    ensures OrdersInv(t) && Carried(s, t)
  {
    hide O.Inv, O.Evolves, Reaches, Seated, Carried;
    forall k | k in s.store.orders ensures O.Evolves(s.store.orders[k], t.store.orders[k]) {
      OneEvolves(s.store.orders[k]);
    }
    if s.store.orders[id].session.Some? {
      SeatedForever(s.sessions, s.store.orders[id], t.store.orders[id]);
    }
    CarriedUnmoved(s, t);
  }

  lemma CreateShape(s: State, order: string, session: Option<string>, items: seq<O.Item>)
    requires Perform(s, CreateOrder(order, session, items)).Ok?
    ensures var t := Perform(s, CreateOrder(order, session, items)).value;
            && t == s.(store := O.Next(s.store, O.Create(order, session, items)), orderIds := s.orderIds + [order])
            && O.Perform(s.store, O.Create(order, session, items)).Ok?
            && (session.Some? ==> session.value in s.sessions && s.sessions[session.value].open)
  {
    hide O.Perform;
  }

  lemma CreatedStore(store: O.Store, order: string, session: Option<string>, items: seq<O.Item>)
    requires order !in store.orders && O.Perform(store, O.Create(order, session, items)).Ok?
    ensures var after := O.Next(store, O.Create(order, session, items)).orders;
            order in after && after[order].session == session && after == store.orders[order := after[order]]
  {
    hide O.SyncKds;
  }

  lemma CreateKeepsOrders(s: State, order: string, session: Option<string>, items: seq<O.Item>)
    requires SessionsInv(s) && OrdersInv(s) && O.FreshIds(s.store, O.Create(order, session, items)) && Perform(s, CreateOrder(order, session, items)).Ok?
    ensures var t := Perform(s, CreateOrder(order, session, items)).value;
            && OrdersInv(t) && Carried(s, t) && t.sessions == s.sessions && t.sessionIds == s.sessionIds && t.bills == s.bills && t.standalone == s.standalone
            && order !in s.store.orders && order in t.store.orders && t.store.orders == s.store.orders[order := t.store.orders[order]]
  {
    hide Ends, OneOpenEach, Reaches, O.Inv, O.Evolves, O.Next, O.Perform, O.NewItems, Perform;
    CreateShape(s, order, session, items);
    CreatedStore(s.store, order, session, items);
    O.NextInv(s.store, O.Create(order, session, items));
    CarriedUnmoved(s, Perform(s, CreateOrder(order, session, items)).value);
  }

  /******* Bill lines *******/

  ghost predicate LiveIn(o: O.Order, session: string, itemId: string) {
    o.session == Some(session) && !o.status.Cancelled? && itemId in O.Ids(o.items)
  }

  /** Some order of the session that is not cancelled has the item. */
  ghost predicate Live(orders: map<string, O.Order>, session: string, itemId: string) {
    exists k :: k in orders && LiveIn(orders[k], session, itemId)
  }

  ghost predicate LinesLive(orders: map<string, O.Order>, session: string, bill: B.Bill) {
    forall l | F.On(bill, l) :: Live(orders, session, l.orderItemId)
  }

  /** Every bill belongs to a session and balances, and unless it took lines while the session had no
      orders, each of its lines is for an item of a live order of that session. */
  ghost predicate BillsInv(s: State) {
    && L.Inv(s.bills) && (forall b | b in s.bills :: b in s.sessions)
    && forall b | b in s.bills && b !in s.standalone :: LinesLive(s.store.orders, b, s.bills[b])
  }

  lemma {:induction false} IdsMember(items: seq<O.Item>, id: string)
    ensures id in O.Ids(items) <==> exists i :: i in items && i.id == id
  {
    O.IdsAt(items);
    if i :| i in items && i.id == id {
      var k :| 0 <= k < |items| && items[k] == i;
      assert O.Ids(items)[k] == id;
    }
    if id in O.Ids(items) {
      var k :| 0 <= k < |items| && O.Ids(items)[k] == id;
      assert items[k] in items;
    }
  }

  /** An item that an update does not withdraw stays live. */
  lemma UpdateKeepsLive(o: O.Order, m: O.Mutation, itemId: string)
    requires O.Mutate(o, m).Ok? && !m.MoveTo? && !o.status.Cancelled? && itemId in O.Ids(o.items) && itemId !in Withdrawn(o, m)
    ensures var p := O.Mutate(o, m).value; !p.status.Cancelled? && itemId in O.Ids(p.items)
  {
    hide O.ModifyItem, O.BuiltItems, O.RoleAllows, O.Find, O.ModifyItems, O.Keep;
    var p := O.Mutate(o, m).value;
    match m
    case Edit(addItems, modifyItems, removed) =>
      var added := O.AddItems(o, O.BuiltItems(addItems));
      O.IdsConcat(o.items, O.BuiltItems(addItems));
      ModifyStays(added, modifyItems);
      KeepsId(O.ModifyItems(added, modifyItems).value.items, removed, itemId);
    case Cancel(_, _) =>
    case VoidItem(id, _) => KeepsId(o.items, [id], itemId);
    case Transition(roles, next) =>
      var r :| r in roles && O.RoleAllows(r, o.status, next);
      O.FlowsForward(r, o.status, next);
    case MoveTo(_) =>
  }

  lemma KeepsId(items: seq<O.Item>, removed: seq<string>, id: string)
    requires id in O.Ids(items) && id !in removed
    ensures id in O.Ids(O.Keep(items, removed)) && O.Keep(items, removed) != []
  {
    IdsMember(items, id);
    var i :| i in items && i.id == id;
    O.KeepMembers(items, removed);
    assert i in O.Keep(items, removed);
    IdsMember(O.Keep(items, removed), id);
  }

  lemma {:induction false} RemoveFromBillKeeps(bills: L.Bills, session: string, ids: seq<string>)
    requires L.Inv(bills) && RemoveFromBill(bills, session, ids).Ok?
    ensures var after := RemoveFromBill(bills, session, ids).value;
            && L.Inv(after) && after.Keys == bills.Keys && (forall b | b in bills && b != session :: after[b] == bills[b])
            && (session in bills ==> forall l | F.On(after[session], l) :: F.On(bills[session], l) && l.orderItemId !in ids)
  {
    hide L.Inv, F.On;
    if ids != [] {
      var some := RemoveFromBill(bills, session, ids[..|ids| - 1]).value;
      RemoveFromBillKeeps(bills, session, ids[..|ids| - 1]);
      RemoveOne(some, session, ids[|ids| - 1]);
      assert ids == ids[..|ids| - 1] + [ids[|ids| - 1]];
    }
  }

  lemma RemoveOne(bills: L.Bills, session: string, id: string)
    requires L.Inv(bills) && L.Perform(bills, L.RemoveVoidedItem(session, id)).Ok?
    ensures var after := L.Perform(bills, L.RemoveVoidedItem(session, id)).value;
            && L.Inv(after) && after.Keys == bills.Keys && (forall b | b in bills && b != session :: after[b] == bills[b])
            && (session in bills ==> forall l | F.On(after[session], l) :: F.On(bills[session], l) && l.orderItemId != id)
  {
    hide L.BillInv, F.On, L.RemoveItem;
    L.NextInv(bills, L.RemoveVoidedItem(session, id));
    if session in bills {
      F.OnBillLines(bills[session], L.RemoveVoidedItem(session, id));
    }
  }

  lemma LiveAfterUpdate(orders: map<string, O.Order>, id: string, p: O.Order, m: O.Mutation, session: string, itemId: string)
    requires id in orders && O.Mutate(orders[id], m).Ok? && !m.MoveTo? && p == O.Mutate(orders[id], m).value.(version := p.version)
    requires Live(orders, session, itemId) && (orders[id].session == Some(session) ==> itemId !in Withdrawn(orders[id], m))
    ensures Live(orders[id := p], session, itemId)
  {
    hide O.Mutate, O.Ids, Withdrawn;
    var k :| k in orders && LiveIn(orders[k], session, itemId);
    var after := orders[id := p];
    if k == id {
      UpdateKeepsLive(orders[id], m, itemId);
      MutateStays(orders[id], m);
    }
    assert k in after && LiveIn(after[k], session, itemId);
  }

  lemma ChangeKeepsBills(s: State, id: string, expectedVersion: nat, m: O.Mutation, stockDeducted: bool)
    requires OrdersInv(s) && BillsInv(s) && UpdateOrder(s, id, expectedVersion, m, stockDeducted).Ok?
    requires O.FreshIds(s.store, O.Update(id, expectedVersion, m))
    ensures BillsInv(UpdateOrder(s, id, expectedVersion, m, stockDeducted).value)
  {
    hide UpdateOrder, O.Inv, O.Mutate, O.Evolves, RemoveFromBill, Withdrawn, OrdersInv, F.On, Live, L.Inv;
    ChangedOrder(s, id, expectedVersion, m, stockDeducted);
    var t, o := UpdateOrder(s, id, expectedVersion, m, stockDeducted).value, s.store.orders[id];
    if o.session.Some? {
      RemoveFromBillKeeps(s.bills, o.session.value, Withdrawn(o, m));
    }
    forall b, l | b in t.bills && b !in t.standalone && F.On(t.bills[b], l) ensures Live(t.store.orders, b, l.orderItemId) {
      assert F.On(s.bills[b], l);
      LiveAfterUpdate(s.store.orders, id, t.store.orders[id], m, b, l.orderItemId);
    }
  }

  lemma CreateKeepsBills(s: State, order: string, session: Option<string>, items: seq<O.Item>)
    requires SessionsInv(s) && OrdersInv(s) && BillsInv(s) && O.FreshIds(s.store, O.Create(order, session, items)) && Perform(s, CreateOrder(order, session, items)).Ok?
    ensures BillsInv(Perform(s, CreateOrder(order, session, items)).value)
  {
    hide Perform, SessionsInv, OrdersInv, Carried, F.On, L.Inv, LiveIn;
    CreateKeepsOrders(s, order, session, items);
    var t := Perform(s, CreateOrder(order, session, items)).value;
    forall b, l | b in t.bills && b !in t.standalone && F.On(t.bills[b], l) ensures Live(t.store.orders, b, l.orderItemId) {
      assert F.On(s.bills[b], l);
      var k :| k in s.store.orders && LiveIn(s.store.orders[k], b, l.orderItemId);
      assert t.store.orders[k] == s.store.orders[k];
    }
  }

  /** An accepted assignment has only live items. */
  lemma AcceptedLive(s: State, session: string, items: seq<seq<B.OrderItem>>, id: string)
    requires AssignmentAccepted(s, session, items) && SessionOrders(s.store.orders, s.orderIds, {session}) != [] && F.Given(items, id)
    ensures Live(s.store.orders, session, id)
  {
    hide SessionOrders, LiveItems, Flat, F.Given, MatchesOrders, Live;
    var orders := SessionOrders(s.store.orders, s.orderIds, {session});
    var i := MatchedItem(items, LiveItems(orders), id);
    ListedLive(s, {session}, i);
  }

  lemma MatchedItem(items: seq<seq<B.OrderItem>>, live: seq<O.Item>, id: string) returns (i: O.Item)
    requires MatchesOrders(Flat(items), live) && F.Given(items, id)
    ensures i in live && i.id == id
  {
    hide Assigned;
    var xs, x :| xs in items && x in xs && x.id == id;
    assert x in Flat(items);
    var found :| found in live && found.id == x.id && found.unitPrice == x.unitPrice;
    i := found;
  }

  lemma ListedLive(s: State, among: set<string>, i: O.Item)
    requires i in LiveItems(SessionOrders(s.store.orders, s.orderIds, among))
    ensures exists x :: x in among && Live(s.store.orders, x, i.id)
  {
    hide O.Ids;
    var o :| o in SessionOrders(s.store.orders, s.orderIds, among) && !o.status.Cancelled? && i in o.items;
    var k :| k in s.orderIds && k in s.store.orders && s.store.orders[k] == o;
    IdsMember(o.items, i.id);
    assert LiveIn(s.store.orders[k], o.session.value, i.id);
  }

  lemma AssignKeepsBills(s: State, a: L.Action)
    requires BillsInv(s) && L.Fresh(s.bills, a) && (a.Generate? || a.AssignItems?) && Bill(s, a).Ok?
    ensures BillsInv(Bill(s, a).value)
  {
    hide BillsInv, F.On, F.Given, AssignmentAccepted, SessionOrders, L.Inv;
    AssignShape(s, a);
    BillsBalance(s);
    L.NextInv(s.bills, a);
    NewLines(s.bills, a);
    LinesAssigned(s, Bill(s, a).value, a.session, a.items);
  }

  lemma BillsBalance(s: State)
    requires BillsInv(s)
    ensures L.Inv(s.bills) && forall b | b in s.bills :: b in s.sessions
  {
    hide L.Inv, LinesLive;
  }

  /** The bill of one session has new lines, all for items that were accepted. */
  lemma LinesAssigned(s: State, t: State, session: string, items: seq<seq<B.OrderItem>>)
    requires BillsInv(s) && L.Inv(t.bills) && t.sessions == s.sessions && t.store == s.store && session in s.sessions
    requires t.bills.Keys == s.bills.Keys + {session} && forall b | b in s.bills && b != session :: t.bills[b] == s.bills[b]
    requires forall l | F.On(t.bills[session], l) :: F.Given(items, l.orderItemId)
    requires AssignmentAccepted(s, session, items) && s.standalone - {session} <= t.standalone
    requires session !in t.standalone ==> SessionOrders(s.store.orders, s.orderIds, {session}) != []
    ensures BillsInv(t)
  {
    hide AssignmentAccepted, F.On, F.Given, Live, L.Inv, SessionOrders;
    forall b, l | b in t.bills && b !in t.standalone && F.On(t.bills[b], l) ensures Live(t.store.orders, b, l.orderItemId) {
      if b == session {
        AcceptedLive(s, b, items, l.orderItemId);
      } else {
        assert LinesLive(s.store.orders, b, s.bills[b]);
      }
    }
  }

  lemma AssignShape(s: State, a: L.Action)
    requires (a.Generate? || a.AssignItems?) && Bill(s, a).Ok?
    ensures var t := Bill(s, a).value;
            && L.Perform(s.bills, a) == Ok(t.bills) && L.Next(s.bills, a) == t.bills && t.sessions == s.sessions && t.store == s.store
            && t.sessionIds == s.sessionIds && t.orderIds == s.orderIds
            && AssignmentAccepted(s, a.session, a.items) && (a.Generate? ==> a.session in s.sessions) && (a.AssignItems? ==> a.session in s.bills)
            && t.standalone <= s.standalone + {a.session} && s.standalone - {a.session} <= t.standalone
            && (a.session !in t.standalone ==> SessionOrders(s.store.orders, s.orderIds, {a.session}) != [])
  {
    hide AssignmentAccepted, SessionOrders, L.OnBill, L.GenerateBill;
  }

  lemma NewLines(bills: L.Bills, a: L.Action)
    requires L.Inv(bills) && (a.Generate? || a.AssignItems?) && L.Perform(bills, a).Ok?
    ensures var after := L.Perform(bills, a).value;
            && after.Keys == bills.Keys + {a.session} && (forall b | b in bills && b != a.session :: after[b] == bills[b])
            && forall l | F.On(after[a.session], l) :: F.Given(a.items, l.orderItemId)
  {
    hide F.On, F.Given, L.GenerateBill, L.UpdateSplitItems, L.BillInv;
    match a
    case Generate(session, billId, items, firstIds, pricing) => F.GeneratedLines(billId, session, items, firstIds, pricing);
    case AssignItems(session, items, firstIds) => F.AssignedLines(bills[session], items, firstIds);
  }

  lemma BillingKeepsBills(s: State, a: L.Action)
    requires BillsInv(s) && L.Fresh(s.bills, a) && Bill(s, a).Ok?
    ensures var t := Bill(s, a).value; BillsInv(t) && t.sessions == s.sessions && t.store == s.store && t.sessionIds == s.sessionIds && t.orderIds == s.orderIds
  {
    hide AssignmentAccepted, F.On, Live, L.BillInv, L.Inv, L.OnBill, L.Fresh, NoteAssignment, L.Next, L.Perform;
    if a.Generate? || a.AssignItems? {
      AssignShape(s, a);
      AssignKeepsBills(s, a);
    } else {
      NextPerformed(s.bills, a);
      var t := Bill(s, a).value;
      L.NextInv(s.bills, a);
      OldLines(s.bills, a);
      forall b, l | b in t.bills && b !in t.standalone && F.On(t.bills[b], l) ensures Live(t.store.orders, b, l.orderItemId) {
        assert F.On(s.bills[b], l);
      }
    }
  }

  lemma NextPerformed(bills: L.Bills, a: L.Action)
    ensures L.Perform(bills, a).Ok? ==> L.Next(bills, a) == L.Perform(bills, a).value
  {
    hide L.Perform;
  }

  lemma OldLines(bills: L.Bills, a: L.Action)
    requires L.Inv(bills) && L.Fresh(bills, a) && !a.Generate? && !a.AssignItems? && !a.Transfer? && L.Perform(bills, a).Ok?
    ensures var after := L.Perform(bills, a).value;
            after.Keys == bills.Keys && forall b, l | b in bills && F.On(after[b], l) :: F.On(bills[b], l)
  {
    hide F.On, L.OnBill, L.BillInv;
    if a.session in bills {
      F.OnBillLines(bills[a.session], a);
    }
  }

  /** What was live in the source is live in the target after a move; other sessions keep what they had. */
  lemma LiveAfterMove(s: State, t: State, id: string, target: string, session: string, itemId: string)
    requires t.store.orders.Keys == s.store.orders.Keys && Live(s.store.orders, session, itemId)
    requires forall k | k in s.store.orders :: t.store.orders[k] == if s.store.orders[k].session == Some(id) then MoveOrder(s.store.orders[k], target) else s.store.orders[k]
    ensures Live(t.store.orders, if session == id then target else session, itemId)
  {
    hide O.Ids;
    var k :| k in s.store.orders && LiveIn(s.store.orders[k], session, itemId);
    assert LiveIn(t.store.orders[k], if session == id then target else session, itemId);
  }

  lemma MoveShape(s: State, id: string, table: string, merge: bool, newSession: string, newBill: string, firstLine: nat)
    requires newSession !in s.sessions && MoveSession(s, id, table, merge, newSession, newBill, firstLine).Ok?
    ensures var t, target := MoveSession(s, id, table, merge, newSession, newBill, firstLine).value, Target(s, id, table, newSession);
            && L.TransferBills(s.bills, id, target, newBill, MovedItems(s, id, target), firstLine) == Ok(t.bills)
            && t.sessions.Keys == s.sessions.Keys + {target} && t.orderIds == s.orderIds
            && t.standalone == (if id in s.standalone then s.standalone + {target} else s.standalone)
            && (target !in s.sessions ==> target == newSession)
  {
    hide MovedItems, MoveOrders, L.TransferBills;
  }

  lemma MoveKeepsBills(s: State, id: string, table: string, merge: bool, newSession: string, newBill: string, firstLine: nat)
    requires SessionsInv(s) && OrdersInv(s) && BillsInv(s) && newSession !in s.sessions && MoveSession(s, id, table, merge, newSession, newBill, firstLine).Ok?
    ensures BillsInv(MoveSession(s, id, table, merge, newSession, newBill, firstLine).value)
  {
    hide MoveSession, Target, SessionsInv, OrdersInv, Carried, L.Inv, L.TransferBills, MovedItems, F.On, Live, MoveOrder;
    MoveShape(s, id, table, merge, newSession, newBill, firstLine);
    MoveKeepsOrders(s, id, table, merge, newSession, newBill, firstLine);
    var t, target := MoveSession(s, id, table, merge, newSession, newBill, firstLine).value, Target(s, id, table, newSession);
    L.TransferInv(s.bills, id, target, newBill, MovedItems(s, id, target), firstLine);
    MovedLines(s.bills, id, target, newBill, MovedItems(s, id, target), firstLine);
    forall b, l | b in t.bills && b !in t.standalone && F.On(t.bills[b], l) ensures Live(t.store.orders, b, l.orderItemId) {
      if b == target && Among(MovedItems(s, id, target), l.orderItemId) {
        MovedItemLive(s, id, target, l.orderItemId);
        var x :| x in {id, target} && Live(s.store.orders, x, l.orderItemId);
        LiveAfterMove(s, t, id, target, x, l.orderItemId);
      } else if b == target && id in s.bills && F.On(s.bills[id], l) {
        LiveAfterMove(s, t, id, target, id, l.orderItemId);
      } else {
        assert F.On(s.bills[b], l);
        LiveAfterMove(s, t, id, target, b, l.orderItemId);
      }
    }
  }

  predicate Among(items: seq<B.OrderItem>, id: string) {
    exists x | x in items :: x.id == id
  }

  lemma MovedItemLive(s: State, source: string, target: string, itemId: string)
    requires Among(MovedItems(s, source, target), itemId)
    ensures exists x :: x in {source, target} && Live(s.store.orders, x, itemId)
  {
    hide LiveItems, SessionOrders, Live;
    var live := LiveItems(SessionOrders(s.store.orders, s.orderIds, {source, target}));
    var x :| x in MovedItems(s, source, target) && x.id == itemId;
    var k :| 0 <= k < |live| && AsBillItems(live)[k] == x;
    assert live[k] in live;
    ListedLive(s, {source, target}, live[k]);
  }

  /** After a transfer the target's lines come from the two bills or from the moved items, and the source
      has none. */
  lemma MovedLines(bills: L.Bills, source: string, target: string, billId: string, items: seq<B.OrderItem>, firstId: nat)
    requires L.Inv(bills) && L.TransferBills(bills, source, target, billId, items, firstId).Ok?
    ensures var after := L.TransferBills(bills, source, target, billId, items, firstId).value;
            && (forall b | b in after :: b in bills || b == target)
            && (forall b, l | b in after && b != target && F.On(after[b], l) :: b != source && F.On(bills[b], l))
            && (target in after ==> forall l | F.On(after[target], l) ::
                  (target in bills && F.On(bills[target], l)) || (source in bills && F.On(bills[source], l)) || Among(items, l.orderItemId))
  {
    hide L.Inv, L.Editable, L.TransferredBill, L.Emptied, F.AddedBy, F.LinesAt, F.On;
    if source in bills || target in bills {
      F.TransferLines(bills, source, target, billId, items, firstId);
      hide L.TransferBills;
      var after := L.TransferBills(bills, source, target, billId, items, firstId).value;
      forall l | F.On(after[target], l)
        ensures (target in bills && F.On(bills[target], l)) || (source in bills && F.On(bills[source], l)) || Among(items, l.orderItemId)
      {
        var i := F.SplitOf(after[target], l);
        LineFrom(bills, source, target, items, firstId, i, l);
      }
      if source in bills {
        NoLines(after[source]);
      }
    }
  }

  lemma LineFrom(bills: L.Bills, source: string, target: string, items: seq<B.OrderItem>, firstId: nat, i: nat, l: B.Line)
    requires l in F.LinesAt(bills, target, i) + F.LinesAt(bills, source, i) + (if i == 0 then F.AddedBy(bills, source, target, items, firstId) else [])
    ensures (target in bills && F.On(bills[target], l)) || (source in bills && F.On(bills[source], l)) || Among(items, l.orderItemId)
  {
    hide F.AddedBy, F.On;
    if l in F.LinesAt(bills, target, i) {
      F.OnSplit(bills[target], i, l);
    } else if l in F.LinesAt(bills, source, i) {
      F.OnSplit(bills[source], i, l);
    } else {
      AddedAmong(bills, source, target, items, firstId, l);
    }
  }

  lemma AddedAmong(bills: L.Bills, source: string, target: string, items: seq<B.OrderItem>, firstId: nat, l: B.Line)
    requires l in F.AddedBy(bills, source, target, items, firstId)
    ensures Among(items, l.orderItemId)
  {
    var unbilled := L.Unbilled(items, F.All(F.Joined(bills, source, target)));
    var k :| 0 <= k < |L.CalculateLines(unbilled, firstId)| && L.CalculateLines(unbilled, firstId)[k] == l;
    assert unbilled[k] in unbilled;
  }

  /******* The whole floor *******/

  ghost predicate Inv(s: State) {
    SessionsInv(s) && OrdersInv(s) && BillsInv(s) && Listed(s)
  }

  predicate Init(s: State) {
    s.sessions == map[] && s.sessionIds == [] && s.store == O.Store(map[], map[]) && s.orderIds == [] && s.bills == map[] && s.standalone == {}
  }

  lemma InitInv(s: State)
    requires Init(s)
    ensures Inv(s)
  {}

  lemma ListedMore(s: State, t: State, id: string)
    requires Listed(s) && t.orderIds == s.orderIds && t.store == s.store && id !in s.sessions
    requires t.sessionIds == s.sessionIds + [id] && t.sessions.Keys == s.sessions.Keys + {id}
    ensures Listed(t)
  {
    hide O.Apart;
  }

  lemma MoveKeepsListed(s: State, id: string, table: string, merge: bool, newSession: string, newBill: string, firstLine: nat)
    requires SessionsInv(s) && OrdersInv(s) && Listed(s) && newSession !in s.sessions && MoveSession(s, id, table, merge, newSession, newBill, firstLine).Ok?
    ensures Listed(MoveSession(s, id, table, merge, newSession, newBill, firstLine).value)
  {
    hide SessionsInv, OrdersInv, MoveSession, Target, Carried, L.TransferBills, MovedItems, MoveOrder, O.ItemIds;
    MoveShape(s, id, table, merge, newSession, newBill, firstLine);
    MoveListed(s, id, table, merge, newSession, newBill, firstLine);
    MoveKeepsOrders(s, id, table, merge, newSession, newBill, firstLine);
    SameItems(Target(s, id, table, newSession));
  }

  lemma SameItems(target: string)
    ensures forall o: O.Order :: MoveOrder(o, target).items == o.items
  {}

  lemma NextListed(s: State, a: Action)
    requires Inv(s) && FreshIds(s, a)
    ensures Listed(Next(s, a))
  {
    hide SessionsInv, OrdersInv, BillsInv, OpenSession, CloseSession, MoveSession, UpdateOrder, Bill, O.FreshIds, L.Fresh, Listed, O.Apart;
    if Perform(s, a).Ok? {
      match a
      case SetTable(table, record) => SameListing(s, Next(s, a));
      case Open(id, table, branch, guests) => OpenShape(s, id, table, branch, guests); ListedMore(s, Next(s, a), id);
      case Close(id) => CloseShape(s, id); SameListing(s, Next(s, a));
      case Move(id, table, merge, newSession, newBill, firstLine) => MoveKeepsListed(s, id, table, merge, newSession, newBill, firstLine);
      case CreateOrder(order, session, items) => CreateListed(s, order, session, items);
      case ChangeOrder(order, v, m, stockDeducted) => ChangeListed(s, order, v, m, stockDeducted);
      case Prepare(order, itemId, progress) => PrepareOnly(s, order, itemId, progress); SameListing(s, Next(s, a));
      case Billing(action) => BillingKeepsBills(s, action); SameListing(s, Next(s, a));
    }
  }

  lemma SameListing(s: State, t: State)
    requires Listed(s) && t.sessionIds == s.sessionIds && t.sessions.Keys == s.sessions.Keys && t.orderIds == s.orderIds && t.store.orders == s.store.orders
    ensures Listed(t)
  {
    hide O.Apart;
  }

  /** What the kitchen reports changes the kitchen index and nothing else. */
  lemma PrepareOnly(s: State, order: string, itemId: string, progress: O.Progress)
    ensures var t := Next(s, Prepare(order, itemId, progress)); t == s.(store := t.store) && t.store.orders == s.store.orders
    ensures O.Inv(s.store) ==> O.Inv(Next(s, Prepare(order, itemId, progress)).store)
  {
    hide O.Inv, OpenSession, CloseSession, MoveSession, UpdateOrder, Bill;
    if O.Inv(s.store) {
      O.NextInv(s.store, O.SetProgress(order, itemId, progress));
    }
  }

  lemma OpenShape(s: State, id: string, table: string, branch: Option<string>, guests: int)
    requires OpenSession(s, id, table, branch, guests).Ok?
    ensures var t := OpenSession(s, id, table, branch, guests).value;
            && t.sessionIds == s.sessionIds + [id] && t.sessions.Keys == s.sessions.Keys + {id}
            && t.orderIds == s.orderIds && t.store == s.store && t.bills == s.bills
  {
    hide FindOpen;
  }

  lemma CreateListed(s: State, order: string, session: Option<string>, items: seq<O.Item>)
    requires OrdersInv(s) && Listed(s) && O.FreshIds(s.store, O.Create(order, session, items)) && Perform(s, CreateOrder(order, session, items)).Ok?
    ensures Listed(Perform(s, CreateOrder(order, session, items)).value)
  {
    hide O.Apart, O.Inv, O.NewItems, O.Next, O.Perform, Perform;
    CreateShape(s, order, session, items);
    CreatedStore(s.store, order, session, items);
    O.NextApart(s.store, O.Create(order, session, items));
  }

  lemma ChangeListed(s: State, id: string, expectedVersion: nat, m: O.Mutation, stockDeducted: bool)
    requires OrdersInv(s) && Listed(s) && O.FreshIds(s.store, O.Update(id, expectedVersion, m)) && UpdateOrder(s, id, expectedVersion, m, stockDeducted).Ok?
    ensures Listed(UpdateOrder(s, id, expectedVersion, m, stockDeducted).value)
  {
    hide O.Apart, O.Inv, O.FreshIds, O.Next, O.Mutate, UpdateOrder, RemoveFromBill, Withdrawn;
    UpdateShape(s, id, expectedVersion, m, stockDeducted);
    O.NextApart(s.store, O.Update(id, expectedVersion, m));
  }

  /** Every operation keeps all four invariants and carries the orders along. */
  lemma NextInv(s: State, a: Action)
    requires Inv(s) && FreshIds(s, a)
    ensures Inv(Next(s, a)) && Carried(s, Next(s, a))
  {
    hide SessionsInv, OrdersInv, BillsInv, Listed, Carried, OpenSession, CloseSession, MoveSession, UpdateOrder, Bill, O.FreshIds, L.Fresh;
    NextListed(s, a);
    if Perform(s, a).Err? {
      NothingMoved(s, s);
    } else {
      match a
      case SetTable(table, record) => NothingMoved(s, Next(s, a));
      case Open(id, table, branch, guests) => OpenKeeps(s, id, table, branch, guests); OpenKeepsRest(s, id, table, branch, guests);
      case Close(id) => CloseKeeps(s, id); CloseKeepsOrders(s, id); CloseKeepsRest(s, id);
      case Move(id, table, merge, newSession, newBill, firstLine) =>
        MoveKeeps(s, id, table, merge, newSession, newBill, firstLine);
        MoveKeepsOrders(s, id, table, merge, newSession, newBill, firstLine);
        MoveKeepsBills(s, id, table, merge, newSession, newBill, firstLine);
      case CreateOrder(order, session, items) =>
        CreateKeepsOrders(s, order, session, items);
        CreateKeepsBills(s, order, session, items);
        SameSessions(s, Next(s, a));
      case ChangeOrder(order, expectedVersion, m, stockDeducted) =>
        ChangeKeepsOrders(s, order, expectedVersion, m, stockDeducted);
        ChangeKeepsBills(s, order, expectedVersion, m, stockDeducted);
        ChangeKeepsSessions(s, order, expectedVersion, m, stockDeducted);
      case Prepare(order, itemId, progress) => PrepareOnly(s, order, itemId, progress); NothingMoved(s, Next(s, a));
      case Billing(action) =>
        BillingKeepsBills(s, action);
        SameSessions(s, Next(s, a));
        NothingMoved(s, Next(s, a));
    }
  }

  lemma SameSessions(s: State, t: State)
    requires SessionsInv(s) && t.sessions == s.sessions && t.sessionIds == s.sessionIds
    ensures SessionsInv(t)
  {
    hide Ends, OneOpenEach;
  }

  /** Nothing but tables, bills and the kitchen index may differ. */
  lemma NothingMoved(s: State, t: State)
    requires t.sessions == s.sessions && t.sessionIds == s.sessionIds && t.orderIds == s.orderIds
    requires t.store.orders == s.store.orders && (O.Inv(s.store) ==> O.Inv(t.store))
    ensures Carried(s, t) && (OrdersInv(s) ==> OrdersInv(t)) && (SessionsInv(s) ==> SessionsInv(t))
    ensures BillsInv(s) && t.bills == s.bills && t.standalone == s.standalone ==> BillsInv(t)
  {
    hide Ends, OneOpenEach, Reaches, O.Inv, L.Inv, Seated, O.Evolves;
    forall k | k in s.store.orders ensures O.Evolves(s.store.orders[k], s.store.orders[k]) {
      OneEvolves(s.store.orders[k]);
    }
  }

  lemma ChangeKeepsSessions(s: State, id: string, expectedVersion: nat, m: O.Mutation, stockDeducted: bool)
    requires SessionsInv(s) && UpdateOrder(s, id, expectedVersion, m, stockDeducted).Ok?
    ensures SessionsInv(UpdateOrder(s, id, expectedVersion, m, stockDeducted).value)
  {
    UpdateShape(s, id, expectedVersion, m, stockDeducted);
    hide UpdateOrder, Ends, OneOpenEach;
  }

  lemma OpenKeepsRest(s: State, id: string, table: string, branch: Option<string>, guests: int)
    requires SessionsInv(s) && OrdersInv(s) && BillsInv(s) && id !in s.sessions && OpenSession(s, id, table, branch, guests).Ok?
    ensures var t := OpenSession(s, id, table, branch, guests).value; OrdersInv(t) && BillsInv(t) && Carried(s, t)
  {
    hide Ends, OneOpenEach, Reaches, O.Inv, L.Inv, LinesLive, FindOpen, Carried, SessionsInv, O.Evolves;
    OpenKeeps(s, id, table, branch, guests);
    forall k | k in s.store.orders ensures O.Evolves(s.store.orders[k], s.store.orders[k]) {
      OneEvolves(s.store.orders[k]);
    }
    CarriedUnmoved(s, OpenSession(s, id, table, branch, guests).value);
  }

  lemma CloseKeepsRest(s: State, id: string)
    requires SessionsInv(s) && BillsInv(s) && CloseSession(s, id).Ok?
    ensures var t := CloseSession(s, id).value; BillsInv(t) && Carried(s, t)
  {
    hide Ends, OneOpenEach, Reaches, O.Inv, L.Inv, LinesLive, CloseSession, Carried, SessionsInv, O.Evolves;
    CloseShape(s, id);
    CloseKeeps(s, id);
    forall k | k in s.store.orders ensures O.Evolves(s.store.orders[k], s.store.orders[k]) {
      OneEvolves(s.store.orders[k]);
    }
    CarriedUnmoved(s, CloseSession(s, id).value);
  }

  ghost predicate FreshRun(s: State, actions: seq<Action>) {
    forall n | 0 <= n < |actions| :: FreshIds(Run(s, actions[..n]), actions[n])
  }

  lemma FreshPrefix(s: State, actions: seq<Action>, n: nat)
    requires FreshRun(s, actions) && n <= |actions|
    ensures FreshRun(s, actions[..n])
  {
    hide FreshIds;
    forall k | 0 <= k < n ensures FreshIds(Run(s, actions[..n][..k]), actions[..n][k]) {
      assert actions[..n][..k] == actions[..k];
    }
  }

  lemma CarriedTransitive(s: State, t: State, u: State)
    requires Carried(s, t) && Carried(t, u)
    ensures Carried(s, u)
  {
    hide Reaches, O.Evolves;
    forall k | k in s.store.orders ensures Followed(s.sessions, u.sessions, s.store.orders[k], u.store.orders[k]) {
      assert Followed(s.sessions, t.sessions, s.store.orders[k], t.store.orders[k]);
      assert Followed(t.sessions, u.sessions, t.store.orders[k], u.store.orders[k]);
      O.EvolvesTransitive(s.store.orders[k], t.store.orders[k], u.store.orders[k]);
    }
  }

  /** The invariant holds in every state that a run reaches, and the run loses no order. */
  lemma {:induction false} RunInv(s: State, actions: seq<Action>)
    requires Inv(s) && FreshRun(s, actions)
    ensures Inv(Run(s, actions)) && Carried(s, Run(s, actions))
  {
    hide Inv, Next, FreshIds, Carried;
    if actions == [] {
      NothingMoved(s, s);
    } else {
      var n := |actions| - 1;
      FreshPrefix(s, actions, n);
      RunInv(s, actions[..n]);
      assert FreshIds(Run(s, actions[..n]), actions[n]);
      NextInv(Run(s, actions[..n]), actions[n]);
      CarriedTransitive(s, Run(s, actions[..n]), Run(s, actions));
    }
  }

  /** The guests that an operation seats or sees off. */
  function Seating(s: State, a: Action): int {
    if Perform(s, a).Err? then 0
    else
      match a
      case Open(_, _, _, guests) => guests
      case Close(id) => if id in s.sessions then 0 - s.sessions[id].guests else 0
      case _ => 0
  }

  function SeatingOver(s: State, actions: seq<Action>): int {
    if actions == [] then 0
    else SeatingOver(s, actions[..|actions| - 1]) + Seating(Run(s, actions[..|actions| - 1]), actions[|actions| - 1])
  }

  lemma NextGuests(s: State, a: Action)
    requires Inv(s) && FreshIds(s, a)
    ensures Guests(Next(s, a).sessions, Next(s, a).sessionIds) == Guests(s.sessions, s.sessionIds) + Seating(s, a)
  {
    hide SessionsInv, OrdersInv, BillsInv, Listed, Carried, OpenSession, CloseSession, MoveSession, UpdateOrder, Bill, O.FreshIds, L.Fresh, Guests;
    if Perform(s, a).Ok? {
      match a
      case Open(id, table, branch, guests) => OpenSeats(s, id, table, branch, guests);
      case Close(id) => CloseFrees(s, id);
      case Move(id, table, merge, newSession, newBill, firstLine) => MoveConservesGuests(s, id, table, merge, newSession, newBill, firstLine);
      case CreateOrder(order, session, items) => CreateShape(s, order, session, items);
      case ChangeOrder(order, v, m, stockDeducted) => UpdateShape(s, order, v, m, stockDeducted);
      case Prepare(order, itemId, progress) => PrepareOnly(s, order, itemId, progress);
      case Billing(action) => BillingKeepsBills(s, action);
      case _ =>
    }
  }

  /** Over any run, guests come only with an opened session and go only with a closed one; transfers and
      merges neither lose nor invent any. */
  lemma {:induction false} GuestsOfRun(s: State, actions: seq<Action>)
    requires Inv(s) && FreshRun(s, actions)
    ensures Guests(Run(s, actions).sessions, Run(s, actions).sessionIds) == Guests(s.sessions, s.sessionIds) + SeatingOver(s, actions)
  {
    hide Inv, Next, FreshIds, Guests, Seating, Carried;
    if actions != [] {
      var n := |actions| - 1;
      FreshPrefix(s, actions, n);
      GuestsOfRun(s, actions[..n]);
      RunInv(s, actions[..n]);
      assert FreshIds(Run(s, actions[..n]), actions[n]);
      NextGuests(Run(s, actions[..n]), actions[n]);
    }
  }

  /** A table has at most one open session, chains of transfers are no cycles, an order sits in a session
      that was not sent on and is delivered or cancelled if that session is closed, and every line of an
      order-backed bill is for an item of a live order of its session. */
  ghost predicate Agreement(t: State) {
    && (forall x, y | x in t.sessions && y in t.sessions && t.sessions[x].open && OpenAt(t.sessions[y], t.sessions[x].branch, t.sessions[x].table) :: x == y)
    && (forall x | x in t.sessions :: Ends(t.sessions, x))
    && (forall k | k in t.store.orders && t.store.orders[k].session.Some? ::
          var x := t.store.orders[k].session.value;
          End(t.sessions, x) && (t.sessions[x].open || Finished(t.store.orders[k])))
    && (forall b, l | b in t.bills && b !in t.standalone && F.On(t.bills[b], l) :: Live(t.store.orders, b, l.orderItemId))
  }

  lemma InvAgreement(t: State)
    requires Inv(t)
    ensures Agreement(t)
  {
    hide O.Inv, L.Inv, Ends, F.On, Live;
    forall k | k in t.store.orders && t.store.orders[k].session.Some? ensures Seated(t.sessions, t.store.orders[k]) {}
    forall b, l | b in t.bills && b !in t.standalone && F.On(t.bills[b], l) ensures Live(t.store.orders, b, l.orderItemId) {
      assert LinesLive(t.store.orders, b, t.bills[b]);
    }
  }

  /** The agreement holds at every moment of a run from an empty floor. */
  lemma FloorOfRun(s: State, actions: seq<Action>)
    requires Init(s) && FreshRun(s, actions)
    ensures Agreement(Run(s, actions))
  {
    hide Run, FreshRun, Inv, Agreement;
    InitInv(s);
    RunInv(s, actions);
    InvAgreement(Run(s, actions));
  }

  /** Wherever an order starts, it is later found at the end of its session's chain of transfers. */
  lemma OrderFollowsSession(s: State, actions: seq<Action>, order: string)
    requires Inv(s) && FreshRun(s, actions) && order in s.store.orders && s.store.orders[order].session.Some?
    ensures var t := Run(s, actions);
            && order in t.store.orders && t.store.orders[order].session.Some?
            && End(t.sessions, t.store.orders[order].session.value)
            && Reaches(t.sessions, s.store.orders[order].session.value, t.store.orders[order].session.value)
  {
    hide Run, FreshRun, O.Inv, BillsInv, SessionsInv, Reaches, O.Evolves;
    RunInv(s, actions);
    var t := Run(s, actions);
    assert Seated(s.sessions, s.store.orders[order]);
    ReachesItself(s.sessions, s.store.orders[order].session.value);
    assert Followed(s.sessions, t.sessions, s.store.orders[order], t.store.orders[order]);
    assert Seated(t.sessions, t.store.orders[order]);
  }

  /******* Leaving *******/

  lemma SettledBill(bill: B.Bill)
    requires L.BillInv(bill) && (bill.state.Paid? || bill.state.Debt?)
    ensures forall s | s in bill.splits :: s.unpaidBalance == 0 || s.state.Debt?
  {
    hide L.BillInv, B.PriceSplits, B.AmountPaid, L.Balanced, B.Merge, B.ValidPricing;
    BillIsPriced(bill);
    forall s | s in bill.splits ensures s.unpaidBalance == 0 || s.state.Debt? {
      var i :| 0 <= i < |bill.splits| && bill.splits[i] == s;
      PaidSplit(bill.splits, bill.pricing, i);
    }
  }

  lemma BillIsPriced(bill: B.Bill)
    requires L.BillInv(bill) && (bill.state.Paid? || bill.state.Debt?)
    ensures B.PriceSplits(bill.splits, bill.pricing) == Ok(bill.splits) && bill.state == B.BillState(bill.splits)
    ensures forall s | s in bill.splits :: B.AmountPaid(s.payments) >= 0
  {
    hide L.Balanced, B.PriceSplits, B.Merge, B.AmountPaid, B.ValidPricing, B.BillState;
    forall s | s in bill.splits ensures B.AmountPaid(s.payments) >= 0 {
      assert L.SplitInv(s);
      L.BalancedNonNegative(s.payments);
    }
  }

  lemma PaidSplit(splits: seq<B.Split>, pricing: B.Pricing, i: nat)
    requires B.PriceSplits(splits, pricing).Ok? && i < |splits| && B.AmountPaid(splits[i].payments) >= 0
    ensures var s := B.PriceSplits(splits, pricing).value[i]; s.state.Paid? ==> s.unpaidBalance == 0
  {
    hide A.Allocate, B.Tally, B.PromotionAmounts, B.AmountPaid;
  }

  /** Guests leave no order unfinished and, unless their bill was waived, no balance outside debt. */
  lemma CloseLeavesNothing(s: State, id: string)
    requires Inv(s) && CloseSession(s, id).Ok?
    ensures forall k | k in s.store.orders && s.store.orders[k].session == Some(id) :: Finished(s.store.orders[k])
    ensures id in s.bills && !s.bills[id].state.VoidBill? ==> forall x | x in s.bills[id].splits :: x.unpaidBalance == 0 || x.state.Debt?
    ensures (exists k :: k in s.store.orders && s.store.orders[k].session == Some(id)) ==> id in s.bills
  {
    hide O.Inv, SessionsInv, L.BillInv, LinesLive;
    CloseFinishes(s, id);
    if k :| k in s.store.orders && s.store.orders[k].session == Some(id) {
      assert s.store.orders[k] in SessionOrders(s.store.orders, s.orderIds, {id});
    }
    if id in s.bills && !s.bills[id].state.VoidBill? {
      SettledBill(s.bills[id]);
    }
  }

  /******* The bill after a move *******/

  lemma LiveBeforeMove(s: State, t: State, id: string, target: string, itemId: string)
    requires t.store.orders.Keys == s.store.orders.Keys && Live(t.store.orders, target, itemId)
    requires forall k | k in s.store.orders :: t.store.orders[k] == if s.store.orders[k].session == Some(id) then MoveOrder(s.store.orders[k], target) else s.store.orders[k]
    requires forall k | k in s.store.orders :: k in s.orderIds
    ensures Among(MovedItems(s, id, target), itemId)
  {
    hide O.Ids;
    var k :| k in t.store.orders && LiveIn(t.store.orders[k], target, itemId);
    var o := s.store.orders[k];
    assert LiveIn(o, if o.session == Some(id) then id else target, itemId);
    assert o in SessionOrders(s.store.orders, s.orderIds, {id, target});
    IdsMember(o.items, itemId);
    var i :| i in o.items && i.id == itemId;
    ListedMoved(s, id, target, i);
  }

  lemma ListedMoved(s: State, id: string, target: string, i: O.Item)
    requires i in LiveItems(SessionOrders(s.store.orders, s.orderIds, {id, target}))
    ensures Among(MovedItems(s, id, target), i.id)
  {
    hide LiveItems, SessionOrders;
    var live := LiveItems(SessionOrders(s.store.orders, s.orderIds, {id, target}));
    var k :| 0 <= k < |live| && live[k] == i;
    assert AsBillItems(live)[k] in AsBillItems(live);
  }

  /** The lines of both bills stay in their splits, and every item has as many lines as before, except that a
      live item that had none now has exactly one. */
  ghost predicate BillMoved(s: State, t: State, id: string, target: string) {
    && target in t.bills && |t.bills[target].splits| == L.LABELS
    && (forall i | 0 <= i < L.LABELS :: F.LinesAt(s.bills, target, i) + F.LinesAt(s.bills, id, i) <= t.bills[target].splits[i].lines)
    && (forall itemId ::
          F.CountAt(t.bills, target, itemId) == F.CountAt(s.bills, target, itemId) + F.CountAt(s.bills, id, itemId)
            + if Live(t.store.orders, target, itemId) && F.CountAt(s.bills, target, itemId) + F.CountAt(s.bills, id, itemId) == 0 then 1 else 0)
    && (id in s.bills ==> id in t.bills && t.bills[id].state.VoidBill? && forall l :: !F.On(t.bills[id], l))
  }

  lemma {:induction false} SessionItems(orders: map<string, O.Order>, ids: seq<string>, among: set<string>)
    requires Distinct(ids) && O.Apart(orders) && forall k | k in orders :: O.DistinctIds(orders[k].items)
    ensures O.DistinctIds(LiveItems(SessionOrders(orders, ids, among)))
  {
    hide LiveItems;
    if ids == [] {
      NoLiveItems();
    } else {
      var init, last := ids[..|ids| - 1], ids[|ids| - 1];
      SessionItems(orders, init, among);
      var earlier := SessionOrders(orders, init, among);
      if SessionOrders(orders, ids, among) != earlier {
        LiveItemsAppend(earlier, orders[last]);
        forall i, j | i in LiveItems(earlier) && j in orders[last].items ensures i.id != j.id {
          var o :| o in earlier && i in o.items;
          var k :| k in init && k in orders && orders[k] == o;
          assert k != last;
          assert i.id in O.ItemIds(orders[k].items) && j.id in O.ItemIds(orders[last].items);
        }
        DistinctAppend(LiveItems(earlier), orders[last].items);
      }
    }
  }

  lemma NoLiveItems()
    ensures LiveItems([]) == []
  {}

  lemma LiveItemsAppend(orders: seq<O.Order>, o: O.Order)
    ensures LiveItems(orders + [o]) == LiveItems(orders) + if o.status.Cancelled? then [] else o.items
  {
    assert (orders + [o])[..|orders|] == orders;
  }

  lemma DistinctAppend(xs: seq<O.Item>, ys: seq<O.Item>)
    requires O.DistinctIds(xs) && O.DistinctIds(ys) && forall i, j | i in xs && j in ys :: i.id != j.id
    ensures O.DistinctIds(xs + ys) && O.DistinctIds(xs + [])
  {}

  lemma MovedDistinct(s: State, source: string, target: string)
    requires OrdersInv(s) && Listed(s)
    ensures F.DistinctItems(MovedItems(s, source, target))
  {
    hide O.Apart, LiveItems, SessionOrders;
    forall k | k in s.store.orders ensures O.DistinctIds(s.store.orders[k].items) {
      StoredOrder(s.store, k);
      O.InvDistinct(s.store.orders[k]);
    }
    hide O.Inv;
    SessionItems(s.store.orders, s.orderIds, {source, target});
  }

  lemma MovedLive(s: State, t: State, id: string, target: string, itemId: string)
    requires t.store.orders.Keys == s.store.orders.Keys && (forall k | k in s.store.orders :: k in s.orderIds)
    requires forall k | k in s.store.orders :: t.store.orders[k] == if s.store.orders[k].session == Some(id) then MoveOrder(s.store.orders[k], target) else s.store.orders[k]
    ensures Live(t.store.orders, target, itemId) <==> Among(MovedItems(s, id, target), itemId)
  {
    hide MovedItems, MoveOrder, Live;
    if Live(t.store.orders, target, itemId) {
      LiveBeforeMove(s, t, id, target, itemId);
    }
    if Among(MovedItems(s, id, target), itemId) {
      MovedItemLive(s, id, target, itemId);
      var x :| x in {id, target} && Live(s.store.orders, x, itemId);
      LiveAfterMove(s, t, id, target, x, itemId);
    }
  }

  /** After a move, the target's bill has every line of both bills in its split and exactly one line for
      each live item of the session that had none; the source's bill is void and has no line. */
  lemma MoveBillsEverything(s: State, id: string, table: string, merge: bool, newSession: string, newBill: string, firstLine: nat)
    requires Inv(s) && newSession !in s.sessions && MoveSession(s, id, table, merge, newSession, newBill, firstLine).Ok?
    requires id in s.bills || Target(s, id, table, newSession) in s.bills
    ensures var t, target := MoveSession(s, id, table, merge, newSession, newBill, firstLine).value, Target(s, id, table, newSession);
            BillMoved(s, t, id, target)
  {
    hide MoveSession, Target, SessionsInv, OrdersInv, BillsInv, Listed, Carried, L.Inv, L.TransferBills, MovedItems, Live, MoveOrder, F.On, F.AddedBy, F.LinesAt, F.CountAt, F.DistinctItems;
    MoveShape(s, id, table, merge, newSession, newBill, firstLine);
    MoveKeepsOrders(s, id, table, merge, newSession, newBill, firstLine);
    var t, target := MoveSession(s, id, table, merge, newSession, newBill, firstLine).value, Target(s, id, table, newSession);
    var items := MovedItems(s, id, target);
    Balances(s);
    MovedDistinct(s, id, target);
    F.TransferLines(s.bills, id, target, newBill, items, firstLine);
    if id in s.bills {
      NoLines(t.bills[id]);
    }
    forall itemId
      ensures F.CountAt(t.bills, target, itemId) == F.CountAt(s.bills, target, itemId) + F.CountAt(s.bills, id, itemId)
              + if Live(t.store.orders, target, itemId) && F.CountAt(s.bills, target, itemId) + F.CountAt(s.bills, id, itemId) == 0 then 1 else 0
    {
      MovedLive(s, t, id, target, itemId);
      F.TransferCounts(s.bills, id, target, newBill, items, firstLine, itemId);
    }
  }

  lemma Balances(s: State)
    requires OrdersInv(s) && BillsInv(s)
    ensures L.Inv(s.bills) && forall k | k in s.store.orders :: k in s.orderIds
  {
    hide L.Inv, O.Inv;
  }

  lemma NoLines(bill: B.Bill)
    requires forall x | x in bill.splits :: x.lines == []
    ensures forall l :: !F.On(bill, l)
  {}
}
