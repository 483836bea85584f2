/** What an update makes of an order (backend/orders/service.ts): the charges of its items, the quantities
    an edit asks for, and what the kitchen's work forbids. */
module OrderEdits {
  import opened Results
  import Apportionment
  import BillPricing
  import opened OrderBook

  /******* Charges *******/

  /** The item charges quantity times price to the nearest cent. */
  predicate ChargedNearest(i: Item) {
    -0.5 < i.lineTotal as real - i.quantity * i.unitPrice <= 0.5
  }

  function LineTotals(items: seq<Item>): (xs: seq<int>)
    ensures |xs| == |items| && forall k | 0 <= k < |xs| :: xs[k] == items[k].lineTotal
  {
    seq(|items|, k requires 0 <= k < |items| => items[k].lineTotal)
  }

  lemma LineTotalNearest(quantity: real, unitPrice: real)
    ensures -0.5 < LineTotal(quantity, unitPrice) as real - quantity * unitPrice <= 0.5
  {
    BillPricing.RoundNearest(quantity * unitPrice);
  }

  lemma {:induction false} SubtotalIsSum(items: seq<Item>)
    ensures Subtotal(items) == Apportionment.Sum(LineTotals(items))
  {
    if items == [] {
      assert LineTotals(items) == [];
    } else {
      var init, last := items[..|items| - 1], items[|items| - 1];
      SubtotalIsSum(init);
      assert LineTotals(items) == LineTotals(init) + [last.lineTotal];
      Apportionment.SumAppend(LineTotals(init), last.lineTotal);
    }
  }

  lemma OrderCharges(o: Order)
    requires OrderInv(o)
    ensures (forall i | i in o.items :: ChargedNearest(i)) && o.subtotal == Apportionment.Sum(LineTotals(o.items))
  {
    hide LineTotal, Subtotal, DistinctIds;
    forall i | i in o.items ensures ChargedNearest(i) {
      LineTotalNearest(i.quantity, i.unitPrice);
    }
    SubtotalIsSum(o.items);
  }

  /** In every reachable store each item of each order charges its quantity times its price to the nearest
      cent, and the subtotal is the sum of those charges. */
  lemma ChargesOfRun(s: Store, actions: seq<Action>, id: string)
    requires Inv(s) && FreshRun(s, actions) && id in Run(s, actions).orders
    ensures var o := Run(s, actions).orders[id];
            (forall i | i in o.items :: ChargedNearest(i)) && o.subtotal == Apportionment.Sum(LineTotals(o.items))
  {
    hide Run, FreshRun, ChargedNearest, OrderInv, Evolves, Shows;
    RunKeeps(s, actions);
    OrderCharges(Run(s, actions).orders[id]);
  }

  /******* Edits *******/

  /** The last quantity that is asked for an item, or the one it has. */
  function LastAsked(ms: seq<Modification>, id: string, quantity: real): real {
    if ms == [] then quantity
    else
      var last := ms[|ms| - 1];
      if last.id == id && last.quantity.Some? then last.quantity.value else LastAsked(ms[..|ms| - 1], id, quantity)
  }

  predicate AskedAbout(ms: seq<Modification>, id: string) {
    exists m | m in ms :: m.id == id
  }

  /** The same item in the quantity last asked for. */
  predicate Asked(before: Item, after: Item, ms: seq<Modification>) {
    && after.id == before.id && after.menuItemId == before.menuItemId && after.unitPrice == before.unitPrice
    && after.quantity == LastAsked(ms, before.id, before.quantity) && (!AskedAbout(ms, before.id) ==> after == before)
  }

  lemma OneAsked(o: Order, m: Modification)
    requires DistinctIds(o.items) && ModifyItem(o, m).Ok?
    ensures var after := ModifyItem(o, m).value;
            && |after.items| == |o.items|
            && forall k | 0 <= k < |o.items| ::
                 && after.items[k].id == o.items[k].id && after.items[k].menuItemId == o.items[k].menuItemId && after.items[k].unitPrice == o.items[k].unitPrice
                 && after.items[k].quantity == (if o.items[k].id == m.id && m.quantity.Some? then m.quantity.value else o.items[k].quantity)
                 && (o.items[k].id != m.id ==> after.items[k] == o.items[k])
  {
    hide LineTotal;
  }

  lemma AskedNext(ms: seq<Modification>, before: Item, middle: Item, after: Item)
    requires ms != []
    requires Asked(before, middle, ms[..|ms| - 1])
    requires after.id == middle.id && after.menuItemId == middle.menuItemId && after.unitPrice == middle.unitPrice
    requires var m := ms[|ms| - 1];
             && after.quantity == (if middle.id == m.id && m.quantity.Some? then m.quantity.value else middle.quantity)
             && (middle.id != m.id ==> after == middle)
    ensures Asked(before, after, ms)
  {
    if !AskedAbout(ms, before.id) {
      assert ms[|ms| - 1] in ms && forall m | m in ms[..|ms| - 1] :: m in ms;
    }
  }

  /** A changed draft has the same items in the same places, each in the quantity last asked for. */
  lemma {:induction false} AllAsked(o: Order, ms: seq<Modification>)
    requires DistinctIds(o.items) && ModifyItems(o, ms).Ok?
    ensures var after := ModifyItems(o, ms).value;
            |after.items| == |o.items| && forall k | 0 <= k < |o.items| :: Asked(o.items[k], after.items[k], ms)
  {
    hide ModifyItem;
    if ms != [] {
      var init := ms[..|ms| - 1];
      AllAsked(o, init);
      var middle := ModifyItems(o, init).value;
      OneAsked(middle, ms[|ms| - 1]);
      forall k | 0 <= k < |o.items| ensures Asked(o.items[k], ModifyItems(o, ms).value.items[k], ms) {
        AskedNext(ms, o.items[k], middle.items[k], ModifyItems(o, ms).value.items[k]);
      }
    }
  }

  /** Filtering keeps the order of what it keeps. */
  lemma {:induction false} KeepConcat(xs: seq<Item>, ys: seq<Item>, removed: seq<string>)
    ensures Keep(xs + ys, removed) == Keep(xs, removed) + Keep(ys, removed)
  {
    if ys == [] {
      assert xs + ys == xs;
    } else {
      KeepConcat(xs, ys[..|ys| - 1], removed);
      assert (xs + ys)[..|xs + ys| - 1] == xs + ys[..|ys| - 1];
    }
  }

  lemma KeepOne(i: Item, removed: seq<string>)
    ensures Keep([i], removed) == if i.id in removed then [] else [i]
  {
    assert [i][..0] == [];
  }

  lemma {:induction false} KeepMembers(items: seq<Item>, removed: seq<string>)
    ensures forall i :: i in Keep(items, removed) <==> i in items && i.id !in removed
  {
    if items != [] {
      KeepMembers(items[..|items| - 1], removed);
      assert items == items[..|items| - 1] + [items[|items| - 1]];
    }
  }

  /** The same dish at the same price under the same id, in the quantity last asked for. */
  predicate Becomes(before: Item, after: Item, ms: seq<Modification>) {
    && after.id == before.id && after.menuItemId == before.menuItemId && after.unitPrice == before.unitPrice
    && after.quantity == LastAsked(ms, before.id, before.quantity)
  }

  /** What the draft holds before anything is removed: place by place the old and the added items. */
  lemma PlaceByPlace(o: Order, addItems: seq<Item>, ms: seq<Modification>)
    requires OrderInv(o) && FreshItems(addItems, o) && ModifyItems(AddItems(o, BuiltItems(addItems)), ms).Ok?
    ensures var all, modified := o.items + addItems, ModifyItems(AddItems(o, BuiltItems(addItems)), ms).value;
            && |modified.items| == |all| && modified.session == o.session && modified.status == o.status
            && (forall k | 0 <= k < |all| :: Becomes(all[k], modified.items[k], ms))
            && forall k | 0 <= k < |o.items| && !AskedAbout(ms, o.items[k].id) :: modified.items[k] == o.items[k]
  {
    hide LineTotal, ModifyItems, LastAsked, AskedAbout, DistinctIds, OrderInv;
    EditedItems(o, addItems);
    var draft := AddItems(o, BuiltItems(addItems));
    AllAsked(draft, ms);
    SameHeader(draft, ms);
    var modified := ModifyItems(draft, ms).value;
    forall k | 0 <= k < |o.items + addItems|
      ensures Becomes((o.items + addItems)[k], modified.items[k], ms)
      ensures k < |o.items| && !AskedAbout(ms, o.items[k].id) ==> modified.items[k] == o.items[k]
    {
      assert Asked(draft.items[k], modified.items[k], ms);
    }
  }

  /** The items `after` are exactly those of `before` that are not removed, each in the quantity last asked
      for. */
  ghost predicate EditedTo(before: seq<Item>, after: seq<Item>, ms: seq<Modification>, removed: seq<string>) {
    && (forall y | y in before && y.id !in removed :: exists x :: x in after && Becomes(y, x, ms))
    && (forall x | x in after :: x.id !in removed && exists y :: y in before && Becomes(y, x, ms))
  }

  lemma FilteredPlaces(before: seq<Item>, modified: seq<Item>, ms: seq<Modification>, removed: seq<string>)
    requires |modified| == |before| && forall k | 0 <= k < |before| :: Becomes(before[k], modified[k], ms)
    ensures EditedTo(before, Keep(modified, removed), ms, removed)
  {
    KeepMembers(modified, removed);
    hide Keep, LastAsked;
    forall y | y in before && y.id !in removed ensures exists x :: x in Keep(modified, removed) && Becomes(y, x, ms) {
      var k :| 0 <= k < |before| && before[k] == y;
      assert modified[k] in modified && Becomes(y, modified[k], ms);
    }
    forall x | x in Keep(modified, removed) ensures exists y :: y in before && Becomes(y, x, ms) {
      var k :| 0 <= k < |modified| && modified[k] == x;
      assert before[k] in before && Becomes(before[k], x, ms);
    }
  }

  /** A successful edit leaves exactly the old and the added items that it does not remove, each in the
      quantity last asked for, and those it says nothing about as they were. */
  lemma EditMeans(o: Order, addItems: seq<Item>, modifyItems: seq<Modification>, removeItemIds: seq<string>)
    requires OrderInv(o) && Admissible(o, Edit(addItems, modifyItems, removeItemIds)) && Mutate(o, Edit(addItems, modifyItems, removeItemIds)).Ok?
    ensures var after := Mutate(o, Edit(addItems, modifyItems, removeItemIds)).value;
            && after.session == o.session && after.status == o.status && EditedTo(o.items + addItems, after.items, modifyItems, removeItemIds)
            && forall y | y in o.items && y.id !in removeItemIds && !AskedAbout(modifyItems, y.id) :: y in after.items
  {
    hide LineTotal, Subtotal, Keep, ModifyItems, AddItems, BuiltItems, AskedAbout, OrderInv, EditedTo, Becomes, FreshItems;
    PlaceByPlace(o, addItems, modifyItems);
    var modified := ModifyItems(AddItems(o, BuiltItems(addItems)), modifyItems).value;
    FilteredPlaces(o.items + addItems, modified.items, modifyItems, removeItemIds);
    KeepMembers(modified.items, removeItemIds);
    forall y | y in o.items && y.id !in removeItemIds && !AskedAbout(modifyItems, y.id) ensures y in modified.items {
      var k :| 0 <= k < |o.items| && o.items[k] == y;
      assert modified.items[k] == y;
    }
  }

  /** Pricing the added items changes neither their ids nor what is ordered. */
  lemma EditedItems(o: Order, addItems: seq<Item>)
    requires OrderInv(o) && FreshItems(addItems, o)
    ensures DistinctIds(o.items + BuiltItems(addItems))
    ensures forall k | 0 <= k < |o.items + addItems| ::
              var x, y := (o.items + BuiltItems(addItems))[k], (o.items + addItems)[k];
              x.id == y.id && x.menuItemId == y.menuItemId && x.unitPrice == y.unitPrice && x.quantity == y.quantity
  {
    hide LineTotal;
    var xs, ys := o.items + BuiltItems(addItems), o.items + addItems;
    assert forall k | 0 <= k < |ys| :: xs[k].id == ys[k].id;
    forall i, j | 0 <= i < j < |xs| ensures xs[i].id != xs[j].id {
      assert ys[i].id != ys[j].id;
    }
  }

  lemma {:induction false} SameHeader(o: Order, ms: seq<Modification>)
    requires ModifyItems(o, ms).Ok?
    ensures ModifyItems(o, ms).value.session == o.session && ModifyItems(o, ms).value.status == o.status
  {
    hide ModifyItem;
    if ms != [] {
      SameHeader(o, ms[..|ms| - 1]);
      HeaderKept(ModifyItems(o, ms[..|ms| - 1]).value, ms[|ms| - 1]);
    }
  }

  lemma HeaderKept(o: Order, m: Modification)
    requires ModifyItem(o, m).Ok?
    ensures ModifyItem(o, m).value.session == o.session && ModifyItem(o, m).value.status == o.status
  {}

  /******* What the kitchen has prepared *******/

  /** The kitchen has the item and neither waits to prepare it nor is still at it. */
  predicate Cooked(kds: Kds, o: Order, itemId: string) {
    (o.id, itemId) in kds && kds[(o.id, itemId)].progress != Queued && kds[(o.id, itemId)].progress != Preparing
  }

  lemma CookedIff(kds: Kds, o: Order)
    ensures forall itemId :: Cooked(kds, o, itemId) <==> Prepared(kds, o, itemId)
  {}

  lemma {:induction false} NeverLess(ms: seq<Modification>, id: string, quantity: real)
    requires forall m | m in ms && m.id == id && m.quantity.Some? :: m.quantity.value >= quantity
    ensures LastAsked(ms, id, quantity) >= quantity
  {
    if ms != [] {
      assert ms[|ms| - 1] in ms && forall m | m in ms[..|ms| - 1] :: m in ms;
      NeverLess(ms[..|ms| - 1], id, quantity);
    }
  }

  /** An edit that goes through leaves every item that the kitchen has prepared, and every item of a completed
      order, on the order in at least its quantity. */
  lemma PreparedStay(s: Store, id: string, version: nat, addItems: seq<Item>, modifyItems: seq<Modification>, removeItemIds: seq<string>, i: Item)
    requires var a := Update(id, version, Edit(addItems, modifyItems, removeItemIds)); Inv(s) && FreshIds(s, a) && Perform(s, a).Ok?
    requires i in s.orders[id].items
    requires s.orders[id].status.Completed? || Cooked(s.kds, s.orders[id], i.id)
    ensures var after := Perform(s, Update(id, version, Edit(addItems, modifyItems, removeItemIds))).value;
            id in after.orders && exists x :: x in after.orders[id].items && x.id == i.id && x.quantity >= i.quantity
  {
    if id in s.orders { CookedIff(s.kds, s.orders[id]); }
    hide Mutate, OrderInv, Shows, SyncKds, FreshItems, Prepared, Cooked, LastAsked;
    var o, m := s.orders[id], Edit(addItems, modifyItems, removeItemIds);
    assert Permitted(s.kds, o, m) && !Reduces(m, i);
    EditMeans(o, addItems, modifyItems, removeItemIds);
    assert i in o.items + addItems && i.id !in removeItemIds;
    NeverLess(modifyItems, i.id, i.quantity);
    hide Perform, Permitted;
    var x :| x in Mutate(o, m).value.items && Becomes(i, x, modifyItems);
    EditStored(s, id, version, m);
  }

  lemma EditStored(s: Store, id: string, version: nat, m: Mutation)
    requires Perform(s, Update(id, version, m)).Ok?
    ensures id in s.orders && Mutate(s.orders[id], m).Ok?
    ensures var after := Perform(s, Update(id, version, m)).value; id in after.orders && after.orders[id].items == Mutate(s.orders[id], m).value.items
  {
    hide Mutate, SyncKds, Permitted;
  }

  /** Without a manager no order is cancelled that is completed or delivered, or of which the kitchen has
      prepared an item. */
  lemma PreparedNotCancelled(s: Store, id: string, version: nat, hasReason: bool)
    requires Perform(s, Update(id, version, Cancel(hasReason, false))).Ok?
    ensures hasReason && id in s.orders && !s.orders[id].status.Completed? && !s.orders[id].status.Delivered?
    ensures forall i | i in s.orders[id].items :: !Cooked(s.kds, s.orders[id], i.id)
  {
    hide Mutate, SyncKds;
  }

  /******* When an update goes through *******/

  /** The order has the item, and the quantity asked for is positive. */
  predicate Feasible(items: seq<Item>, m: Modification) {
    (exists i | i in items :: i.id == m.id) && (m.quantity.Some? ==> m.quantity.value > 0.0)
  }

  lemma OneFeasible(o: Order, m: Modification)
    ensures ModifyItem(o, m).Ok? <==> Feasible(o.items, m)
    ensures ModifyItem(o, m).Ok? ==> forall n :: Feasible(ModifyItem(o, m).value.items, n) <==> Feasible(o.items, n)
  {
    hide LineTotal;
    var found := Find(o.items, m.id);
    if found.Some? {
      assert o.items[found.value] in o.items;
    } else {
      forall i | i in o.items ensures i.id != m.id {
        var k :| 0 <= k < |o.items| && o.items[k] == i;
      }
    }
    if ModifyItem(o, m).Ok? {
      SameIdsFeasible(o.items, ModifyItem(o, m).value.items);
    }
  }

  lemma SameIdsFeasible(xs: seq<Item>, ys: seq<Item>)
    requires |xs| == |ys| && forall k | 0 <= k < |xs| :: xs[k].id == ys[k].id
    ensures forall m :: Feasible(xs, m) <==> Feasible(ys, m)
  {
    forall m: Modification ensures (exists i | i in xs :: i.id == m.id) <==> exists i | i in ys :: i.id == m.id {
      if i :| i in xs && i.id == m.id {
        var k :| 0 <= k < |xs| && xs[k] == i;
        assert ys[k] in ys;
      }
      if i :| i in ys && i.id == m.id {
        var k :| 0 <= k < |ys| && ys[k] == i;
        assert xs[k] in xs;
      }
    }
  }

  lemma {:induction false} AllFeasible(o: Order, ms: seq<Modification>)
    ensures ModifyItems(o, ms).Ok? <==> forall m | m in ms :: Feasible(o.items, m)
    ensures ModifyItems(o, ms).Ok? ==> forall n :: Feasible(ModifyItems(o, ms).value.items, n) <==> Feasible(o.items, n)
  {
    hide ModifyItem, Feasible;
    if ms != [] {
      var init, last := ms[..|ms| - 1], ms[|ms| - 1];
      assert ms == init + [last];
      AllFeasible(o, init);
      if ModifyItems(o, init).Ok? { OneFeasible(ModifyItems(o, init).value, last); }
    }
  }

  /** An edit of an order that is not delivered succeeds exactly if every change is of an item that is there or
      added, to a positive quantity. */
  lemma EditSucceedsIff(o: Order, addItems: seq<Item>, modifyItems: seq<Modification>, removeItemIds: seq<string>)
    ensures Mutate(o, Edit(addItems, modifyItems, removeItemIds)).Ok? <==>
              !o.status.Delivered? && forall m | m in modifyItems :: Feasible(o.items + addItems, m)
  {
    hide ModifyItems, Feasible, RemoveItems, Subtotal;
    AllFeasible(AddItems(o, BuiltItems(addItems)), modifyItems);
    SameIdsFeasible(o.items + BuiltItems(addItems), o.items + addItems);
  }

  /** The edit takes the item off the order or asks for less of it. */
  predicate TakesFrom(i: Item, modifyItems: seq<Modification>, removeItemIds: seq<string>) {
    i.id in removeItemIds || exists m | m in modifyItems :: m.id == i.id && m.quantity.Some? && m.quantity.value < i.quantity
  }

  /** An edit goes through the service exactly on the version the caller has seen, if what is added is positive,
      if nothing is taken from an order that is completed or from an item the kitchen has prepared, and if the
      edit itself succeeds. */
  lemma EditGoesThroughIff(s: Store, id: string, version: nat, addItems: seq<Item>, modifyItems: seq<Modification>, removeItemIds: seq<string>)
    ensures Perform(s, Update(id, version, Edit(addItems, modifyItems, removeItemIds))).Ok? <==>
              && id in s.orders && s.orders[id].version == version && (forall i | i in addItems :: i.quantity > 0.0)
              && (forall i | i in s.orders[id].items && TakesFrom(i, modifyItems, removeItemIds) ::
                    !s.orders[id].status.Completed? && !s.orders[id].status.Delivered? && !Cooked(s.kds, s.orders[id], i.id))
              && Mutate(s.orders[id], Edit(addItems, modifyItems, removeItemIds)).Ok?
  {
    if id in s.orders { CookedIff(s.kds, s.orders[id]); }
    hide Mutate, SyncKds, Prepared, Cooked;
    var m := Edit(addItems, modifyItems, removeItemIds);
    if id in s.orders {
      forall i | i in s.orders[id].items ensures Reduces(m, i) <==> TakesFrom(i, modifyItems, removeItemIds) {}
    }
  }

  /** An order is cancelled exactly on the version the caller has seen, with a reason, if it is not cancelled yet
      and a manager agrees, or else if it is not completed or delivered and none of its items is prepared. */
  lemma CancelGoesThroughIff(s: Store, id: string, version: nat, hasReason: bool, manager: bool)
    ensures Perform(s, Update(id, version, Cancel(hasReason, manager))).Ok? <==>
              && id in s.orders && s.orders[id].version == version && hasReason && !s.orders[id].status.Cancelled?
              && (manager || (!s.orders[id].status.Completed? && !s.orders[id].status.Delivered?
                              && forall i | i in s.orders[id].items :: !Cooked(s.kds, s.orders[id], i.id)))
  {
    if id in s.orders { CookedIff(s.kds, s.orders[id]); }
    hide SyncKds, Prepared, Cooked;
  }

  /** An item is voided exactly on the version the caller has seen, with a reason, off an order that has it and
      is not cancelled. */
  lemma VoidGoesThroughIff(s: Store, id: string, version: nat, itemId: string, hasReason: bool)
    ensures Perform(s, Update(id, version, VoidItem(itemId, hasReason))).Ok? <==>
              && id in s.orders && s.orders[id].version == version && hasReason && !s.orders[id].status.Cancelled?
              && exists i | i in s.orders[id].items :: i.id == itemId
  {
    hide SyncKds, Keep;
    if id in s.orders {
      var items := s.orders[id].items;
      var found := Find(items, itemId);
      if found.Some? {
        assert items[found.value] in items;
      } else {
        forall i | i in items ensures i.id != itemId {
          var k :| 0 <= k < |items| && items[k] == i;
        }
      }
    }
  }

  /** Orders are created exactly of positive quantities. A new order is pending in its first version, has the
      items asked for and nothing in its log. */
  lemma CreateSucceedsIff(s: Store, id: string, session: Option<string>, items: seq<Item>)
    ensures var r := Perform(s, Create(id, session, items));
            && (r.Ok? <==> forall i | i in items :: i.quantity > 0.0)
            && (r.Ok? ==> id in r.value.orders
                          && var o := r.value.orders[id];
                             && o.id == id && o.session == session && o.status.Pending? && o.version == 1 && o.log == [] && |o.items| == |items|
                             && (forall k | 0 <= k < |items| :: Becomes(items[k], o.items[k], []))
                             && r.value.orders == s.orders[id := o])
  {
    hide LineTotal, Subtotal, SyncKds;
  }

  /** What the kitchen is told about a row it has is stored in that row and nowhere else. */
  lemma ProgressStored(s: Store, orderId: string, itemId: string, progress: Progress)
    ensures var r := Perform(s, SetProgress(orderId, itemId, progress));
            && (r.Ok? <==> (orderId, itemId) in s.kds)
            && (r.Ok? ==> && r.value.orders == s.orders && r.value.kds.Keys == s.kds.Keys
                          && r.value.kds[(orderId, itemId)] == Row(s.kds[(orderId, itemId)].session, s.kds[(orderId, itemId)].quantity, progress)
                          && forall k | k in s.kds && k != (orderId, itemId) :: r.value.kds[k] == s.kds[k])
  {}

  /******* The status flow *******/

  /** The status that comes next on the way from pending to delivered. */
  predicate Follows(before: Status, after: Status) {
    match before
    case Pending => after.InPreparation?
    case InPreparation => after.Completed?
    case Completed => after.Delivered?
    case _ => false
  }

  /** A transition succeeds exactly to the next status, for somebody of the front of house, or of the kitchen
      if the order is in preparation. */
  lemma TransitionIff(o: Order, roles: seq<Role>, next: Status)
    ensures Mutate(o, Transition(roles, next)).Ok? <==>
              Follows(o.status, next) && (FrontOfHouse in roles || (Kitchen in roles && o.status.InPreparation?))
    ensures Mutate(o, Transition(roles, next)).Ok? ==> Mutate(o, Transition(roles, next)).value.status == next
  {
    forall r | r in roles ensures RoleAllows(r, o.status, next) <==>
      Follows(o.status, next) && (r.FrontOfHouse? || (r.Kitchen? && o.status.InPreparation?)) {}
  }

  /** Cancelling cancels and leaves the items; voiding removes the one item and cancels an order that is left
      without any. */
  lemma CancelledOrVoided(o: Order, m: Mutation)
    requires (m.Cancel? || m.VoidItem?) && Mutate(o, m).Ok?
    ensures var after := Mutate(o, m).value;
            && !o.status.Cancelled? && after.session == o.session
            && (m.Cancel? ==> after.status.Cancelled? && after.items == o.items)
            && (m.VoidItem? ==> (forall i :: i in after.items <==> i in o.items && i.id != m.itemId)
                                && (exists i :: i in o.items && i.id == m.itemId)
                                && after.status == if after.items == [] then Cancelled else o.status)
  {
    if m.VoidItem? {
      KeepMembers(o.items, [m.itemId]);
      var k := Find(o.items, m.itemId).value;
      assert o.items[k] in o.items;
    }
  }

  /******* The kitchen index *******/

  /** A row that is there keeps its progress through a sync; a new one starts where the order stands. */
  lemma SyncProgress(kds: Kds, o: Order, i: Item)
    requires DistinctIds(o.items) && i in o.items
    ensures var r := SyncKds(kds, o);
            && (o.id, i.id) in r
            && ((o.id, i.id) in kds ==> r[(o.id, i.id)].progress == kds[(o.id, i.id)].progress)
            && ((o.id, i.id) !in kds ==> r[(o.id, i.id)].progress == match o.status case Pending => Queued case InPreparation => Preparing case Completed => Ready case _ => Served)
  {
    var k :| 0 <= k < |o.items| && o.items[k] == i;
    hide DefaultProgress, UpsertItem;
    ProgressUpserted(kds - Stale(kds, o), o, |o.items|, k);
    assert o.items[..|o.items|] == o.items;
    Started(o.status);
  }

  lemma Started(status: Status)
    ensures DefaultProgress(status) == match status case Pending => Queued case InPreparation => Preparing case Completed => Ready case _ => Served
  {}

  lemma {:induction false} ProgressUpserted(kds: Kds, o: Order, n: nat, k: nat)
    requires DistinctIds(o.items) && k < |o.items| && n <= |o.items|
    ensures var r, at := UpsertItems(kds, o, o.items[..n]), (o.id, o.items[k].id);
            if k < n then at in r && r[at].progress == (if at in kds then kds[at].progress else DefaultProgress(o.status))
            else (at in r <==> at in kds) && (at in kds ==> r[at] == kds[at])
    decreases n
  {
    hide DefaultProgress;
    if n == 0 {
      assert o.items[..0] == [];
    } else {
      assert o.items[..n][..n - 1] == o.items[..n - 1] && o.items[..n][n - 1] == o.items[n - 1];
      ProgressUpserted(kds, o, n - 1, k);
    }
  }

  /******* What is logged *******/

  function Notes(ids: seq<string>, note: string -> Entry): seq<Entry> {
    seq(|ids|, k requires 0 <= k < |ids| => note(ids[k]))
  }

  function ModifiedIds(ms: seq<Modification>): seq<string> {
    seq(|ms|, k requires 0 <= k < |ms| => ms[k].id)
  }

  lemma {:induction false} NotesAppend(ids: seq<string>, id: string, note: string -> Entry)
    ensures Notes(ids + [id], note) == Notes(ids, note) + [note(id)]
  {}

  lemma {:induction false} AddedNotes(items: seq<Item>)
    ensures AddedEntries(items) == Notes(Ids(items), id => ItemAdded(id))
  {
    if items != [] {
      AddedNotes(items[..|items| - 1]);
      NotesAppend(Ids(items[..|items| - 1]), items[|items| - 1].id, id => ItemAdded(id));
    }
  }

  lemma {:induction false} ModifiedNotes(o: Order, ms: seq<Modification>)
    requires ModifyItems(o, ms).Ok?
    ensures ModifyItems(o, ms).value.log == o.log + Notes(ModifiedIds(ms), id => ItemModified(id))
  {
    hide LineTotal;
    if ms != [] {
      var init, last := ms[..|ms| - 1], ms[|ms| - 1];
      ModifiedNotes(o, init);
      assert ModifiedIds(ms) == ModifiedIds(init) + [last.id];
      NotesAppend(ModifiedIds(init), last.id, id => ItemModified(id));
    }
  }

  /** The ids to be removed, in the order in which the order lists their items. */
  function RemovedIds(ids: seq<string>, removed: seq<string>): seq<string> {
    if ids == [] then [] else RemovedIds(ids[..|ids| - 1], removed) + if ids[|ids| - 1] in removed then [ids[|ids| - 1]] else []
  }

  lemma {:induction false} RemovedNotes(items: seq<Item>, removed: seq<string>)
    ensures RemovedEntries(items, removed) == Notes(RemovedIds(Ids(items), removed), id => ItemRemoved(id))
  {
    if items != [] {
      var init, last := items[..|items| - 1], items[|items| - 1];
      RemovedNotes(init, removed);
      assert Ids(items)[..|Ids(items)| - 1] == Ids(init);
      NotesAppend(RemovedIds(Ids(init), removed), last.id, id => ItemRemoved(id));
    }
  }

  lemma {:induction false} IdsAt(items: seq<Item>)
    ensures |Ids(items)| == |items| && forall k | 0 <= k < |items| :: Ids(items)[k] == items[k].id
  {
    if items != [] { IdsAt(items[..|items| - 1]); }
  }

  lemma SameIds(xs: seq<Item>, ys: seq<Item>)
    requires |xs| == |ys| && forall k | 0 <= k < |xs| :: xs[k].id == ys[k].id
    ensures Ids(xs) == Ids(ys)
  {
    IdsAt(xs);
    IdsAt(ys);
  }

  lemma {:induction false} ModifiedInPlace(o: Order, ms: seq<Modification>)
    requires ModifyItems(o, ms).Ok?
    ensures Ids(ModifyItems(o, ms).value.items) == Ids(o.items)
  {
    hide LineTotal, Ids;
    if ms != [] {
      var before, after := ModifyItems(o, ms[..|ms| - 1]).value, ModifyItems(o, ms).value;
      ModifiedInPlace(o, ms[..|ms| - 1]);
      SameIds(before.items, after.items);
    }
  }

  /** An edit writes to the log, in this order, one entry for each item it adds, for each change and for each
      item it removes. */
  lemma EditLogged(o: Order, addItems: seq<Item>, modifyItems: seq<Modification>, removeItemIds: seq<string>)
    requires Mutate(o, Edit(addItems, modifyItems, removeItemIds)).Ok?
    ensures Mutate(o, Edit(addItems, modifyItems, removeItemIds)).value.log ==
            o.log + Notes(Ids(addItems), id => ItemAdded(id)) + Notes(ModifiedIds(modifyItems), id => ItemModified(id))
            + Notes(RemovedIds(Ids(o.items + addItems), removeItemIds), id => ItemRemoved(id))
  {
    hide ModifyItems, Subtotal, Keep, Ids, Notes, RemovedIds, ModifiedIds, AddedEntries, RemovedEntries;
    var built := BuiltItems(addItems);
    var draft := AddItems(o, built);
    var modified := ModifyItems(draft, modifyItems).value;
    AddedNotes(built);
    SameIds(built, addItems);
    ModifiedNotes(draft, modifyItems);
    RemovedNotes(modified.items, removeItemIds);
    ModifiedInPlace(draft, modifyItems);
    SameIds(o.items + built, o.items + addItems);
  }

}
