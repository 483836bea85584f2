/** Orders and the kitchen index that follows them (backend/orders/service.ts,
    backend/orders/repository.ts, backend/kds/service.ts). */
module OrderBook {
  import opened Results
  import BillPricing

  datatype Status = Pending | InPreparation | Completed | Delivered | Cancelled

  datatype Item = Item(id: string, menuItemId: string, quantity: real, unitPrice: real, lineTotal: int)

  /** The actions of the change log that the model records; a status change also records both ends. */
  datatype Entry =
    | ItemAdded(itemId: string)
    | ItemModified(itemId: string)
    | ItemRemoved(itemId: string)
    | StatusTransition(before: Status, after: Status)
    | OrderCancelled(before: Status)
    | TableTransferred(fromSession: Option<string>, toSession: string)

  datatype Order = Order(id: string, session: Option<string>, status: Status, items: seq<Item>, subtotal: int, version: nat, log: seq<Entry>)

  /******* Totals *******/

  function LineTotal(quantity: real, unitPrice: real): int {
    BillPricing.Round(quantity * unitPrice)
  }

  function Subtotal(items: seq<Item>): int {
    if items == [] then 0 else Subtotal(items[..|items| - 1]) + items[|items| - 1].lineTotal
  }

  function Ids(items: seq<Item>): seq<string> {
    if items == [] then [] else Ids(items[..|items| - 1]) + [items[|items| - 1].id]
  }

  /** An item as the menu prices it. */
  function Built(i: Item): Item {
    i.(lineTotal := LineTotal(i.quantity, i.unitPrice))
  }

  function BuiltItems(items: seq<Item>): (built: seq<Item>)
    ensures |built| == |items| && forall i | 0 <= i < |items| :: built[i] == Built(items[i])
  {
    seq(|items|, i requires 0 <= i < |items| => Built(items[i]))
  }

  /******* Changes to a draft *******/

  datatype Modification = Modification(id: string, quantity: Option<real>)

  function AddedEntries(items: seq<Item>): seq<Entry> {
    if items == [] then [] else AddedEntries(items[..|items| - 1]) + [ItemAdded(items[|items| - 1].id)]
  }

  function AddItems(o: Order, items: seq<Item>): Order {
    o.(items := o.items + items, log := o.log + AddedEntries(items))
  }

  function Find(items: seq<Item>, id: string): (r: Option<nat>)
    ensures r.Some? ==> r.value < |items| && items[r.value].id == id
    ensures r.None? ==> forall i | 0 <= i < |items| :: items[i].id != id
  {
    if items == [] then None
    else
      var earlier := Find(items[..|items| - 1], id);
      if earlier.Some? then earlier else if items[|items| - 1].id == id then Some(|items| - 1) else None
  }

  function ModifyItem(o: Order, m: Modification): Result<Order> {
    var found := Find(o.items, m.id);
    if found.None? then Err("Order item not found.")
    else if m.quantity.Some? && m.quantity.value <= 0.0 then Err("Item quantity must be greater than zero.")
    else
      var target := o.items[found.value];
      var quantity := if m.quantity.Some? then m.quantity.value else target.quantity;
      var changed := target.(quantity := quantity, lineTotal := LineTotal(quantity, target.unitPrice));
      Ok(o.(items := o.items[found.value := changed], log := o.log + [ItemModified(m.id)]))
  }

  function ModifyItems(o: Order, ms: seq<Modification>): Result<Order> {
    if ms == [] then Ok(o)
    else
      var done :- ModifyItems(o, ms[..|ms| - 1]);
      ModifyItem(done, ms[|ms| - 1])
  }

  function Keep(items: seq<Item>, removed: seq<string>): seq<Item> {
    if items == [] then []
    else
      var kept := Keep(items[..|items| - 1], removed);
      if items[|items| - 1].id in removed then kept else kept + [items[|items| - 1]]
  }

  function RemovedEntries(items: seq<Item>, removed: seq<string>): seq<Entry> {
    if items == [] then []
    else
      var entries := RemovedEntries(items[..|items| - 1], removed);
      if items[|items| - 1].id in removed then entries + [ItemRemoved(items[|items| - 1].id)] else entries
  }

  function RemoveItems(o: Order, removed: seq<string>): Order {
    o.(items := Keep(o.items, removed), log := o.log + RemovedEntries(o.items, removed))
  }

  datatype Role = FrontOfHouse | Kitchen | OtherRole

  predicate RoleAllows(role: Role, before: Status, after: Status) {
    match role
    case FrontOfHouse => (before, after) in {(Pending, InPreparation), (InPreparation, Completed), (Completed, Delivered)}
    case Kitchen => before.InPreparation? && after.Completed?
    case OtherRole => false
  }

  datatype Mutation =
    | Edit(addItems: seq<Item>, modifyItems: seq<Modification>, removeItemIds: seq<string>)
    | Cancel(hasReason: bool, manager: bool)
    | VoidItem(itemId: string, hasReason: bool)
    | Transition(roles: seq<Role>, next: Status)
    | MoveTo(session: string)

  /** What each kind of update makes of the draft. */
  function Mutate(o: Order, m: Mutation): Result<Order> {
    match m
    case Edit(addItems, modifyItems, removeItemIds) =>
      if o.status.Delivered? then Err("Delivered orders cannot be modified.")
      else
        var modified :- ModifyItems(AddItems(o, BuiltItems(addItems)), modifyItems);
        var left := RemoveItems(modified, removeItemIds);
        Ok(left.(subtotal := Subtotal(left.items)))
    case Cancel(_, _) =>
      if o.status.Cancelled? then Err("Order is already cancelled.")
      else Ok(o.(status := Cancelled, log := o.log + [OrderCancelled(o.status)]))
    case VoidItem(itemId, _) =>
      if o.status.Cancelled? then Err("Order is already cancelled.")
      else if Find(o.items, itemId).None? then Err("Order item not found.")
      else
        var items := Keep(o.items, [itemId]);
        Ok(o.(items := items, subtotal := Subtotal(items), log := o.log + [ItemRemoved(itemId)],
              status := if items == [] then Cancelled else o.status))
    case Transition(roles, next) =>
      if forall r | r in roles :: !RoleAllows(r, o.status, next) then Err("Forbidden transition.")
      else Ok(o.(status := next, log := o.log + [StatusTransition(o.status, next)]))
    case MoveTo(session) =>
      Ok(o.(session := Some(session), log := o.log + [TableTransferred(o.session, session)]))
  }

  /** The edit as the service runs it: items are pushed, changed and filtered one after another. */
  method EditDraft(o: Order, addItems: seq<Item>, modifyItems: seq<Modification>, removeItemIds: seq<string>) returns (r: Result<Order>)
    ensures r == Mutate(o, Edit(addItems, modifyItems, removeItemIds))
  {
    if o.status.Delivered? { return Err("Delivered orders cannot be modified."); }
    var draft := o;
    var itemsToAdd := BuiltItems(addItems);
    for i := 0 to |itemsToAdd|
      invariant draft == AddItems(o, itemsToAdd[..i])
    {
      assert itemsToAdd[..i + 1][..i] == itemsToAdd[..i];
      draft := draft.(items := draft.items + [itemsToAdd[i]], log := draft.log + [ItemAdded(itemsToAdd[i].id)]);
      assert draft.items == o.items + itemsToAdd[..i + 1];
    }
    assert itemsToAdd[..|itemsToAdd|] == itemsToAdd;
    r := ModifyDraft(draft, modifyItems);
    if r.Err? { return; }
    draft := r.value;
    var kept, entries := SplitItems(draft.items, removeItemIds);
    r := Ok(draft.(items := kept, log := draft.log + entries, subtotal := Subtotal(kept)));
  }

  method ModifyDraft(o: Order, modifyItems: seq<Modification>) returns (r: Result<Order>)
    ensures r == ModifyItems(o, modifyItems)
  {
    var draft := o;
    for i := 0 to |modifyItems|
      invariant ModifyItems(o, modifyItems[..i]) == Ok(draft)
    {
      assert modifyItems[..i + 1][..i] == modifyItems[..i];
      var step := ModifyItem(draft, modifyItems[i]);
      if step.Err? {
        ModifyFails(o, modifyItems, i + 1);
        return step;
      }
      draft := step.value;
    }
    assert modifyItems[..|modifyItems|] == modifyItems;
    r := Ok(draft);
  }

  method SplitItems(items: seq<Item>, removed: seq<string>) returns (kept: seq<Item>, entries: seq<Entry>)
    ensures kept == Keep(items, removed) && entries == RemovedEntries(items, removed)
  {
    kept, entries := [], [];
    for i := 0 to |items|
      invariant kept == Keep(items[..i], removed) && entries == RemovedEntries(items[..i], removed)
    {
      assert items[..i + 1][..i] == items[..i];
      if items[i].id in removed {
        entries := entries + [ItemRemoved(items[i].id)];
      } else {
        kept := kept + [items[i]];
      }
    }
    assert items[..|items|] == items;
  }

  lemma {:induction false} ModifyFails(o: Order, ms: seq<Modification>, i: nat)
    requires i <= |ms| && ModifyItems(o, ms[..i]).Err?
    ensures ModifyItems(o, ms) == ModifyItems(o, ms[..i])
    decreases |ms|
  {
    if i == |ms| {
      assert ms[..i] == ms;
    } else {
      assert ms[..|ms| - 1][..i] == ms[..i];
      ModifyFails(o, ms[..|ms| - 1], i);
    }
  }

  /******* What an update keeps *******/

  /** Later statuses only; a cancelled order stays cancelled. */
  function Rank(s: Status): nat {
    match s
    case Pending => 0
    case InPreparation => 1
    case Completed => 2
    case Delivered => 3
    case Cancelled => 4
  }

  function Added(log: seq<Entry>): seq<string> {
    if log == [] then []
    else Added(log[..|log| - 1]) + if log[|log| - 1].ItemAdded? then [log[|log| - 1].itemId] else []
  }

  function Removed(log: seq<Entry>): seq<string> {
    if log == [] then []
    else Removed(log[..|log| - 1]) + if log[|log| - 1].ItemRemoved? then [log[|log| - 1].itemId] else []
  }

  /** Ids that are on the order or were logged as removed. */
  function Seen(o: Order): multiset<string> {
    multiset(Ids(o.items)) + multiset(Removed(o.log))
  }

  /** Between two states of an order the log only grows, the status only moves on, and every item that
      came or went is in the log: live and removed ids differ by exactly the ids logged as added. */
  ghost predicate Evolves(before: Order, after: Order) {
    && before.id == after.id && before.version <= after.version && before.log <= after.log
    && Rank(before.status) <= Rank(after.status)
    && Seen(before) + multiset(Added(after.log)) == Seen(after) + multiset(Added(before.log))
  }

  ghost predicate OrderInv(o: Order) {
    && o.version >= 1 && o.subtotal == Subtotal(o.items)
    && Sound(o.items)
  }

  lemma {:induction false} LogConcat(xs: seq<Entry>, ys: seq<Entry>)
    ensures Added(xs + ys) == Added(xs) + Added(ys) && Removed(xs + ys) == Removed(xs) + Removed(ys)
  {
    if ys == [] {
      assert xs + ys == xs;
    } else {
      LogConcat(xs, ys[..|ys| - 1]);
      assert (xs + ys)[..|xs + ys| - 1] == xs + ys[..|ys| - 1];
    }
  }

  lemma LogOne(xs: seq<Entry>, e: Entry)
    ensures Added(xs + [e]) == Added(xs) + if e.ItemAdded? then [e.itemId] else []
    ensures Removed(xs + [e]) == Removed(xs) + if e.ItemRemoved? then [e.itemId] else []
  {
    assert (xs + [e])[..|xs|] == xs;
  }

  lemma {:induction false} IdsConcat(xs: seq<Item>, ys: seq<Item>)
    ensures Ids(xs + ys) == Ids(xs) + Ids(ys)
  {
    if ys == [] {
      assert xs + ys == xs;
    } else {
      IdsConcat(xs, ys[..|ys| - 1]);
      assert (xs + ys)[..|xs + ys| - 1] == xs + ys[..|ys| - 1];
    }
  }

  lemma {:induction false} IdsAt(xs: seq<Item>)
    ensures |Ids(xs)| == |xs| && forall i | 0 <= i < |xs| :: Ids(xs)[i] == xs[i].id
  {
    if xs != [] { IdsAt(xs[..|xs| - 1]); }
  }

  lemma SameIds(xs: seq<Item>, ys: seq<Item>)
    requires |xs| == |ys| && forall i | 0 <= i < |xs| :: xs[i].id == ys[i].id
    ensures Ids(xs) == Ids(ys)
  {
    IdsAt(xs);
    IdsAt(ys);
  }

  lemma {:induction false} AddedEntriesLog(items: seq<Item>)
    ensures Added(AddedEntries(items)) == Ids(items) && Removed(AddedEntries(items)) == []
  {
    if items != [] {
      AddedEntriesLog(items[..|items| - 1]);
      LogOne(AddedEntries(items[..|items| - 1]), ItemAdded(items[|items| - 1].id));
    }
  }

  lemma {:induction false} KeepPartition(items: seq<Item>, removed: seq<string>)
    ensures multiset(Ids(Keep(items, removed))) + multiset(Removed(RemovedEntries(items, removed))) == multiset(Ids(items))
    ensures Added(RemovedEntries(items, removed)) == []
  {
    hide Ids, Added, Removed;
    if items == [] {
      NothingKept();
    } else {
      var init, last := items[..|items| - 1], items[|items| - 1];
      assert items == init + [last];
      KeepPartition(init, removed);
      IdsConcat(init, [last]);
      LogOne(RemovedEntries(init, removed), ItemRemoved(last.id));
      IdsConcat(Keep(init, removed), [last]);
      IdsOne(last);
    }
  }

  lemma NothingKept()
    ensures Ids([]) == [] && Added([]) == [] && Removed([]) == []
  {}

  lemma {:induction false} KeepMembers(items: seq<Item>, removed: seq<string>)
    ensures forall i :: i in Keep(items, removed) <==> i in items && i.id !in removed
  {
    if items != [] {
      var init, last := items[..|items| - 1], items[|items| - 1];
      assert items == init + [last];
      KeepMembers(init, removed);
    }
  }

  lemma IdsOne(i: Item)
    ensures Ids([i]) == [i.id]
  {
    assert [i][..0] == [];
  }

  ghost predicate DistinctIds(items: seq<Item>) {
    forall i, j | 0 <= i < j < |items| :: items[i].id != items[j].id
  }

  ghost predicate Sound(items: seq<Item>) {
    && DistinctIds(items)
    && forall i | i in items :: i.lineTotal == LineTotal(i.quantity, i.unitPrice) && i.quantity > 0.0
  }

  lemma {:induction false} KeepSound(items: seq<Item>, removed: seq<string>)
    requires Sound(items)
    ensures Sound(Keep(items, removed))
  {
    if items != [] {
      var init, last := items[..|items| - 1], items[|items| - 1];
      KeepSound(init, removed);
      KeepMembers(init, removed);
      var kept := Keep(init, removed);
      forall i | 0 <= i < |kept| ensures kept[i].id != last.id && kept[i] in items {
        assert kept[i] in kept && kept[i] in init;
        var k :| 0 <= k < |init| && init[k] == kept[i];
        assert items[k] == init[k];
      }
      assert last in items;
    }
  }

  /** Items that are about to be added have ids of their own. */
  ghost predicate FreshItems(items: seq<Item>, o: Order) {
    DistinctIds(o.items + items)
  }

  lemma AddKeeps(o: Order, items: seq<Item>)
    requires Sound(o.items) && FreshItems(items, o) && forall i | i in items :: i.quantity > 0.0
    ensures var after := AddItems(o, BuiltItems(items));
            && Sound(after.items) && o.log <= after.log
            && Seen(o) + multiset(Added(after.log)) == Seen(after) + multiset(Added(o.log))
  {
    hide Ids, Added, Removed, AddedEntries, LineTotal;
    var built := BuiltItems(items);
    var after := AddItems(o, built);
    forall i | i in after.items ensures i.lineTotal == LineTotal(i.quantity, i.unitPrice) && i.quantity > 0.0 {
      if i !in o.items {
        var k :| 0 <= k < |built| && built[k] == i;
        assert items[k] in items;
      }
    }
    forall i, j | 0 <= i < j < |after.items| ensures after.items[i].id != after.items[j].id {
      assert (o.items + items)[i].id != (o.items + items)[j].id;
    }
    IdsConcat(o.items, built);
    AddedEntriesLog(built);
    LogConcat(o.log, AddedEntries(built));
  }

  lemma ModifyOneKeeps(o: Order, m: Modification)
    requires Sound(o.items) && ModifyItem(o, m).Ok?
    ensures var after := ModifyItem(o, m).value;
            && Sound(after.items) && o.log <= after.log && after.status == o.status && after.id == o.id && after.version == o.version
            && Seen(after) == Seen(o) && Added(after.log) == Added(o.log)
  {
    var after := ModifyItem(o, m).value;
    SameIds(o.items, after.items);
    LogOne(o.log, ItemModified(m.id));
  }

  lemma {:induction false} ModifyKeeps(o: Order, ms: seq<Modification>)
    requires Sound(o.items) && ModifyItems(o, ms).Ok?
    ensures var after := ModifyItems(o, ms).value;
            && Sound(after.items) && o.log <= after.log && after.status == o.status && after.id == o.id && after.version == o.version
            && Seen(after) == Seen(o) && Added(after.log) == Added(o.log)
  {
    hide Seen, Added, Sound, ModifyItem;
    if ms != [] {
      ModifyKeeps(o, ms[..|ms| - 1]);
      ModifyOneKeeps(ModifyItems(o, ms[..|ms| - 1]).value, ms[|ms| - 1]);
    }
  }

  lemma RemoveKeeps(o: Order, removed: seq<string>)
    requires Sound(o.items)
    ensures var after := RemoveItems(o, removed);
            && Sound(after.items) && o.log <= after.log
            && Seen(after) == Seen(o) && Added(after.log) == Added(o.log)
  {
    KeepSound(o.items, removed);
    KeepPartition(o.items, removed);
    LogConcat(o.log, RemovedEntries(o.items, removed));
  }

  /** The checks a mutation passes before it reaches the draft: positive quantities and fresh ids. */
  ghost predicate Admissible(o: Order, m: Mutation) {
    m.Edit? ==> FreshItems(m.addItems, o) && forall i | i in m.addItems :: i.quantity > 0.0
  }

  lemma MutateKeeps(o: Order, m: Mutation)
    requires OrderInv(o) && Admissible(o, m) && Mutate(o, m).Ok?
    ensures var after := Mutate(o, m).value; OrderInv(after) && Evolves(o, after) && after.version == o.version
  {
    hide Evolves, OrderInv, Subtotal, Find, Keep, ModifyItems, FreshItems, RoleAllows;
    match m
    case Edit(addItems, modifyItems, removeItemIds) => EditKeeps(o, addItems, modifyItems, removeItemIds);
    case Cancel(_, _) => NoteKeeps(o, Mutate(o, m).value, OrderCancelled(o.status));
    case VoidItem(itemId, hasReason) => VoidKeeps(o, itemId, hasReason);
    case Transition(roles, next) =>
      var r :| r in roles && RoleAllows(r, o.status, next);
      FlowsForward(r, o.status, next);
      NoteKeeps(o, Mutate(o, m).value, StatusTransition(o.status, next));
    case MoveTo(session) => NoteKeeps(o, Mutate(o, m).value, TableTransferred(o.session, session));
  }

  lemma FlowsForward(r: Role, before: Status, after: Status)
    requires RoleAllows(r, before, after)
    ensures Rank(after) == Rank(before) + 1 && !after.Cancelled?
  {}

  lemma NoteKeeps(o: Order, after: Order, e: Entry)
    requires OrderInv(o) && after == o.(status := after.status, session := after.session, log := o.log + [e])
    requires !e.ItemAdded? && !e.ItemRemoved? && Rank(o.status) <= Rank(after.status)
    ensures OrderInv(after) && Evolves(o, after)
  {
    hide Added, Removed, Ids, Sound, Subtotal;
    LogOne(o.log, e);
  }

  lemma EditKeeps(o: Order, addItems: seq<Item>, modifyItems: seq<Modification>, removeItemIds: seq<string>)
    requires OrderInv(o) && Admissible(o, Edit(addItems, modifyItems, removeItemIds)) && Mutate(o, Edit(addItems, modifyItems, removeItemIds)).Ok?
    ensures var after := Mutate(o, Edit(addItems, modifyItems, removeItemIds)).value;
            OrderInv(after) && Evolves(o, after) && after.version == o.version
  {
    hide Added, Removed, Ids, Sound, FreshItems, Subtotal, ModifyItem, ModifyItems;
    AddKeeps(o, addItems);
    var added := AddItems(o, BuiltItems(addItems));
    ModifyKeeps(added, modifyItems);
    RemoveKeeps(ModifyItems(added, modifyItems).value, removeItemIds);
  }

  lemma VoidKeeps(o: Order, itemId: string, hasReason: bool)
    requires OrderInv(o) && Mutate(o, VoidItem(itemId, hasReason)).Ok?
    ensures var after := Mutate(o, VoidItem(itemId, hasReason)).value;
            OrderInv(after) && Evolves(o, after) && after.version == o.version
  {
    hide Keep, Ids, Added, Removed, Find, Subtotal, DistinctIds;
    LogOne(o.log, ItemRemoved(itemId));
    KeepSound(o.items, [itemId]);
    VoidIds(o.items, itemId);
  }

  lemma {:induction false} VoidIds(items: seq<Item>, id: string)
    requires DistinctIds(items)
    ensures Find(items, id).Some? ==> multiset(Ids(Keep(items, [id]))) + multiset{id} == multiset(Ids(items))
    ensures Find(items, id).None? ==> Keep(items, [id]) == items
  {
    hide Ids, Find;
    FindAny(items, id);
    if items != [] {
      var init, last := items[..|items| - 1], items[|items| - 1];
      assert items == init + [last];
      VoidIds(init, id);
      FindAny(init, id);
      IdsConcat(init, [last]);
      IdsConcat(Keep(init, [id]), [last]);
      IdsOne(last);
    }
  }

  lemma FindAny(items: seq<Item>, id: string)
    ensures Find(items, id).Some? <==> exists i :: 0 <= i < |items| && items[i].id == id
  {}

  lemma EvolvesTransitive(x: Order, y: Order, z: Order)
    requires Evolves(x, y) && Evolves(y, z)
    ensures Evolves(x, z)
  {
    hide Seen, Added;
    Exchange(Seen(x), Seen(y), Seen(z), multiset(Added(x.log)), multiset(Added(y.log)), multiset(Added(z.log)));
  }

  lemma Exchange(s: multiset<string>, t: multiset<string>, u: multiset<string>, a: multiset<string>, b: multiset<string>, c: multiset<string>)
    requires s + b == t + a && t + c == u + b
    ensures s + c == u + a
  {
    forall k ensures (s + c)[k] == (u + a)[k] {
      assert (s + b)[k] == (t + a)[k] && (t + c)[k] == (u + b)[k];
    }
  }

  /******* The kitchen index *******/

  datatype Progress = Queued | Preparing | Ready | Served

  datatype Row = Row(session: Option<string>, quantity: real, progress: Progress)

  type Kds = map<(string, string), Row>

  function DefaultProgress(status: Status): Progress {
    match status
    case Pending => Queued
    case InPreparation => Preparing
    case Completed => Ready
    case _ => Served
  }

  function RowKeys(o: Order, items: seq<Item>): set<(string, string)> {
    set i | i in items :: (o.id, i.id)
  }

  function Stale(kds: Kds, o: Order): set<(string, string)> {
    set k | k in kds && k.0 == o.id && k !in RowKeys(o, o.items)
  }

  function UpsertItem(kds: Kds, o: Order, i: Item): Kds {
    var progress := if (o.id, i.id) in kds then kds[(o.id, i.id)].progress else DefaultProgress(o.status);
    kds[(o.id, i.id) := Row(o.session, i.quantity, progress)]
  }

  function UpsertItems(kds: Kds, o: Order, items: seq<Item>): Kds {
    if items == [] then kds else UpsertItem(UpsertItems(kds, o, items[..|items| - 1]), o, items[|items| - 1])
  }

  function SyncKds(kds: Kds, o: Order): Kds {
    UpsertItems(kds - Stale(kds, o), o, o.items)
  }

  method SyncOrderIntoKds(kds: Kds, o: Order) returns (r: Kds)
    ensures r == SyncKds(kds, o)
  {
    r := kds;
    var stale, done := Stale(kds, o), {};
    while stale != {}
      invariant stale + done == Stale(kds, o) && r == kds - done
      decreases |stale|
    {
      var k :| k in stale;
      r, stale, done := r - {k}, stale - {k}, done + {k};
    }
    for i := 0 to |o.items|
      invariant r == UpsertItems(kds - Stale(kds, o), o, o.items[..i])
    {
      assert o.items[..i + 1][..i] == o.items[..i];
      r := UpsertItem(r, o, o.items[i]);
    }
    assert o.items[..|o.items|] == o.items;
  }

  /** The index shows an order: one row for each of its items and no other, with the item's quantity and
      the order's session. */
  ghost predicate Shows(kds: Kds, o: Order) {
    && (forall k | k in kds && k.0 == o.id :: k in RowKeys(o, o.items))
    && (forall i | i in o.items :: RowShows(kds, o, i))
  }

  predicate RowShows(kds: Kds, o: Order, i: Item) {
    (o.id, i.id) in kds && kds[(o.id, i.id)].quantity == i.quantity && kds[(o.id, i.id)].session == o.session
  }

  lemma UpsertedOne(kds: Kds, o: Order, i: Item)
    ensures var r := UpsertItem(kds, o, i);
            && r.Keys == kds.Keys + {(o.id, i.id)} && (forall k | k in kds && k != (o.id, i.id) :: r[k] == kds[k])
            && r[(o.id, i.id)].quantity == i.quantity && r[(o.id, i.id)].session == o.session
  {}

  lemma {:induction false} UpsertedKeys(kds: Kds, o: Order, items: seq<Item>)
    ensures var r := UpsertItems(kds, o, items);
            && r.Keys == kds.Keys + RowKeys(o, items)
            && (forall k | k in kds && k !in RowKeys(o, items) :: r[k] == kds[k])
  {
    hide UpsertItem;
    if items != [] {
      var init, last := items[..|items| - 1], items[|items| - 1];
      assert items == init + [last];
      assert RowKeys(o, items) == RowKeys(o, init) + {(o.id, last.id)};
      UpsertedKeys(kds, o, init);
      UpsertedOne(UpsertItems(kds, o, init), o, last);
    }
  }

  lemma {:induction false} UpsertedRows(kds: Kds, o: Order, items: seq<Item>)
    requires DistinctIds(items)
    ensures forall i | i in items :: RowShows(UpsertItems(kds, o, items), o, i)
  {
    hide UpsertItem;
    if items != [] {
      var init, last := items[..|items| - 1], items[|items| - 1];
      assert items == init + [last];
      UpsertedRows(kds, o, init);
      UpsertedOne(UpsertItems(kds, o, init), o, last);
      forall i | i in init ensures i.id != last.id {
        var k :| 0 <= k < |init| && init[k] == i;
        assert items[k] == i;
      }
    }
  }

  /** After a sync the index shows the order, and the rows of other orders are as they were. */
  lemma SyncShows(kds: Kds, o: Order)
    requires DistinctIds(o.items)
    ensures Shows(SyncKds(kds, o), o)
    ensures forall k: (string, string) | k.0 != o.id :: (k in SyncKds(kds, o) <==> k in kds) && (k in kds ==> SyncKds(kds, o)[k] == kds[k])
  {
    UpsertedKeys(kds - Stale(kds, o), o, o.items);
    UpsertedRows(kds - Stale(kds, o), o, o.items);
  }

  /******* The stored orders *******/

  datatype Store = Store(orders: map<string, Order>, kds: Kds)

  datatype Action =
    | Create(id: string, session: Option<string>, items: seq<Item>)
    | Update(id: string, expectedVersion: nat, mutation: Mutation)
    | SetProgress(orderId: string, itemId: string, progress: Progress)

  /** Somebody has already prepared the item. */
  predicate Prepared(kds: Kds, o: Order, itemId: string) {
    (o.id, itemId) in kds && (kds[(o.id, itemId)].progress.Ready? || kds[(o.id, itemId)].progress.Served?)
  }

  predicate Reduces(m: Mutation, i: Item)
    requires m.Edit?
  {
    i.id in m.removeItemIds || exists x | x in m.modifyItems :: x.id == i.id && x.quantity.Some? && x.quantity.value < i.quantity
  }

  /** What the service asks before it opens the draft. */
  predicate Permitted(kds: Kds, o: Order, m: Mutation) {
    match m
    case Edit(addItems, _, _) =>
      && (forall i | i in o.items && Reduces(m, i) :: !o.status.Completed? && !o.status.Delivered? && !Prepared(kds, o, i.id))
      && forall i | i in addItems :: i.quantity > 0.0
    case Cancel(hasReason, manager) =>
      hasReason && (manager || (!o.status.Completed? && !o.status.Delivered? && forall i | i in o.items :: !Prepared(kds, o, i.id)))
    case VoidItem(_, hasReason) => hasReason
    case _ => true
  }

  /** updateOrderWithVersionCheck: nothing happens unless the caller has seen the current version. */
  function UpdateOrder(orders: map<string, Order>, id: string, expectedVersion: nat, m: Mutation): Result<Order> {
    if id !in orders then Err("Order not found.")
    else if orders[id].version != expectedVersion then Err("Version conflict detected.")
    else
      var draft :- Mutate(orders[id], m);
      Ok(draft.(version := orders[id].version + 1))
  }

  function Perform(s: Store, a: Action): Result<Store> {
    match a
    case Create(id, session, items) =>
      if exists i | i in items :: i.quantity <= 0.0 then Err("Item quantity must be greater than zero.")
      else
        var built := BuiltItems(items);
        var o := Order(id, session, Pending, built, Subtotal(built), 1, []);
        Ok(Store(s.orders[id := o], SyncKds(s.kds, o)))
    case Update(id, expectedVersion, m) =>
      if id in s.orders && !Permitted(s.kds, s.orders[id], m) then Err("Not permitted.")
      else
        var o :- UpdateOrder(s.orders, id, expectedVersion, m);
        Ok(Store(s.orders[id := o], SyncKds(s.kds, o)))
    case SetProgress(orderId, itemId, progress) =>
      if (orderId, itemId) !in s.kds then Err("KDS item not found.")
      else Ok(s.(kds := s.kds[(orderId, itemId) := s.kds[(orderId, itemId)].(progress := progress)]))
  }

  function Next(s: Store, a: Action): Store {
    match Perform(s, a)
    case Ok(after) => after
    case Err(_) => s
  }

  function Run(s: Store, actions: seq<Action>): Store {
    if actions == [] then s else Next(Run(s, actions[..|actions| - 1]), actions[|actions| - 1])
  }

  function ItemIds(items: seq<Item>): set<string> {
    set i | i in items :: i.id
  }

  /** No stored order has an item with the id of one of these. */
  ghost predicate NewItems(s: Store, items: seq<Item>) {
    forall k | k in s.orders :: ItemIds(s.orders[k].items) !! ItemIds(items)
  }

  /** Ids are drawn anew for every order and every added item. */
  ghost predicate FreshIds(s: Store, a: Action) {
    match a
    case Create(id, _, items) => id !in s.orders && DistinctIds(items) && NewItems(s, items)
    case Update(id, _, m) => id in s.orders && m.Edit? ==> FreshItems(m.addItems, s.orders[id]) && NewItems(s, m.addItems)
    case _ => true
  }

  /** No two orders share the id of an item. */
  ghost predicate Apart(orders: map<string, Order>) {
    forall j, k | j in orders && k in orders && j != k :: ItemIds(orders[j].items) !! ItemIds(orders[k].items)
  }

  ghost predicate FreshRun(s: Store, actions: seq<Action>) {
    forall n | 0 <= n < |actions| :: FreshIds(Run(s, actions[..n]), actions[n])
  }

  /** Orders are well formed, and the index has exactly the rows of the stored orders. */
  ghost predicate Inv(s: Store) {
    && (forall id | id in s.orders :: s.orders[id].id == id && OrderInv(s.orders[id]) && Shows(s.kds, s.orders[id]))
    && (forall k | k in s.kds :: k.0 in s.orders)
  }

  lemma OrderStored(s: Store, o: Order)
    requires Inv(s) && OrderInv(o)
    ensures Inv(Store(s.orders[o.id := o], SyncKds(s.kds, o)))
  {
    hide SyncKds, OrderInv;
    assert DistinctIds(o.items) by { InvDistinct(o); }
    SyncShows(s.kds, o);
    forall id | id in s.orders && id != o.id ensures Shows(SyncKds(s.kds, o), s.orders[id]) {
      assert Shows(s.kds, s.orders[id]);
    }
  }

  lemma InvDistinct(o: Order)
    requires OrderInv(o)
    ensures DistinctIds(o.items)
  {}

  /** A successful update takes the order to its next version. */
  lemma UpdateKeeps(s: Store, id: string, expectedVersion: nat, m: Mutation)
    requires Inv(s) && UpdateOrder(s.orders, id, expectedVersion, m).Ok? && Permitted(s.kds, s.orders[id], m)
    requires m.Edit? ==> FreshItems(m.addItems, s.orders[id])
    ensures var o := UpdateOrder(s.orders, id, expectedVersion, m).value;
            OrderInv(o) && Evolves(s.orders[id], o) && o.version == s.orders[id].version + 1 == expectedVersion + 1
  {
    hide Mutate, Prepared, Reduces, Sound, Ids, Added, Removed, Subtotal;
    MutateKeeps(s.orders[id], m);
  }

  lemma CreatedInv(id: string, session: Option<string>, items: seq<Item>)
    requires DistinctIds(items) && forall i | i in items :: i.quantity > 0.0
    ensures OrderInv(Order(id, session, Pending, BuiltItems(items), Subtotal(BuiltItems(items)), 1, []))
  {
    forall i | i in BuiltItems(items) ensures i.lineTotal == LineTotal(i.quantity, i.unitPrice) && i.quantity > 0.0 {
      var k :| 0 <= k < |items| && BuiltItems(items)[k] == i;
      assert items[k] in items;
    }
  }

  /** Every operation keeps the orders well formed and the kitchen index in step with them, and takes
      each order forward. */
  lemma NextInv(s: Store, a: Action)
    requires Inv(s) && FreshIds(s, a)
    ensures Inv(Next(s, a))
    ensures forall id | id in s.orders :: id in Next(s, a).orders && Evolves(s.orders[id], Next(s, a).orders[id])
    ensures forall id | id in s.orders :: Next(s, a).orders[id].version == s.orders[id].version + if Updates(s, a, id) then 1 else 0
  {
    hide Inv, OrderInv, SyncKds, UpdateOrder, FreshItems, Evolves, Permitted;
    EvolvesReflexive(s);
    if Perform(s, a).Ok? {
      match a
      case Create(id, session, items) => CreateStored(s, id, session, items);
      case Update(id, expectedVersion, m) => UpdateStored(s, id, expectedVersion, m);
      case SetProgress(orderId, itemId, progress) => ProgressStored(s, orderId, itemId, progress);
    }
  }

  lemma CreateStored(s: Store, id: string, session: Option<string>, items: seq<Item>)
    requires Inv(s) && FreshIds(s, Create(id, session, items)) && Perform(s, Create(id, session, items)).Ok?
    ensures Inv(Next(s, Create(id, session, items)))
  {
    hide Inv, OrderInv, SyncKds;
    CreatedInv(id, session, items);
    OrderStored(s, Order(id, session, Pending, BuiltItems(items), Subtotal(BuiltItems(items)), 1, []));
  }

  lemma UpdateStored(s: Store, id: string, expectedVersion: nat, m: Mutation)
    requires Inv(s) && FreshIds(s, Update(id, expectedVersion, m)) && Perform(s, Update(id, expectedVersion, m)).Ok?
    ensures var after := Next(s, Update(id, expectedVersion, m));
            && Inv(after) && id in s.orders && after.orders.Keys == s.orders.Keys
            && Evolves(s.orders[id], after.orders[id]) && after.orders[id].version == s.orders[id].version + 1
            && forall k | k in s.orders && k != id :: after.orders[k] == s.orders[k]
  {
    hide Inv, OrderInv, SyncKds, UpdateOrder, FreshItems, Evolves, Permitted;
    UpdatedFound(s.orders, id, expectedVersion, m);
    UpdateKeeps(s, id, expectedVersion, m);
    SameId(s, id, UpdateOrder(s.orders, id, expectedVersion, m).value);
    OrderStored(s, UpdateOrder(s.orders, id, expectedVersion, m).value);
  }

  lemma SameId(s: Store, id: string, o: Order)
    requires Inv(s) && id in s.orders && Evolves(s.orders[id], o)
    ensures o.id == id
  {}

  lemma ProgressStored(s: Store, orderId: string, itemId: string, progress: Progress)
    requires Inv(s)
    ensures Inv(Next(s, SetProgress(orderId, itemId, progress)))
    ensures Next(s, SetProgress(orderId, itemId, progress)).orders == s.orders
  {
    hide OrderInv, Shows;
    if (orderId, itemId) in s.kds {
      forall id | id in s.orders ensures Shows(Next(s, SetProgress(orderId, itemId, progress)).kds, s.orders[id]) {
        ProgressShown(s.kds, s.orders[id], (orderId, itemId), progress);
      }
    }
  }

  lemma ProgressShown(kds: Kds, o: Order, k: (string, string), progress: Progress)
    requires Shows(kds, o) && k in kds
    ensures Shows(kds[k := kds[k].(progress := progress)], o)
  {}

  lemma UpdatedFound(orders: map<string, Order>, id: string, expectedVersion: nat, m: Mutation)
    ensures UpdateOrder(orders, id, expectedVersion, m).Ok? ==> id in orders && orders[id].version == expectedVersion
  {}

  lemma ModifiedIds(xs: seq<Item>, ys: seq<Item>)
    requires |xs| == |ys| && forall i | 0 <= i < |xs| :: xs[i].id == ys[i].id
    ensures ItemIds(xs) == ItemIds(ys)
  {
    forall id | id in ItemIds(xs) ensures id in ItemIds(ys) {
      var i :| i in xs && i.id == id;
      var k :| 0 <= k < |xs| && xs[k] == i;
      assert ys[k] in ys;
    }
    forall id | id in ItemIds(ys) ensures id in ItemIds(xs) {
      var i :| i in ys && i.id == id;
      var k :| 0 <= k < |ys| && ys[k] == i;
      assert xs[k] in xs;
    }
  }

  lemma {:induction false} ModifyIds(o: Order, ms: seq<Modification>)
    requires ModifyItems(o, ms).Ok?
    ensures ItemIds(ModifyItems(o, ms).value.items) == ItemIds(o.items)
  {
    if ms != [] {
      ModifyIds(o, ms[..|ms| - 1]);
      var init := ModifyItems(o, ms[..|ms| - 1]).value;
      ModifiedIds(init.items, ModifyItem(init, ms[|ms| - 1]).value.items);
    }
  }

  /** A mutation brings no item but those it adds. */
  lemma MutateIds(o: Order, m: Mutation)
    requires Mutate(o, m).Ok?
    ensures ItemIds(Mutate(o, m).value.items) <= ItemIds(o.items) + if m.Edit? then ItemIds(m.addItems) else {}
  {
    hide Find, Keep, ModifyItems, RoleAllows, Subtotal;
    match m
    case Edit(addItems, modifyItems, removed) =>
      var added := AddItems(o, BuiltItems(addItems));
      ModifiedIds(addItems, BuiltItems(addItems));
      ModifyIds(added, modifyItems);
      KeepMembers(ModifyItems(added, modifyItems).value.items, removed);
      assert ItemIds(added.items) == ItemIds(o.items) + ItemIds(addItems);
    case VoidItem(itemId, _) => KeepMembers(o.items, [itemId]);
    case _ =>
  }

  lemma StoredApart(orders: map<string, Order>, o: Order, added: set<string>)
    requires Apart(orders) && forall k | k in orders && k != o.id :: ItemIds(orders[k].items) !! added
    requires ItemIds(o.items) <= added + if o.id in orders then ItemIds(orders[o.id].items) else {}
    ensures Apart(orders[o.id := o])
  {
    hide ItemIds;
  }

  /** Item ids stay unique across the stored orders. */
  lemma NextApart(s: Store, a: Action)
    requires Inv(s) && Apart(s.orders) && FreshIds(s, a)
    ensures Apart(Next(s, a).orders)
  {
    hide OrderInv, Shows, SyncKds, Mutate, Permitted, Apart, ItemIds, FreshItems;
    if Perform(s, a).Ok? {
      match a
      case Create(id, session, items) =>
        ModifiedIds(items, BuiltItems(items));
        StoredApart(s.orders, Next(s, a).orders[id], ItemIds(items));
      case Update(id, expectedVersion, m) =>
        MutateIds(s.orders[id], m);
        MutateStaysId(s.orders[id], m);
        StoredApart(s.orders, Next(s, a).orders[id], if m.Edit? then ItemIds(m.addItems) else {});
      case SetProgress(_, _, _) =>
    }
  }

  lemma MutateStaysId(o: Order, m: Mutation)
    requires Mutate(o, m).Ok?
    ensures Mutate(o, m).value.id == o.id
  {
    if m.Edit? {
      ModifyStaysId(AddItems(o, BuiltItems(m.addItems)), m.modifyItems);
    }
    hide ModifyItems, Keep, Find;
  }

  lemma {:induction false} ModifyStaysId(o: Order, ms: seq<Modification>)
    requires ModifyItems(o, ms).Ok?
    ensures ModifyItems(o, ms).value.id == o.id
  {
    if ms != [] {
      ModifyStaysId(o, ms[..|ms| - 1]);
    }
  }

  /** The action is an update of the order and it succeeds. */
  predicate Updates(s: Store, a: Action, id: string) {
    a.Update? && a.id == id && Perform(s, a).Ok?
  }

  lemma FreshPrefix(s: Store, actions: seq<Action>, n: nat)
    requires FreshRun(s, actions) && n <= |actions|
    ensures FreshRun(s, actions[..n])
  {
    forall k | 0 <= k < n ensures FreshIds(Run(s, actions[..n][..k]), actions[..n][k]) {
      assert actions[..n][..k] == actions[..k];
    }
  }

  /** The number of updates of an order that succeed during a run. */
  function Successes(s: Store, actions: seq<Action>, id: string): nat {
    if actions == [] then 0
    else
      var init := actions[..|actions| - 1];
      Successes(s, init, id) + if Updates(Run(s, init), actions[|actions| - 1], id) then 1 else 0
  }

  /** Over any run: the invariant holds, no order disappears, logs only grow, statuses only move on, every
      item that came or went is logged, and the version counts the successful updates. */
  lemma {:induction false} RunKeeps(s: Store, actions: seq<Action>)
    requires Inv(s) && FreshRun(s, actions)
    ensures Inv(Run(s, actions)) && (Apart(s.orders) ==> Apart(Run(s, actions).orders))
    ensures forall id | id in s.orders :: id in Run(s, actions).orders && Evolves(s.orders[id], Run(s, actions).orders[id])
    ensures forall id | id in s.orders :: Run(s, actions).orders[id].version == s.orders[id].version + Successes(s, actions, id)
  {
    hide Inv, Evolves, Next, FreshIds, Updates, Apart;
    if actions == [] {
      EvolvesReflexive(s);
    } else {
      var n := |actions| - 1;
      FreshPrefix(s, actions, n);
      RunKeeps(s, actions[..n]);
      var middle := Run(s, actions[..n]);
      assert FreshIds(middle, actions[n]);
      NextInv(middle, actions[n]);
      if Apart(middle.orders) { NextApart(middle, actions[n]); }
      forall id | id in s.orders ensures Evolves(s.orders[id], Next(middle, actions[n]).orders[id]) {
        EvolvesTransitive(s.orders[id], middle.orders[id], Next(middle, actions[n]).orders[id]);
      }
    }
  }

  lemma EvolvesReflexive(s: Store)
    ensures forall id | id in s.orders :: Evolves(s.orders[id], s.orders[id])
  {}

  /** The items ever put on an order since it was created are exactly its live items and those logged as
      removed, and its version is one more than its successful updates. */
  lemma OrderHistory(s: Store, create: Action, actions: seq<Action>)
    requires Inv(s) && create.Create? && FreshIds(s, create) && Perform(s, create).Ok? && FreshRun(Next(s, create), actions)
    ensures create.id in Run(Next(s, create), actions).orders
    ensures var o := Run(Next(s, create), actions).orders[create.id];
            && Seen(o) == multiset(Ids(create.items)) + multiset(Added(o.log))
            && o.version == 1 + Successes(Next(s, create), actions, create.id)
            && o.subtotal == Subtotal(o.items)
  {
    hide Inv, Next, Run, FreshIds, FreshRun, Successes, Ids, Seen, Added, Evolves;
    NextInv(s, create);
    RunKeeps(Next(s, create), actions);
    Created(s, create);
    FromCreation(Next(s, create).orders[create.id], Run(Next(s, create), actions).orders[create.id]);
    StoredTotal(Run(Next(s, create), actions), create.id);
  }

  lemma FromCreation(created: Order, o: Order)
    requires created.log == [] && Evolves(created, o)
    ensures Seen(o) == multiset(Ids(created.items)) + multiset(Added(o.log))
  {
    hide Ids;
    assert Added(created.log) == [] == Removed(created.log);
    assert Seen(o) + multiset(Added(created.log)) == Seen(o);
    assert Seen(created) == multiset(Ids(created.items));
  }

  lemma Created(s: Store, create: Action)
    requires create.Create? && Perform(s, create).Ok?
    ensures create.id in Next(s, create).orders
    ensures var o := Next(s, create).orders[create.id]; o.log == [] && Ids(o.items) == Ids(create.items) && o.version == 1
  {
    SameIds(BuiltItems(create.items), create.items);
  }

  lemma StoredTotal(s: Store, id: string)
    requires Inv(s) && id in s.orders
    ensures s.orders[id].subtotal == Subtotal(s.orders[id].items)
  {}

  /** Of two updates that name the same expected version, whatever happens in between, at most one
      succeeds. */
  lemma ExpectedVersionOnce(s: Store, first: Action, actions: seq<Action>, second: Action)
    requires Inv(s) && FreshIds(s, first) && FreshRun(Next(s, first), actions)
    requires first.Update? && second.Update? && first.id == second.id && first.expectedVersion == second.expectedVersion
    ensures !(Updates(s, first, first.id) && Updates(Run(Next(s, first), actions), second, second.id))
  {
    hide Inv, Evolves, FreshIds, FreshRun, Run, Successes, Mutate, Permitted, SyncKds;
    if first.id in s.orders {
      NextInv(s, first);
      RunKeeps(Next(s, first), actions);
      var later := Run(Next(s, first), actions);
      UpdatedFound(s.orders, first.id, first.expectedVersion, first.mutation);
      UpdatedFound(later.orders, second.id, second.expectedVersion, second.mutation);
      assert later.orders[first.id].version >= Next(s, first).orders[first.id].version;
    }
  }

  /******* The repository *******/

  class OrderRepository {
    var orders: map<string, Order>
    var kds: Kds

    constructor ()
      ensures State() == Store(map[], map[])
    {
      orders, kds := map[], map[];
    }

    ghost function State(): Store
      reads this
    {
      Store(orders, kds)
    }

    method CreateOrder(id: string, session: Option<string>, items: seq<Item>) returns (r: Result<Order>)
      modifies this
      ensures State() == Next(old(State()), Create(id, session, items))
      ensures r.Ok? <==> forall i | i in items :: i.quantity > 0.0
      ensures r.Ok? ==> id in orders && orders[id] == r.value && r.value.version == 1 && r.value.subtotal == Subtotal(r.value.items)
      ensures r.Ok? && DistinctIds(items) ==> OrderInv(r.value) && Shows(kds, r.value)
    {
      if exists i | i in items :: i.quantity <= 0.0 {
        return Err("Item quantity must be greater than zero.");
      }
      var built := BuiltItems(items);
      var o := Order(id, session, Pending, built, Subtotal(built), 1, []);
      orders := orders[id := o];
      kds := SyncOrderIntoKds(kds, o);
      r := Ok(o);
      if DistinctIds(items) {
        CreatedInv(id, session, items);
        InvDistinct(o);
        hide OrderInv, SyncKds, Shows, Subtotal;
        SyncShows(old(kds), o);
      }
    }

    /** Check, change a draft of the order, store it under the next version and sync the kitchen. */
    method UpdateOrderWithVersionCheck(id: string, expectedVersion: nat, m: Mutation) returns (r: Result<Order>)
      modifies this
      ensures State() == Next(old(State()), Update(id, expectedVersion, m))
      ensures r.Ok? <==> Perform(old(State()), Update(id, expectedVersion, m)).Ok?
      ensures r.Ok? ==> id in orders && orders[id] == r.value
    {
      if id !in orders { return Err("Order not found."); }
      var current := orders[id];
      if !Permitted(kds, current, m) { return Err("Not permitted."); }
      if current.version != expectedVersion { return Err("Version conflict detected."); }
      var draft: Result<Order>;
      if m.Edit? {
        draft := EditDraft(current, m.addItems, m.modifyItems, m.removeItemIds);
      } else {
        draft := Mutate(current, m);
      }
      if draft.Err? { return draft; }
      var next := draft.value.(version := current.version + 1);
      orders := orders[id := next];
      kds := SyncOrderIntoKds(kds, next);
      r := Ok(next);
    }
  }
}
