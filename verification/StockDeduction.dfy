/** Taking the ingredients of an order from stock (backend/orders/service.ts,
    backend/inventory/service.ts). Quantities are counted in thousandths of a unit. */
module StockDeduction {
  import opened Results
  import opened BillPricing

  /** The id of a movement: what a sale deduction is for, or an id of its own. */
  datatype Key = Sale(orderId: string, orderItemId: string, trigger: string, inventoryItemId: string) | OtherMovement(id: string)

  datatype Movement = Movement(key: Key, itemId: string, delta: real)

  datatype RecipeRow = RecipeRow(menuItemId: string, inventoryItemId: string, quantityPerUnit: real)

  datatype OrderLine = OrderLine(id: string, menuItemId: string, quantity: real, inventoryItemId: Option<string>)

  datatype Requirement = Requirement(inventoryItemId: string, quantity: real)

  /** The ledger lists each movement once; `deducted` are the guards, one for each order item and trigger. */
  datatype Stock = Stock(items: set<string>, recipes: seq<RecipeRow>, linked: bool, allowNegative: bool,
                         ledger: seq<Movement>, deducted: set<(string, string)>)

  function Abs(x: real): real { if x < 0.0 then -x else x }

  /******* Balances *******/

  function Total(ledger: seq<Movement>, item: string): real {
    if ledger == [] then 0.0
    else Total(ledger[..|ledger| - 1], item) + if ledger[|ledger| - 1].itemId == item then ledger[|ledger| - 1].delta else 0.0
  }

  /** getCurrentBalance: the movements added up and rounded. */
  function Balance(s: Stock, item: string): int {
    Round(Total(s.ledger, item))
  }

  function IndexOf(ledger: seq<Movement>, key: Key): (r: Option<nat>)
    ensures r.Some? ==> r.value < |ledger| && ledger[r.value].key == key
    ensures r.None? ==> forall i | 0 <= i < |ledger| :: ledger[i].key != key
  {
    if ledger == [] then None
    else if ledger[|ledger| - 1].key == key then Some(|ledger| - 1)
    else IndexOf(ledger[..|ledger| - 1], key)
  }

  /** Storing a movement replaces the one with the same id. */
  function Put(ledger: seq<Movement>, m: Movement): seq<Movement> {
    var i := IndexOf(ledger, m.key);
    if i.Some? then ledger[i.value := m] else ledger + [m]
  }

  function AppendMovement(s: Stock, m: Movement): Result<Stock> {
    if m.itemId !in s.items then Err("Inventory item not found.")
    else if m.delta == 0.0 then Err("quantityDelta must be a non-zero number.")
    else if Round(Balance(s, m.itemId) as real + m.delta) < 0 && !s.allowNegative then Err("Insufficient stock for inventory item.")
    else Ok(s.(ledger := Put(s.ledger, m)))
  }

  /******* What an order item needs *******/

  function RecipeOf(rows: seq<RecipeRow>, menuItemId: string, quantity: real): seq<Requirement> {
    if rows == [] then []
    else
      var earlier, row := RecipeOf(rows[..|rows| - 1], menuItemId, quantity), rows[|rows| - 1];
      if row.menuItemId == menuItemId then earlier + [Requirement(row.inventoryItemId, Abs(quantity * row.quantityPerUnit))] else earlier
  }

  function Requirements(s: Stock, line: OrderLine): Result<seq<Requirement>> {
    if !s.linked then Ok([])
    else
      var recipe := RecipeOf(s.recipes, line.menuItemId, line.quantity);
      if recipe != [] then Ok(recipe)
      else if line.inventoryItemId.Some? then Ok([Requirement(line.inventoryItemId.value, Abs(line.quantity * 1000.0))])
      else Err("Missing inventory recipe mapping.")
  }

  /** The requirements of a line that still has to be deducted. */
  function Pending(s: Stock, line: OrderLine, trigger: string): Result<seq<Requirement>> {
    if (line.id, trigger) in s.deducted then Ok([]) else Requirements(s, line)
  }

  function Drawn(rs: seq<Requirement>, item: string): real {
    if rs == [] then 0.0
    else Drawn(rs[..|rs| - 1], item) + if rs[|rs| - 1].inventoryItemId == item then rs[|rs| - 1].quantity else 0.0
  }

  /** All pending requirements of an order, in order. */
  function Needs(s: Stock, lines: seq<OrderLine>, trigger: string): Result<seq<Requirement>> {
    if lines == [] then Ok([])
    else
      var earlier :- Needs(s, lines[..|lines| - 1], trigger);
      var last :- Pending(s, lines[|lines| - 1], trigger);
      Ok(earlier + last)
  }

  /** assertInventoryDeductionCanComplete. */
  function Precheck(s: Stock, lines: seq<OrderLine>, trigger: string): Result<()> {
    var needs :- Needs(s, lines, trigger);
    if s.allowNegative then Ok(())
    else if exists r | r in needs :: Round(Balance(s, r.inventoryItemId) as real - Drawn(needs, r.inventoryItemId)) < 0
    then Err("Insufficient stock for inventory item.")
    else Ok(())
  }

  /******* The deduction *******/

  function Draw(s: Stock, orderId: string, lineId: string, trigger: string, rs: seq<Requirement>): Result<Stock> {
    if rs == [] then Ok(s)
    else
      var earlier :- Draw(s, orderId, lineId, trigger, rs[..|rs| - 1]);
      var r := rs[|rs| - 1];
      AppendMovement(earlier, Movement(Sale(orderId, lineId, trigger, r.inventoryItemId), r.inventoryItemId, -r.quantity))
  }

  function DeductLine(s: Stock, orderId: string, line: OrderLine, trigger: string): Result<Stock> {
    if (line.id, trigger) in s.deducted then Ok(s)
    else
      var rs :- Requirements(s, line);
      var drawn :- Draw(s, orderId, line.id, trigger, rs);
      Ok(drawn.(deducted := drawn.deducted + {(line.id, trigger)}))
  }

  function Deduct(s: Stock, orderId: string, lines: seq<OrderLine>, trigger: string): Result<Stock> {
    if lines == [] then Ok(s)
    else
      var earlier :- Deduct(s, orderId, lines[..|lines| - 1], trigger);
      DeductLine(earlier, orderId, lines[|lines| - 1], trigger)
  }

  /******* Totals *******/

  lemma TotalAppend(ledger: seq<Movement>, m: Movement, item: string)
    ensures Total(ledger + [m], item) == Total(ledger, item) + if m.itemId == item then m.delta else 0.0
  {
    assert (ledger + [m])[..|ledger|] == ledger;
  }

  lemma DrawnAppend(rs: seq<Requirement>, r: Requirement, item: string)
    ensures Drawn(rs + [r], item) == Drawn(rs, item) + if r.inventoryItemId == item then r.quantity else 0.0
  {
    assert (rs + [r])[..|rs|] == rs;
  }

  lemma {:induction false} DrawnConcat(xs: seq<Requirement>, ys: seq<Requirement>, item: string)
    ensures Drawn(xs + ys, item) == Drawn(xs, item) + Drawn(ys, item)
  {
    if ys == [] {
      assert xs + ys == xs;
    } else {
      DrawnConcat(xs, ys[..|ys| - 1], item);
      assert (xs + ys)[..|xs + ys| - 1] == xs + ys[..|ys| - 1];
    }
  }

  lemma {:induction false} NotDrawn(rs: seq<Requirement>, item: string)
    requires forall r | r in rs :: r.inventoryItemId != item
    ensures Drawn(rs, item) == 0.0
  {
    if rs != [] {
      assert rs[|rs| - 1] in rs && forall r | r in rs[..|rs| - 1] :: r in rs;
      NotDrawn(rs[..|rs| - 1], item);
    }
  }

  predicate HasKey(ledger: seq<Movement>, key: Key) {
    exists m | m in ledger :: m.key == key
  }

  lemma FreshPut(ledger: seq<Movement>, m: Movement)
    requires !HasKey(ledger, m.key)
    ensures Put(ledger, m) == ledger + [m]
  {
    forall i | 0 <= i < |ledger| ensures ledger[i].key != m.key {
      assert ledger[i] in ledger;
    }
  }

  /** A movement with a new id succeeds if the item exists, the quantity is not zero and the rounded balance
      covers it; it is then the last of the ledger. */
  lemma StepAppends(s: Stock, m: Movement)
    requires !HasKey(s.ledger, m.key)
    ensures AppendMovement(s, m).Ok? <==>
              m.itemId in s.items && m.delta != 0.0 && (s.allowNegative || Round(Balance(s, m.itemId) as real + m.delta) >= 0)
    ensures AppendMovement(s, m).Ok? ==> AppendMovement(s, m).value == s.(ledger := s.ledger + [m])
  {
    hide Balance, Round;
    FreshPut(s.ledger, m);
  }

  /******* One order item *******/

  predicate DistinctItems(rs: seq<Requirement>) {
    forall i, j | 0 <= i < j < |rs| :: rs[i].inventoryItemId != rs[j].inventoryItemId
  }

  predicate NewKeys(ledger: seq<Movement>, orderId: string, lineId: string, trigger: string) {
    forall m | m in ledger && m.key.Sale? :: !(m.key.orderId == orderId && m.key.orderItemId == lineId && m.key.trigger == trigger)
  }

  function SaleOf(orderId: string, lineId: string, trigger: string, r: Requirement): Movement {
    Movement(Sale(orderId, lineId, trigger, r.inventoryItemId), r.inventoryItemId, -r.quantity)
  }

  /** The movements that take the requirements of one order item from stock. */
  function Sales(orderId: string, lineId: string, trigger: string, rs: seq<Requirement>): (ms: seq<Movement>)
    ensures |ms| == |rs| && forall i | 0 <= i < |rs| :: ms[i] == SaleOf(orderId, lineId, trigger, rs[i])
  {
    seq(|rs|, i requires 0 <= i < |rs| => SaleOf(orderId, lineId, trigger, rs[i]))
  }

  lemma {:induction false} SalesTotal(ledger: seq<Movement>, orderId: string, lineId: string, trigger: string, rs: seq<Requirement>, item: string)
    ensures Total(ledger + Sales(orderId, lineId, trigger, rs), item) == Total(ledger, item) - Drawn(rs, item)
  {
    hide Total, Drawn, Sales;
    if rs == [] {
      NoSales(ledger, orderId, lineId, trigger, item);
    } else {
      var init, r := rs[..|rs| - 1], rs[|rs| - 1];
      assert rs == init + [r];
      SalesTotal(ledger, orderId, lineId, trigger, init, item);
      SalesAppend(ledger, orderId, lineId, trigger, init, r);
      TotalAppend(ledger + Sales(orderId, lineId, trigger, init), SaleOf(orderId, lineId, trigger, r), item);
      DrawnAppend(init, r, item);
    }
  }

  lemma NoSales(ledger: seq<Movement>, orderId: string, lineId: string, trigger: string, item: string)
    ensures ledger + Sales(orderId, lineId, trigger, []) == ledger && Drawn([], item) == 0.0
  {}

  lemma SalesAppend(ledger: seq<Movement>, orderId: string, lineId: string, trigger: string, rs: seq<Requirement>, r: Requirement)
    ensures ledger + Sales(orderId, lineId, trigger, rs + [r]) == ledger + Sales(orderId, lineId, trigger, rs) + [SaleOf(orderId, lineId, trigger, r)]
  {}

  /** The stock carries requirement `k` after the ones before it, with balances rounded as each is taken. */
  predicate Takeable(s: Stock, rs: seq<Requirement>, k: nat)
    requires k < |rs|
  {
    && rs[k].inventoryItemId in s.items && rs[k].quantity != 0.0
    && (s.allowNegative || Round(Left(s, rs, k) as real - rs[k].quantity) >= 0)
  }

  /** The balance that requirement `k` finds. */
  function Left(s: Stock, rs: seq<Requirement>, k: nat): int
    requires k < |rs|
  {
    Round(Total(s.ledger, rs[k].inventoryItemId) - Drawn(rs[..k], rs[k].inventoryItemId))
  }

  predicate AllTakeable(s: Stock, rs: seq<Requirement>) {
    forall k | 0 <= k < |rs| :: Takeable(s, rs, k)
  }

  /** Drawing the requirements of an order item succeeds exactly when each can be taken after the earlier
      ones; then there is one sale for each. */
  lemma {:induction false} DrawSucceedsIff(s: Stock, orderId: string, lineId: string, trigger: string, rs: seq<Requirement>, n: nat)
    requires DistinctItems(rs) && NewKeys(s.ledger, orderId, lineId, trigger) && n <= |rs|
    ensures Draw(s, orderId, lineId, trigger, rs[..n]).Ok? <==> forall k | 0 <= k < n :: Takeable(s, rs, k)
    ensures Draw(s, orderId, lineId, trigger, rs[..n]).Ok? ==>
              Draw(s, orderId, lineId, trigger, rs[..n]).value == s.(ledger := s.ledger + Sales(orderId, lineId, trigger, rs[..n]))
    decreases n
  {
    hide AppendMovement, NewKeys, DistinctItems, Takeable, Sales;
    if n == 0 {
      NoSales(s.ledger, orderId, lineId, trigger, "");
      assert rs[..0] == [];
    } else {
      assert rs[..n][..n - 1] == rs[..n - 1] && rs[..n] == rs[..n - 1] + [rs[n - 1]];
      DrawSucceedsIff(s, orderId, lineId, trigger, rs, n - 1);
      SalesAppend(s.ledger, orderId, lineId, trigger, rs[..n - 1], rs[n - 1]);
      DrawNext(s, orderId, lineId, trigger, rs, n - 1);
    }
  }

  lemma DrawNext(s: Stock, orderId: string, lineId: string, trigger: string, rs: seq<Requirement>, k: nat)
    requires DistinctItems(rs) && NewKeys(s.ledger, orderId, lineId, trigger) && k < |rs|
    ensures var next, m := s.(ledger := s.ledger + Sales(orderId, lineId, trigger, rs[..k])), SaleOf(orderId, lineId, trigger, rs[k]);
            && (AppendMovement(next, m).Ok? <==> Takeable(s, rs, k))
            && (AppendMovement(next, m).Ok? ==> AppendMovement(next, m).value == next.(ledger := next.ledger + [m]))
  {
    hide Total, Drawn, AppendMovement, HasKey, Round;
    var next := s.(ledger := s.ledger + Sales(orderId, lineId, trigger, rs[..k]));
    SalesFresh(s.ledger, orderId, lineId, trigger, rs, k);
    SalesTotal(s.ledger, orderId, lineId, trigger, rs[..k], rs[k].inventoryItemId);
    StepAppends(next, SaleOf(orderId, lineId, trigger, rs[k]));
  }

  lemma SalesFresh(ledger: seq<Movement>, orderId: string, lineId: string, trigger: string, rs: seq<Requirement>, k: nat)
    requires DistinctItems(rs) && NewKeys(ledger, orderId, lineId, trigger) && k < |rs|
    ensures !HasKey(ledger + Sales(orderId, lineId, trigger, rs[..k]), Sale(orderId, lineId, trigger, rs[k].inventoryItemId))
  {
    var sales := Sales(orderId, lineId, trigger, rs[..k]);
    forall m | m in ledger + sales ensures m.key != Sale(orderId, lineId, trigger, rs[k].inventoryItemId) {
      if m !in ledger {
        var i :| 0 <= i < k && sales[i] == m;
      }
    }
  }

  /******* A whole order *******/

  function PendingOf(s: Stock, line: OrderLine, trigger: string): seq<Requirement> {
    if Pending(s, line, trigger).Ok? then Pending(s, line, trigger).value else []
  }

  function AllSales(s: Stock, orderId: string, lines: seq<OrderLine>, trigger: string): seq<Movement> {
    if lines == [] then []
    else
      var last := lines[|lines| - 1];
      AllSales(s, orderId, lines[..|lines| - 1], trigger) + Sales(orderId, last.id, trigger, PendingOf(s, last, trigger))
  }

  function Guards(lines: seq<OrderLine>, trigger: string): set<(string, string)> {
    set l | l in lines :: (l.id, trigger)
  }

  /** The stock after a deduction: a sale for every pending requirement and a guard for every item. */
  function Deducted(s: Stock, orderId: string, lines: seq<OrderLine>, trigger: string): Stock {
    s.(ledger := s.ledger + AllSales(s, orderId, lines, trigger), deducted := s.deducted + Guards(lines, trigger))
  }

  predicate DistinctLines(lines: seq<OrderLine>) {
    forall i, j | 0 <= i < j < |lines| :: lines[i].id != lines[j].id
  }

  /** One recipe row for each ingredient of a dish. */
  predicate DistinctRecipes(rows: seq<RecipeRow>) {
    forall i, j | 0 <= i < j < |rows| :: !(rows[i].menuItemId == rows[j].menuItemId && rows[i].inventoryItemId == rows[j].inventoryItemId)
  }

  /** Ids are used once, a sale is in the ledger only if its order item is guarded, and recipes name an
      ingredient once. */
  ghost predicate Inv(s: Stock) {
    && (forall i, j | 0 <= i < j < |s.ledger| :: s.ledger[i].key != s.ledger[j].key)
    && (forall m | m in s.ledger && m.key.Sale? :: (m.key.orderItemId, m.key.trigger) in s.deducted)
    && DistinctRecipes(s.recipes)
  }

  lemma UnguardedNew(s: Stock, orderId: string, line: OrderLine, trigger: string)
    requires Inv(s)
    ensures (line.id, trigger) !in s.deducted ==> NewKeys(s.ledger, orderId, line.id, trigger)
  {}

  predicate Lists(rows: seq<RecipeRow>, menuItemId: string, inventoryItemId: string) {
    exists row | row in rows :: row.menuItemId == menuItemId && row.inventoryItemId == inventoryItemId
  }

  lemma ListsLast(rows: seq<RecipeRow>)
    requires rows != [] && DistinctRecipes(rows)
    ensures var init, last := rows[..|rows| - 1], rows[|rows| - 1];
            && DistinctRecipes(init) && !Lists(init, last.menuItemId, last.inventoryItemId) && Lists(rows, last.menuItemId, last.inventoryItemId)
            && forall d, i | Lists(init, d, i) :: Lists(rows, d, i)
  {
    var init, last := rows[..|rows| - 1], rows[|rows| - 1];
    assert last in rows && forall row | row in init :: row in rows;
    forall row | row in init ensures !SameRow(row, last) {
      var k :| 0 <= k < |init| && init[k] == row;
    }
  }

  lemma {:induction false} RecipeDistinct(rows: seq<RecipeRow>, menuItemId: string, quantity: real)
    requires DistinctRecipes(rows)
    ensures DistinctItems(RecipeOf(rows, menuItemId, quantity))
    ensures forall r | r in RecipeOf(rows, menuItemId, quantity) :: Lists(rows, menuItemId, r.inventoryItemId)
  {
    hide Abs, Lists, DistinctRecipes;
    if rows != [] {
      ListsLast(rows);
      RecipeDistinct(rows[..|rows| - 1], menuItemId, quantity);
      var earlier := RecipeOf(rows[..|rows| - 1], menuItemId, quantity);
      forall i | 0 <= i < |earlier| ensures Lists(rows[..|rows| - 1], menuItemId, earlier[i].inventoryItemId) {
        assert earlier[i] in earlier;
      }
    }
  }

  lemma PendingDistinct(s: Stock, line: OrderLine, trigger: string)
    requires Inv(s)
    ensures DistinctItems(PendingOf(s, line, trigger))
  {
    hide RecipeOf, DistinctItems;
    RecipeDistinct(s.recipes, line.menuItemId, line.quantity);
    assert DistinctItems([]) && forall r: Requirement :: DistinctItems([r]) by { FewDistinct(); }
  }

  lemma FewDistinct()
    ensures DistinctItems([]) && forall r: Requirement :: DistinctItems([r])
  {}

  lemma {:induction false} AllSalesTotal(s: Stock, ledger: seq<Movement>, orderId: string, lines: seq<OrderLine>, trigger: string, item: string)
    requires Needs(s, lines, trigger).Ok?
    ensures Total(ledger + AllSales(s, orderId, lines, trigger), item) == Total(ledger, item) - Drawn(Needs(s, lines, trigger).value, item)
  {
    hide Pending, Total, Drawn, Sales;
    if lines == [] {
      assert ledger + AllSales(s, orderId, lines, trigger) == ledger;
      NoSales(ledger, orderId, "", trigger, item);
    } else {
      var init, last := lines[..|lines| - 1], lines[|lines| - 1];
      AllSalesTotal(s, ledger, orderId, init, trigger, item);
      var earlier := AllSales(s, orderId, init, trigger);
      assert ledger + AllSales(s, orderId, lines, trigger) == (ledger + earlier) + Sales(orderId, last.id, trigger, PendingOf(s, last, trigger));
      SalesTotal(ledger + earlier, orderId, last.id, trigger, PendingOf(s, last, trigger), item);
      DrawnConcat(Needs(s, init, trigger).value, PendingOf(s, last, trigger), item);
    }
  }

  /** All sales of an order are for its items that have no guard yet. */
  lemma {:induction false} AllSalesKeys(s: Stock, orderId: string, lines: seq<OrderLine>, trigger: string)
    ensures forall m | m in AllSales(s, orderId, lines, trigger) ::
              m.key.Sale? && m.key.orderId == orderId && m.key.trigger == trigger
              && (m.key.orderItemId, trigger) in Guards(lines, trigger) && (m.key.orderItemId, trigger) !in s.deducted
  {
    hide Requirements;
    if lines != [] {
      var init, last := lines[..|lines| - 1], lines[|lines| - 1];
      assert lines == init + [last];
      AllSalesKeys(s, orderId, init, trigger);
      assert Guards(lines, trigger) == Guards(init, trigger) + {(last.id, trigger)};
      var sales := Sales(orderId, last.id, trigger, PendingOf(s, last, trigger));
      forall m | m in sales ensures m.key.Sale? && m.key.orderId == orderId && m.key.trigger == trigger && m.key.orderItemId == last.id && (last.id, trigger) !in s.deducted {
        var i :| 0 <= i < |sales| && sales[i] == m;
      }
    }
  }

  lemma TakeableConcat(s: Stock, t: Stock, xs: seq<Requirement>, ys: seq<Requirement>)
    requires t.items == s.items && t.allowNegative == s.allowNegative
    requires forall item :: Total(t.ledger, item) == Total(s.ledger, item) - Drawn(xs, item)
    ensures AllTakeable(s, xs + ys) <==> AllTakeable(s, xs) && AllTakeable(t, ys)
  {
    hide Total, Drawn, Round;
    var all := xs + ys;
    forall k | 0 <= k < |xs| ensures Takeable(s, all, k) <==> Takeable(s, xs, k) {
      assert all[..k] == xs[..k];
    }
    forall k | 0 <= k < |ys| ensures Takeable(s, all, |xs| + k) <==> Takeable(t, ys, k) {
      assert all[..|xs| + k] == xs + ys[..k] && all[|xs| + k] == ys[k];
      DrawnConcat(xs, ys[..k], ys[k].inventoryItemId);
    }
    if AllTakeable(s, xs) && AllTakeable(t, ys) {
      forall k | 0 <= k < |all| ensures Takeable(s, all, k) {
        if k >= |xs| { assert Takeable(t, ys, k - |xs|) && Takeable(s, all, |xs| + (k - |xs|)); }
      }
    }
    if AllTakeable(s, all) {
      forall k | 0 <= k < |ys| ensures Takeable(t, ys, k) { assert Takeable(s, all, |xs| + k); }
      forall k | 0 <= k < |xs| ensures Takeable(s, xs, k) { assert Takeable(s, all, k); }
    }
  }

  lemma {:induction false} DeductPrefix(s: Stock, orderId: string, lines: seq<OrderLine>, trigger: string, n: nat)
    requires Inv(s) && DistinctLines(lines) && n <= |lines|
    ensures Deduct(s, orderId, lines[..n], trigger).Ok? <==> Needs(s, lines[..n], trigger).Ok? && AllTakeable(s, Needs(s, lines[..n], trigger).value)
    ensures Deduct(s, orderId, lines[..n], trigger).Ok? ==> Deduct(s, orderId, lines[..n], trigger).value == Deducted(s, orderId, lines[..n], trigger)
    decreases n
  {
    hide Inv, DistinctLines, DeductLine, Pending, AllTakeable, AllSales, Guards;
    if n == 0 {
      assert lines[..0] == [];
      NothingDeducted(s, orderId, trigger);
    } else {
      assert lines[..n][..n - 1] == lines[..n - 1] && lines[..n][n - 1] == lines[n - 1];
      DeductPrefix(s, orderId, lines, trigger, n - 1);
      if Needs(s, lines[..n - 1], trigger).Ok? {
        DeductNext(s, orderId, lines, trigger, n - 1);
      }
    }
  }

  lemma NothingDeducted(s: Stock, orderId: string, trigger: string)
    ensures AllTakeable(s, []) && Deducted(s, orderId, [], trigger) == s
  {
    assert s.ledger + [] == s.ledger && s.deducted + {} == s.deducted;
  }

  /** The next order item is deducted exactly when the stock carries its requirements after all earlier
      ones. */
  lemma DeductNext(s: Stock, orderId: string, lines: seq<OrderLine>, trigger: string, k: nat)
    requires Inv(s) && DistinctLines(lines) && k < |lines| && Needs(s, lines[..k], trigger).Ok?
    ensures var before, needs := Deducted(s, orderId, lines[..k], trigger), Needs(s, lines[..k], trigger).value;
            && (Pending(s, lines[k], trigger).Ok? ==> (AllTakeable(s, needs + PendingOf(s, lines[k], trigger)) ==> AllTakeable(s, needs)))
            && (AllTakeable(s, needs) ==>
                  && (DeductLine(before, orderId, lines[k], trigger).Ok? <==>
                        Pending(s, lines[k], trigger).Ok? && AllTakeable(s, needs + PendingOf(s, lines[k], trigger)))
                  && (DeductLine(before, orderId, lines[k], trigger).Ok? ==>
                        DeductLine(before, orderId, lines[k], trigger).value == Deducted(s, orderId, lines[..k + 1], trigger)))
  {
    hide Needs, Requirements, Draw, AllTakeable, NewKeys, DistinctItems, Sales, Total, Drawn, Takeable, Inv, DistinctLines, Guards;
    var before, line, needs := Deducted(s, orderId, lines[..k], trigger), lines[k], Needs(s, lines[..k], trigger).value;
    var rs := PendingOf(s, line, trigger);
    forall item ensures Total(before.ledger, item) == Total(s.ledger, item) - Drawn(needs, item) {
      AllSalesTotal(s, s.ledger, orderId, lines[..k], trigger, item);
    }
    TakeableConcat(s, before, needs, rs);
    GuardsNext(s, lines, trigger, k);
    assert lines[..k + 1][..k] == lines[..k];
    SameRequirements(s, before, line);
    if (line.id, trigger) in s.deducted {
      NothingDeducted(before, orderId, trigger);
      NoSales(before.ledger, orderId, line.id, trigger, "");
      assert s.ledger + (AllSales(s, orderId, lines[..k], trigger) + Sales(orderId, line.id, trigger, [])) == before.ledger + Sales(orderId, line.id, trigger, []);
    } else {
      StillNew(s, orderId, lines, trigger, k);
      PendingDistinct(s, line, trigger);
      assert rs[..|rs|] == rs;
      DrawSucceedsIff(before, orderId, line.id, trigger, rs, |rs|);
      AllOf(before, rs);
      assert before.ledger + Sales(orderId, line.id, trigger, rs) == s.ledger + (AllSales(s, orderId, lines[..k], trigger) + Sales(orderId, line.id, trigger, rs));
    }
  }

  lemma AllOf(s: Stock, rs: seq<Requirement>)
    ensures AllTakeable(s, rs) <==> forall k | 0 <= k < |rs| :: Takeable(s, rs, k)
  {
    hide Takeable;
  }

  lemma GuardsNext(s: Stock, lines: seq<OrderLine>, trigger: string, k: nat)
    requires DistinctLines(lines) && k < |lines|
    ensures Guards(lines[..k + 1], trigger) == Guards(lines[..k], trigger) + {(lines[k].id, trigger)}
    ensures (lines[k].id, trigger) !in Guards(lines[..k], trigger)
    ensures (lines[k].id, trigger) in s.deducted ==> s.deducted + Guards(lines[..k], trigger) + {(lines[k].id, trigger)} == s.deducted + Guards(lines[..k], trigger)
  {
    assert lines[..k + 1] == lines[..k] + [lines[k]];
    forall l | l in lines[..k] ensures l.id != lines[k].id {
      var i :| 0 <= i < k && lines[i] == l;
    }
  }

  lemma StillNew(s: Stock, orderId: string, lines: seq<OrderLine>, trigger: string, k: nat)
    requires Inv(s) && DistinctLines(lines) && k < |lines| && (lines[k].id, trigger) !in s.deducted
    ensures NewKeys(Deducted(s, orderId, lines[..k], trigger).ledger, orderId, lines[k].id, trigger)
  {
    UnguardedNew(s, orderId, lines[k], trigger);
    AllSalesKeys(s, orderId, lines[..k], trigger);
    GuardsNext(s, lines, trigger, k);
    hide AllSales, Guards, DistinctLines;
  }

  lemma SameRequirements(s: Stock, t: Stock, line: OrderLine)
    requires t.recipes == s.recipes && t.linked == s.linked
    ensures Requirements(t, line) == Requirements(s, line)
  {}

  /** For any quantities: the deduction of an order succeeds exactly when every requirement can be taken
      after the earlier ones. Then every item falls by exactly what the pending order items need of it, and
      every order item is marked. */
  lemma DeductionSucceedsIff(s: Stock, orderId: string, lines: seq<OrderLine>, trigger: string)
    requires Inv(s) && DistinctLines(lines)
    ensures Deduct(s, orderId, lines, trigger).Ok? <==> Needs(s, lines, trigger).Ok? && AllTakeable(s, Needs(s, lines, trigger).value)
    ensures Deduct(s, orderId, lines, trigger).Ok? ==>
              var after, needs := Deduct(s, orderId, lines, trigger).value, Needs(s, lines, trigger).value;
              && (forall item: string :: Total(after.ledger, item) == Total(s.ledger, item) - Drawn(needs, item))
              && after.deducted == s.deducted + Guards(lines, trigger)
              && after == Deducted(s, orderId, lines, trigger)
  {
    hide Inv, DistinctLines, Needs, Deduct, Total, Drawn, AllSales, AllTakeable, Guards;
    assert lines[..|lines|] == lines;
    DeductPrefix(s, orderId, lines, trigger, |lines|);
    if Needs(s, lines, trigger).Ok? {
      forall item: string
        ensures Total(s.ledger + AllSales(s, orderId, lines, trigger), item) == Total(s.ledger, item) - Drawn(Needs(s, lines, trigger).value, item)
      {
        AllSalesTotal(s, s.ledger, orderId, lines, trigger, item);
      }
    }
  }

  /******* Whole thousandths *******/

  predicate Whole(x: real) {
    x == x.Floor as real
  }

  predicate WholeLedger(ledger: seq<Movement>) {
    forall m | m in ledger :: Whole(m.delta)
  }

  predicate WholeNeeds(rs: seq<Requirement>) {
    forall r | r in rs :: Whole(r.quantity) && r.quantity >= 0.0
  }

  lemma WholeSum(x: real, y: real)
    requires Whole(x) && Whole(y)
    ensures Whole(x + y) && Whole(x - y)
  {
    Added(x.Floor, y.Floor);
    IntegerWhole(x.Floor + y.Floor);
    IntegerWhole(x.Floor - y.Floor);
  }

  lemma Added(m: int, n: int)
    ensures (m + n) as real == m as real + n as real && (m - n) as real == m as real - n as real
  {}

  lemma IntegerWhole(n: int)
    ensures Whole(n as real)
  {}

  lemma WholeRound(x: real)
    requires Whole(x)
    ensures Round(x) as real == x && (Round(x) >= 0 <==> x >= 0.0)
  {
    RoundInteger(x.Floor);
  }

  lemma RoundInteger(n: int)
    ensures Round(n as real) == n
  {}

  lemma {:induction false} WholeTotal(ledger: seq<Movement>, item: string)
    requires WholeLedger(ledger)
    ensures Whole(Total(ledger, item))
  {
    if ledger != [] {
      var init, last := ledger[..|ledger| - 1], ledger[|ledger| - 1];
      assert last in ledger && forall m | m in init :: m in ledger;
      WholeTotal(init, item);
      WholeSum(Total(init, item), if last.itemId == item then last.delta else 0.0);
    }
  }

  lemma {:induction false} WholeDrawn(rs: seq<Requirement>, item: string)
    requires WholeNeeds(rs)
    ensures Whole(Drawn(rs, item)) && Drawn(rs, item) >= 0.0
  {
    if rs != [] {
      var init, last := rs[..|rs| - 1], rs[|rs| - 1];
      assert last in rs && forall r | r in init :: r in rs;
      WholeDrawn(init, item);
      WholeSum(Drawn(init, item), if last.inventoryItemId == item then last.quantity else 0.0);
    }
  }

  /** In whole thousandths a requirement can be taken exactly when it is not zero, its item is known and the
      exact balance covers it. */
  lemma WholeTakeable(s: Stock, rs: seq<Requirement>, k: nat)
    requires WholeLedger(s.ledger) && WholeNeeds(rs) && k < |rs|
    ensures var item := rs[k].inventoryItemId;
            Takeable(s, rs, k) <==>
            item in s.items && rs[k].quantity != 0.0 && (s.allowNegative || Drawn(rs[..k + 1], item) <= Total(s.ledger, item))
  {
    hide Round;
    var r, before := rs[k], rs[..k];
    assert rs[..k + 1] == before + [r] && r in rs && forall x | x in before :: x in rs;
    DrawnAppend(before, r, r.inventoryItemId);
    WholeTotal(s.ledger, r.inventoryItemId);
    WholeDrawn(before, r.inventoryItemId);
    var left := Total(s.ledger, r.inventoryItemId) - Drawn(before, r.inventoryItemId);
    WholeSum(Total(s.ledger, r.inventoryItemId), Drawn(before, r.inventoryItemId));
    WholeRound(left);
    WholeSum(left, r.quantity);
    WholeRound(left - r.quantity);
    hide Whole, Total, Drawn;
  }

  predicate Covered(s: Stock, rs: seq<Requirement>) {
    s.allowNegative || forall r | r in rs :: Drawn(rs, r.inventoryItemId) <= Total(s.ledger, r.inventoryItemId)
  }

  /** In whole thousandths the precheck says that every item covers all that is to be drawn from it. */
  lemma PrecheckCovers(s: Stock, lines: seq<OrderLine>, trigger: string)
    requires WholeLedger(s.ledger) && (Needs(s, lines, trigger).Ok? ==> WholeNeeds(Needs(s, lines, trigger).value))
    ensures Precheck(s, lines, trigger).Ok? <==> Needs(s, lines, trigger).Ok? && Covered(s, Needs(s, lines, trigger).value)
  {
    hide Needs, Total, Drawn, Round;
    if Needs(s, lines, trigger).Ok? {
      var needs := Needs(s, lines, trigger).value;
      forall r | r in needs
        ensures Round(Balance(s, r.inventoryItemId) as real - Drawn(needs, r.inventoryItemId)) < 0 <==> Drawn(needs, r.inventoryItemId) > Total(s.ledger, r.inventoryItemId)
      {
        WholeTotal(s.ledger, r.inventoryItemId);
        WholeDrawn(needs, r.inventoryItemId);
        WholeSum(Total(s.ledger, r.inventoryItemId), Drawn(needs, r.inventoryItemId));
        WholeRound(Total(s.ledger, r.inventoryItemId));
        WholeRound(Total(s.ledger, r.inventoryItemId) - Drawn(needs, r.inventoryItemId));
      }
    }
  }

  lemma DrawnPart(rs: seq<Requirement>, n: nat, item: string)
    requires n <= |rs| && WholeNeeds(rs)
    ensures Drawn(rs[..n], item) <= Drawn(rs, item)
  {
    assert rs == rs[..n] + rs[n..];
    assert forall r | r in rs[n..] :: r in rs;
    DrawnConcat(rs[..n], rs[n..], item);
    WholeDrawn(rs[n..], item);
  }

  /** In whole thousandths, after a passed precheck the deduction of an order succeeds exactly when no
      pending requirement is zero or for an unknown item, and unless negative stock is allowed no drawn
      item is left below zero. */
  lemma DeductionCompletesIff(s: Stock, orderId: string, lines: seq<OrderLine>, trigger: string)
    requires Inv(s) && DistinctLines(lines) && Precheck(s, lines, trigger).Ok?
    requires WholeLedger(s.ledger) && WholeNeeds(Needs(s, lines, trigger).value)
    ensures Deduct(s, orderId, lines, trigger).Ok? <==> forall r | r in Needs(s, lines, trigger).value :: r.inventoryItemId in s.items && r.quantity != 0.0
    ensures Deduct(s, orderId, lines, trigger).Ok? && !s.allowNegative ==>
              forall r | r in Needs(s, lines, trigger).value :: Total(Deduct(s, orderId, lines, trigger).value.ledger, r.inventoryItemId) >= 0.0
  {
    hide Inv, DistinctLines, Needs, Deduct, Total, Drawn, Precheck, Takeable, WholeLedger, WholeNeeds, Deducted;
    DeductionSucceedsIff(s, orderId, lines, trigger);
    PrecheckCovers(s, lines, trigger);
    var needs := Needs(s, lines, trigger).value;
    forall k: nat | k < |needs| ensures Takeable(s, needs, k) <==> needs[k].inventoryItemId in s.items && needs[k].quantity != 0.0 {
      assert needs[k] in needs;
      WholeTakeable(s, needs, k);
      DrawnPart(needs, k + 1, needs[k].inventoryItemId);
    }
  }

  /******* Quantities that are finer, and recipes that round to nothing *******/

  function Lines(first: real, second: real): seq<OrderLine> {
    [OrderLine("first", "soup", first, None), OrderLine("second", "soup", second, None)]
  }

  const ONE_LEFT: Stock := Stock({"salt"}, [RecipeRow("soup", "salt", 1.0)], true, false, [Movement(OtherMovement("in"), "salt", 1.0)], {})

  lemma SoupNeeds(s: Stock, first: real, second: real, trigger: string)
    requires s.recipes == [RecipeRow("soup", "salt", 1.0)] && s.linked && s.deducted == {} && first >= 0.0 && second >= 0.0
    ensures Needs(s, Lines(first, second), trigger) == Ok([Requirement("salt", first), Requirement("salt", second)])
  {
    var lines := Lines(first, second);
    SoupRecipe(s.recipes, first);
    SoupRecipe(s.recipes, second);
    hide RecipeOf;
    assert lines[..1][..0] == [] && lines[..1] == [lines[0]] && lines[1] == OrderLine("second", "soup", second, None);
    assert Needs(s, lines[..1], trigger) == Ok([] + [Requirement("salt", first)]);
    assert [] + [Requirement("salt", first)] + [Requirement("salt", second)] == [Requirement("salt", first), Requirement("salt", second)];
  }

  lemma SoupRecipe(rows: seq<RecipeRow>, quantity: real)
    requires rows == [RecipeRow("soup", "salt", 1.0)] && quantity >= 0.0
    ensures RecipeOf(rows, "soup", quantity) == [Requirement("salt", quantity)]
  {
    assert rows[..0] == [] && RecipeOf([], "soup", quantity) == [];
  }

  /** One thousandth is left; orders of 0.55 and 0.6 portions of one thousandth pass the precheck together,
      and the second of them fails. */
  lemma FractionsBreakDeduction(orderId: string, trigger: string)
    ensures Precheck(ONE_LEFT, Lines(0.55, 0.6), trigger).Ok? && Deduct(ONE_LEFT, orderId, Lines(0.55, 0.6), trigger).Err?
  {
    SoupNeeds(ONE_LEFT, 0.55, 0.6, trigger);
    OneLeft([Requirement("salt", 0.55), Requirement("salt", 0.6)]);
    StartInv();
    hide ONE_LEFT, Inv;
    FractionsFail(ONE_LEFT, orderId, trigger);
  }

  lemma StartInv()
    ensures Inv(ONE_LEFT) && "salt" in ONE_LEFT.items && !ONE_LEFT.allowNegative
  {}

  lemma FractionsFail(s: Stock, orderId: string, trigger: string)
    requires Inv(s) && "salt" in s.items && !s.allowNegative && Total(s.ledger, "salt") == 1.0
    requires var rs := [Requirement("salt", 0.55), Requirement("salt", 0.6)];
             Needs(s, Lines(0.55, 0.6), trigger) == Ok(rs) && Drawn(rs, "salt") == 1.15 && Drawn(rs[..1], "salt") == 0.55
    ensures Precheck(s, Lines(0.55, 0.6), trigger).Ok? && Deduct(s, orderId, Lines(0.55, 0.6), trigger).Err?
  {
    var rs := [Requirement("salt", 0.55), Requirement("salt", 0.6)];
    FractionsRound();
    hide Deduct, Needs, Total, Drawn, Round, Inv;
    DeductionSucceedsIff(s, orderId, Lines(0.55, 0.6), trigger);
    assert !Takeable(s, rs, 1);
    assert forall r | r in rs :: r.inventoryItemId == "salt";
  }

  lemma OneLeft(rs: seq<Requirement>)
    requires rs == [Requirement("salt", 0.55), Requirement("salt", 0.6)]
    ensures Total(ONE_LEFT.ledger, "salt") == 1.0 && Drawn(rs, "salt") == 1.15 && Drawn(rs[..1], "salt") == 0.55
  {
    assert ONE_LEFT.ledger[..0] == [] && rs[..1][..0] == [];
    assert rs[..1] == [Requirement("salt", 0.55)] && Drawn(rs[..1], "salt") == 0.55;
    assert Total(ONE_LEFT.ledger[..0], "salt") == 0.0;
  }

  lemma FractionsRound()
    ensures Round(1.0) == 1 && Round(1.0 - 1.15) == 0 && Round(1.0 - 0.55) == 0 && Round(0.0 - 0.6) == -1
  {}

  /** saveMenuInventoryRecipe: the quantity has to be positive and is stored in whole thousandths, in place of
      what was stored for the same dish and ingredient. */
  function SaveRecipe(s: Stock, row: RecipeRow): Result<Stock> {
    if row.quantityPerUnit <= 0.0 then Err("quantityPerUnit must be greater than zero.")
    else if row.inventoryItemId !in s.items then Err("Inventory item not found.")
    else Ok(s.(recipes := Upsert(s.recipes, row.(quantityPerUnit := Round(row.quantityPerUnit) as real))))
  }

  predicate SameRow(r: RecipeRow, q: RecipeRow) {
    r.menuItemId == q.menuItemId && r.inventoryItemId == q.inventoryItemId
  }

  function Upsert(rows: seq<RecipeRow>, row: RecipeRow): (r: seq<RecipeRow>)
    ensures DistinctRecipes(rows) ==> DistinctRecipes(r)
    ensures forall q | q in r :: q == row || q in rows
  {
    if i :| 0 <= i < |rows| && SameRow(rows[i], row) && forall j | 0 <= j < i :: !SameRow(rows[j], row)
    then rows[i := row] else rows + [row]
  }

  /** A recipe of less than half a thousandth is accepted and stored as zero; the precheck of an order for
      it passes and the deduction then fails. */
  lemma TinyRecipeBreaksDeduction(orderId: string, trigger: string)
    ensures var empty := Stock({"salt"}, [], true, false, [], {});
            var saved := SaveRecipe(empty, RecipeRow("soup", "salt", 0.4));
            var lines := [OrderLine("line", "soup", 1.0, None)];
            saved.Ok? && Precheck(saved.value, lines, trigger).Ok? && Deduct(saved.value, orderId, lines, trigger).Err?
  {
    var empty := Stock({"salt"}, [], true, false, [], {});
    assert Round(0.4) == 0;
    var saved := SaveRecipe(empty, RecipeRow("soup", "salt", 0.4)).value;
    assert saved.recipes == [RecipeRow("soup", "salt", 0.0)];
    ZeroRecipe(saved, orderId, trigger);
  }

  lemma ZeroRecipe(s: Stock, orderId: string, trigger: string)
    requires s == Stock({"salt"}, [RecipeRow("soup", "salt", 0.0)], true, false, [], {})
    ensures var lines := [OrderLine("line", "soup", 1.0, None)];
            Precheck(s, lines, trigger).Ok? && Deduct(s, orderId, lines, trigger).Err?
  {
    var line := OrderLine("line", "soup", 1.0, None);
    ZeroNeeds(s, line, trigger);
    assert Total(s.ledger, "salt") == 0.0 && Round(0.0) == 0;
    assert Drawn([Requirement("salt", 0.0)], "salt") == 0.0;
    hide Needs, Deduct, Drawn, Round, Total;
    DeductionSucceedsIff(s, orderId, [line], trigger);
    assert !Takeable(s, [Requirement("salt", 0.0)], 0);
  }

  lemma ZeroNeeds(s: Stock, line: OrderLine, trigger: string)
    requires s.recipes == [RecipeRow("soup", "salt", 0.0)] && s.linked && s.deducted == {} && line.menuItemId == "soup" && line.quantity == 1.0
    ensures Needs(s, [line], trigger) == Ok([Requirement("salt", 0.0)])
  {
    assert s.recipes[..0] == [] && RecipeOf([], "soup", 1.0) == [];
    assert RecipeOf(s.recipes, "soup", 1.0) == [Requirement("salt", 0.0)];
    hide RecipeOf;
    assert [line][..0] == [] && [] + [Requirement("salt", 0.0)] == [Requirement("salt", 0.0)];
  }

  /******* Runs *******/

  datatype Action =
    | Record(movement: Movement)
    | DeductOrder(orderId: string, lines: seq<OrderLine>, trigger: string)
    | Recipe(row: RecipeRow)

  /** An operation that fails is rolled back. */
  function After(s: Stock, r: Result<Stock>): Stock {
    match r
    case Ok(after) => after
    case Err(_) => s
  }

  /** A status transition checks the stock before it deducts. */
  function Next(s: Stock, a: Action): Stock {
    match a
    case Record(m) => After(s, AppendMovement(s, m))
    case DeductOrder(orderId, lines, trigger) =>
      if Precheck(s, lines, trigger).Err? then s else After(s, Deduct(s, orderId, lines, trigger))
    case Recipe(row) => After(s, SaveRecipe(s, row))
  }

  function Run(s: Stock, actions: seq<Action>): Stock {
    if actions == [] then s else Next(Run(s, actions[..|actions| - 1]), actions[|actions| - 1])
  }

  /** Other movements have ids of their own, or repeat what they recorded before; the items of an order have
      ids of their own. */
  predicate Regular(s: Stock, a: Action) {
    match a
    case Record(m) => m.key.OtherMovement? && (HasKey(s.ledger, m.key) ==> m in s.ledger)
    case DeductOrder(_, lines, _) => DistinctLines(lines)
    case Recipe(_) => true
  }

  predicate RegularRun(s: Stock, actions: seq<Action>) {
    forall n | 0 <= n < |actions| :: Regular(Run(s, actions[..n]), actions[n])
  }

  /** What an operation adds to the ledger. */
  function NewMovements(s: Stock, a: Action): seq<Movement> {
    match a
    case Record(m) => if AppendMovement(s, m).Ok? && !HasKey(s.ledger, m.key) then [m] else []
    case DeductOrder(orderId, lines, trigger) =>
      if Precheck(s, lines, trigger).Ok? && Deduct(s, orderId, lines, trigger).Ok? then AllSales(s, orderId, lines, trigger) else []
    case Recipe(_) => []
  }

  /** Every operation only appends to the ledger, and none of its sales is for an item that is guarded. */
  lemma NextAppends(s: Stock, a: Action)
    requires Inv(s) && Regular(s, a)
    ensures var t := Next(s, a);
            && t.ledger == s.ledger + NewMovements(s, a) && s.deducted <= t.deducted && t.allowNegative == s.allowNegative
            && (forall m | m in NewMovements(s, a) && m.key.Sale? ::
                  (m.key.orderItemId, m.key.trigger) !in s.deducted && (m.key.orderItemId, m.key.trigger) in t.deducted)
  {
    hide Precheck, Deduct, AppendMovement, AllSales, SaveRecipe, Inv, DistinctLines, Guards;
    match a
    case Record(m) => RecordAppends(s, m);
    case DeductOrder(orderId, lines, trigger) =>
      DeductionSucceedsIff(s, orderId, lines, trigger);
      AllSalesKeys(s, orderId, lines, trigger);
      assert s.ledger + [] == s.ledger;
    case Recipe(row) => RecipeOnly(s, row); assert s.ledger + [] == s.ledger;
  }

  lemma RecipeOnly(s: Stock, row: RecipeRow)
    ensures SaveRecipe(s, row).Ok? ==> SaveRecipe(s, row).value == s.(recipes := SaveRecipe(s, row).value.recipes)
    ensures SaveRecipe(s, row).Ok? && DistinctRecipes(s.recipes) ==> DistinctRecipes(SaveRecipe(s, row).value.recipes)
  {}

  /** Repeating a movement that is recorded changes nothing. */
  lemma RecordAppends(s: Stock, m: Movement)
    requires Inv(s) && Regular(s, Record(m))
    ensures AppendMovement(s, m).Ok? ==> AppendMovement(s, m).value == s.(ledger := s.ledger + NewMovements(s, Record(m)))
    ensures s.ledger + [] == s.ledger
  {
    hide Balance, Round;
    if HasKey(s.ledger, m.key) {
      var i :| 0 <= i < |s.ledger| && s.ledger[i] == m;
      var k := IndexOf(s.ledger, m.key);
      assert k.Some? && k.value == i;
      assert s.ledger[i := m] == s.ledger;
    } else {
      FreshPut(s.ledger, m);
    }
  }

  lemma {:induction false} SalesUnique(s: Stock, orderId: string, lines: seq<OrderLine>, trigger: string)
    requires Inv(s) && DistinctLines(lines)
    ensures forall i, j | 0 <= i < j < |AllSales(s, orderId, lines, trigger)| :: AllSales(s, orderId, lines, trigger)[i].key != AllSales(s, orderId, lines, trigger)[j].key
    decreases |lines|
  {
    hide PendingOf, Inv;
    if lines != [] {
      var init, last := lines[..|lines| - 1], lines[|lines| - 1];
      SalesUnique(s, orderId, init, trigger);
      PendingDistinct(s, last, trigger);
      AllSalesKeys(s, orderId, init, trigger);
      assert lines[..|lines| - 1 + 1] == lines;
      GuardsNext(s, lines, trigger, |lines| - 1);
      hide Guards;
      var earlier, sales := AllSales(s, orderId, init, trigger), Sales(orderId, last.id, trigger, PendingOf(s, last, trigger));
      forall i | 0 <= i < |earlier| ensures (earlier[i].key.orderItemId, trigger) in Guards(init, trigger) && earlier[i].key.Sale? {
        assert earlier[i] in earlier;
      }
    }
  }

  lemma NextInv(s: Stock, a: Action)
    requires Inv(s) && Regular(s, a)
    ensures Inv(Next(s, a))
  {
    NextAppends(s, a);
    AddedUnique(s, a);
    NextRecipes(s, a);
    hide Next, Regular, NewMovements;
    var t, more := Next(s, a), NewMovements(s, a);
    forall i, j | 0 <= i < j < |t.ledger| ensures t.ledger[i].key != t.ledger[j].key {
      if i < |s.ledger| <= j {
        assert s.ledger[i] in s.ledger && more[j - |s.ledger|] in more;
      } else if i >= |s.ledger| {
        assert more[i - |s.ledger|].key != more[j - |s.ledger|].key;
      }
    }
  }

  lemma NextRecipes(s: Stock, a: Action)
    requires Inv(s) && Regular(s, a)
    ensures DistinctRecipes(Next(s, a).recipes)
  {
    hide Precheck, Deduct, AppendMovement, AllSales, SaveRecipe, DistinctLines, DistinctRecipes;
    match a
    case Record(m) => RecordAppends(s, m);
    case DeductOrder(orderId, lines, trigger) => DeductionSucceedsIff(s, orderId, lines, trigger);
    case Recipe(row) => RecipeOnly(s, row);
  }

  lemma AddedUnique(s: Stock, a: Action)
    requires Inv(s) && Regular(s, a)
    ensures var more := NewMovements(s, a);
            && (forall i, j | 0 <= i < j < |more| :: more[i].key != more[j].key)
            && forall m, n | m in s.ledger && n in more :: m.key != n.key
  {
    hide Precheck, Deduct, AppendMovement, AllSales, Guards;
    match a
    case DeductOrder(orderId, lines, trigger) =>
      AllSalesKeys(s, orderId, lines, trigger);
      SalesUnique(s, orderId, lines, trigger);
    case _ =>
  }

  lemma RegularPrefix(s: Stock, actions: seq<Action>, n: nat)
    requires RegularRun(s, actions) && n <= |actions|
    ensures RegularRun(s, actions[..n])
  {
    hide Regular, Next;
    forall k | 0 <= k < n ensures Regular(Run(s, actions[..n][..k]), actions[..n][k]) {
      assert actions[..n][..k] == actions[..k];
    }
  }

  lemma {:induction false} RunInv(s: Stock, actions: seq<Action>)
    requires Inv(s) && RegularRun(s, actions)
    ensures Inv(Run(s, actions))
  {
    hide Inv, Next, Regular;
    if actions != [] {
      var n := |actions| - 1;
      RegularPrefix(s, actions, n);
      RunInv(s, actions[..n]);
      assert Regular(Run(s, actions[..n]), actions[n]);
      NextInv(Run(s, actions[..n]), actions[n]);
    }
  }

  /******* Once for each trigger *******/

  /** The sales of an order item for a trigger. */
  function SalesFor(ledger: seq<Movement>, lineId: string, trigger: string): seq<Movement> {
    if ledger == [] then []
    else
      var earlier, m := SalesFor(ledger[..|ledger| - 1], lineId, trigger), ledger[|ledger| - 1];
      if m.key.Sale? && m.key.orderItemId == lineId && m.key.trigger == trigger then earlier + [m] else earlier
  }

  lemma {:induction false} SalesForMembers(ledger: seq<Movement>, lineId: string, trigger: string)
    ensures forall m :: m in SalesFor(ledger, lineId, trigger) <==> m in ledger && m.key.Sale? && m.key.orderItemId == lineId && m.key.trigger == trigger
  {
    if ledger != [] {
      SalesForMembers(ledger[..|ledger| - 1], lineId, trigger);
      assert ledger == ledger[..|ledger| - 1] + [ledger[|ledger| - 1]];
    }
  }

  lemma {:induction false} SalesForConcat(xs: seq<Movement>, ys: seq<Movement>, lineId: string, trigger: string)
    ensures SalesFor(xs + ys, lineId, trigger) == SalesFor(xs, lineId, trigger) + SalesFor(ys, lineId, trigger)
  {
    if ys == [] {
      assert xs + ys == xs;
    } else {
      SalesForConcat(xs, ys[..|ys| - 1], lineId, trigger);
      assert (xs + ys)[..|xs + ys| - 1] == xs + ys[..|ys| - 1];
    }
  }

  lemma {:induction false} SalesForNone(ledger: seq<Movement>, lineId: string, trigger: string)
    requires forall m | m in ledger && m.key.Sale? :: !(m.key.orderItemId == lineId && m.key.trigger == trigger)
    ensures SalesFor(ledger, lineId, trigger) == []
  {
    if ledger != [] {
      assert ledger[|ledger| - 1] in ledger && forall m | m in ledger[..|ledger| - 1] :: m in ledger;
      SalesForNone(ledger[..|ledger| - 1], lineId, trigger);
    }
  }

  /** An order item that was deducted for a trigger is never deducted for it again: over any run the sales
      made for it stay what they are. An item without a guard has no sale. */
  lemma {:induction false} DeductedOnce(s: Stock, actions: seq<Action>, lineId: string, trigger: string)
    requires Inv(s) && RegularRun(s, actions)
    ensures (lineId, trigger) in s.deducted ==>
              && (lineId, trigger) in Run(s, actions).deducted
              && SalesFor(Run(s, actions).ledger, lineId, trigger) == SalesFor(s.ledger, lineId, trigger)
    ensures (lineId, trigger) !in s.deducted ==> SalesFor(s.ledger, lineId, trigger) == []
  {
    if (lineId, trigger) !in s.deducted {
      SalesForNone(s.ledger, lineId, trigger);
    }
    hide Inv, Next, Regular, SalesFor, NewMovements;
    if actions != [] {
      var n := |actions| - 1;
      RegularPrefix(s, actions, n);
      DeductedOnce(s, actions[..n], lineId, trigger);
      RunInv(s, actions[..n]);
      var before := Run(s, actions[..n]);
      assert Regular(before, actions[n]);
      NextAppends(before, actions[n]);
      if (lineId, trigger) in before.deducted {
        SalesForConcat(before.ledger, NewMovements(before, actions[n]), lineId, trigger);
        SalesForNone(NewMovements(before, actions[n]), lineId, trigger);
      }
    }
  }

  /******* Balances over runs *******/

  /** No exact balance is below `floor`. */
  ghost predicate AtLeast(s: Stock, floor: real) {
    forall item: string :: Total(s.ledger, item) >= floor
  }

  /** The service accepts the movement. */
  predicate Accepted(s: Stock, m: Movement) {
    m.itemId in s.items && m.delta != 0.0 && (s.allowNegative || Round(Balance(s, m.itemId) as real + m.delta) >= 0)
  }

  /** The operation passes every check of the service and takes an exact balance below `floor`. */
  ghost predicate Overdraws(s: Stock, a: Action, floor: real) {
    match a
    case Record(m) => !HasKey(s.ledger, m.key) && Accepted(s, m) && Total(s.ledger, m.itemId) + m.delta < floor
    case DeductOrder(_, lines, trigger) =>
      && Precheck(s, lines, trigger).Ok? && AllTakeable(s, Needs(s, lines, trigger).value)
      && exists r :: r in Needs(s, lines, trigger).value
                     && Total(s.ledger, r.inventoryItemId) - Drawn(Needs(s, lines, trigger).value, r.inventoryItemId) < floor
    case Recipe(_) => false
  }

  lemma PrecheckNeeds(s: Stock, lines: seq<OrderLine>, trigger: string)
    ensures Precheck(s, lines, trigger).Ok? ==> Needs(s, lines, trigger).Ok?
  {}

  lemma RecordStaysIff(s: Stock, m: Movement, floor: real)
    requires Inv(s) && Regular(s, Record(m)) && AtLeast(s, floor)
    ensures AtLeast(Next(s, Record(m)), floor) <==> !Overdraws(s, Record(m), floor)
  {
    hide Total, Inv, HasKey, Accepted;
    RecordAppends(s, m);
    if !HasKey(s.ledger, m.key) {
      StepAppends(s, m);
      assert Accepted(s, m) <==> AppendMovement(s, m).Ok? by { SameAcceptance(s, m); }
      hide AppendMovement;
      forall item: string ensures Total(s.ledger + [m], item) == Total(s.ledger, item) + if m.itemId == item then m.delta else 0.0 {
        TotalAppend(s.ledger, m, item);
      }
    }
  }

  lemma SameAcceptance(s: Stock, m: Movement)
    ensures Accepted(s, m) <==> AppendMovement(s, m).Ok?
  {
    hide Round;
  }

  lemma DeductStaysIff(s: Stock, orderId: string, lines: seq<OrderLine>, trigger: string, floor: real)
    requires Inv(s) && DistinctLines(lines) && AtLeast(s, floor)
    ensures AtLeast(Next(s, DeductOrder(orderId, lines, trigger)), floor) <==> !Overdraws(s, DeductOrder(orderId, lines, trigger), floor)
  {
    hide Precheck, Deduct, Inv, DistinctLines, Drawn, Total, AllTakeable, Needs, Deducted;
    DeductionSucceedsIff(s, orderId, lines, trigger);
    PrecheckNeeds(s, lines, trigger);
    if Precheck(s, lines, trigger).Ok? && Deduct(s, orderId, lines, trigger).Ok? {
      var after, needs := Deduct(s, orderId, lines, trigger).value, Needs(s, lines, trigger).value;
      if !Overdraws(s, DeductOrder(orderId, lines, trigger), floor) {
        forall item: string ensures Total(after.ledger, item) >= floor {
          if r :| r in needs && r.inventoryItemId == item {
          } else {
            NotDrawn(needs, item);
          }
        }
      }
    }
  }

  /** Balances stay at or above a floor exactly when the operation does not overdraw. */
  lemma NextStaysIff(s: Stock, a: Action, floor: real)
    requires Inv(s) && Regular(s, a) && AtLeast(s, floor)
    ensures AtLeast(Next(s, a), floor) <==> !Overdraws(s, a, floor)
  {
    match a
    case Record(m) => RecordStaysIff(s, m, floor);
    case DeductOrder(orderId, lines, trigger) => DeductStaysIff(s, orderId, lines, trigger, floor);
    case Recipe(row) =>
      hide SaveRecipe, AtLeast;
      RecipeOnly(s, row);
      SameLedger(s, Next(s, a), floor);
  }

  lemma SameLedger(s: Stock, t: Stock, floor: real)
    requires t.ledger == s.ledger
    ensures AtLeast(t, floor) <==> AtLeast(s, floor)
  {}

  /** No state of the run is below the floor. */
  ghost predicate StaysAtLeast(s: Stock, actions: seq<Action>, floor: real) {
    forall n | 0 <= n <= |actions| :: AtLeast(Run(s, actions[..n]), floor)
  }

  ghost predicate NeverOverdraws(s: Stock, actions: seq<Action>, floor: real) {
    forall n | 0 <= n < |actions| :: !Overdraws(Run(s, actions[..n]), actions[n], floor)
  }

  lemma StaysLast(s: Stock, actions: seq<Action>, floor: real)
    requires actions != []
    ensures var n := |actions| - 1;
            && (StaysAtLeast(s, actions, floor) <==> StaysAtLeast(s, actions[..n], floor) && AtLeast(Run(s, actions), floor))
            && (StaysAtLeast(s, actions, floor) ==> AtLeast(Run(s, actions[..n]), floor))
  {
    hide Run, AtLeast;
    var n := |actions| - 1;
    forall k | 0 <= k <= n ensures actions[..n][..k] == actions[..k] {}
    assert actions[..|actions|] == actions;
    if StaysAtLeast(s, actions[..n], floor) && AtLeast(Run(s, actions), floor) {
      forall k | 0 <= k <= |actions| ensures AtLeast(Run(s, actions[..k]), floor) {
        if k <= n { assert AtLeast(Run(s, actions[..n][..k]), floor); }
      }
    }
    if StaysAtLeast(s, actions, floor) {
      forall k | 0 <= k <= n ensures AtLeast(Run(s, actions[..n][..k]), floor) {
        assert AtLeast(Run(s, actions[..k]), floor);
      }
      assert AtLeast(Run(s, actions[..|actions|]), floor);
    }
  }

  lemma OverdrawsLast(s: Stock, actions: seq<Action>, floor: real)
    requires actions != []
    ensures var n := |actions| - 1;
            NeverOverdraws(s, actions, floor) <==> NeverOverdraws(s, actions[..n], floor) && !Overdraws(Run(s, actions[..n]), actions[n], floor)
  {
    hide Run, Overdraws;
    var n := |actions| - 1;
    forall k | 0 <= k < n ensures actions[..n][..k] == actions[..k] && actions[..n][k] == actions[k] {}
    if NeverOverdraws(s, actions[..n], floor) && !Overdraws(Run(s, actions[..n]), actions[n], floor) {
      forall k | 0 <= k < |actions| ensures !Overdraws(Run(s, actions[..k]), actions[k], floor) {
        if k < n { assert !Overdraws(Run(s, actions[..n][..k]), actions[..n][k], floor); }
      }
    }
    if NeverOverdraws(s, actions, floor) {
      forall k | 0 <= k < n ensures !Overdraws(Run(s, actions[..n][..k]), actions[..n][k], floor) {
        assert !Overdraws(Run(s, actions[..k]), actions[k], floor);
      }
    }
  }

  /** Over a whole run balances stay at or above a floor exactly when none of its operations overdraws. */
  lemma {:induction false} RunStaysIff(s: Stock, actions: seq<Action>, floor: real)
    requires Inv(s) && RegularRun(s, actions) && AtLeast(s, floor)
    ensures StaysAtLeast(s, actions, floor) <==> NeverOverdraws(s, actions, floor)
    ensures StaysAtLeast(s, actions, floor) ==> AtLeast(Run(s, actions), floor)
  {
    if actions == [] {
      assert actions[..0] == [];
    } else {
      hide Inv, Next, Regular, AtLeast, Overdraws, StaysAtLeast, NeverOverdraws;
      var n := |actions| - 1;
      RegularPrefix(s, actions, n);
      RunStaysIff(s, actions[..n], floor);
      StaysLast(s, actions, floor);
      OverdrawsLast(s, actions, floor);
      RunInv(s, actions[..n]);
      assert Regular(Run(s, actions[..n]), actions[n]);
      if AtLeast(Run(s, actions[..n]), floor) {
        NextStaysIff(Run(s, actions[..n]), actions[n], floor);
      }
    }
  }

  /** The balances that the service reports are not negative. */
  ghost predicate NoneReportedNegative(s: Stock) {
    forall item: string :: Balance(s, item) >= 0
  }

  lemma RoundedNonNegative(x: real)
    ensures Round(x) >= 0 <==> x >= -0.5
  {}

  lemma ReportedIff(s: Stock)
    ensures NoneReportedNegative(s) <==> AtLeast(s, -0.5)
  {
    forall item: string ensures Balance(s, item) >= 0 <==> Total(s.ledger, item) >= -0.5 {
      RoundedNonNegative(Total(s.ledger, item));
    }
  }

  /** No balance is ever reported negative exactly when no operation of the run is accepted and takes an
      exact balance below minus half a thousandth. */
  lemma ReportedRunIff(s: Stock, actions: seq<Action>)
    requires Inv(s) && RegularRun(s, actions) && NoneReportedNegative(s)
    ensures (forall n | 0 <= n <= |actions| :: NoneReportedNegative(Run(s, actions[..n]))) <==> NeverOverdraws(s, actions, -0.5)
  {
    hide Inv, RegularRun, Run, AtLeast, NoneReportedNegative, NeverOverdraws;
    ReportedIff(s);
    RunStaysIff(s, actions, -0.5);
    forall n | 0 <= n <= |actions| ensures NoneReportedNegative(Run(s, actions[..n])) <==> AtLeast(Run(s, actions[..n]), -0.5) {
      ReportedIff(Run(s, actions[..n]));
    }
  }

  /******* What "prevent" prevents *******/

  lemma SamePolicy(s: Stock, actions: seq<Action>)
    requires Inv(s) && RegularRun(s, actions)
    ensures Run(s, actions).allowNegative == s.allowNegative
  {
    hide Inv, Next, Regular, NewMovements;
    if actions != [] {
      var n := |actions| - 1;
      RegularPrefix(s, actions, n);
      SamePolicy(s, actions[..n]);
      RunInv(s, actions[..n]);
      assert Regular(Run(s, actions[..n]), actions[n]);
      NextAppends(Run(s, actions[..n]), actions[n]);
    }
  }

  lemma RoundedStep(total: real, quantity: real)
    requires Round(Round(total) as real - quantity) >= 0
    ensures total - quantity >= -1.0
  {
    RoundNearest(total);
    RoundNearest(Round(total) as real - quantity);
    hide Round;
  }

  lemma {:induction false} TakenBounded(s: Stock, rs: seq<Requirement>, n: nat, item: string)
    requires !s.allowNegative && AtLeast(s, -1.0) && AllTakeable(s, rs) && n <= |rs|
    ensures Total(s.ledger, item) - Drawn(rs[..n], item) >= -1.0
    decreases n
  {
    hide Round, Total, AtLeast;
    if n == 0 {
      assert Total(s.ledger, item) >= -1.0 by { AtLeastAt(s, item, -1.0); }
      assert rs[..0] == [];
    } else {
      TakenBounded(s, rs, n - 1, item);
      assert rs[..n] == rs[..n - 1] + [rs[n - 1]];
      DrawnAppend(rs[..n - 1], rs[n - 1], item);
      assert Takeable(s, rs, n - 1);
      if rs[n - 1].inventoryItemId == item {
        RoundedStep(Total(s.ledger, item) - Drawn(rs[..n - 1], item), rs[n - 1].quantity);
      }
    }
  }

  lemma AtLeastAt(s: Stock, item: string, floor: real)
    requires AtLeast(s, floor)
    ensures Total(s.ledger, item) >= floor
  {}

  /** Whatever the quantities, "prevent" lets no operation take an exact balance below minus one
      thousandth. */
  lemma BoundedStep(s: Stock, a: Action)
    requires !s.allowNegative && AtLeast(s, -1.0)
    ensures !Overdraws(s, a, -1.0)
  {
    hide Total, Drawn, Round, AtLeast, Needs, AllTakeable, Precheck;
    match a
    case Record(m) =>
      if Accepted(s, m) { RoundedStep(Total(s.ledger, m.itemId), -m.delta); }
    case DeductOrder(_, lines, trigger) =>
      PrecheckNeeds(s, lines, trigger);
      if Precheck(s, lines, trigger).Ok? && AllTakeable(s, Needs(s, lines, trigger).value) {
        var needs := Needs(s, lines, trigger).value;
        assert needs[..|needs|] == needs;
        forall r | r in needs ensures Total(s.ledger, r.inventoryItemId) - Drawn(needs, r.inventoryItemId) >= -1.0 {
          TakenBounded(s, needs, |needs|, r.inventoryItemId);
        }
      }
    case Recipe(_) =>
  }

  lemma {:induction false} RunBounded(s: Stock, actions: seq<Action>)
    requires Inv(s) && RegularRun(s, actions) && !s.allowNegative && AtLeast(s, -1.0)
    ensures AtLeast(Run(s, actions), -1.0)
  {
    hide Inv, AtLeast, Next, Regular, Overdraws;
    if actions != [] {
      var n := |actions| - 1;
      RegularPrefix(s, actions, n);
      RunBounded(s, actions[..n]);
      RunInv(s, actions[..n]);
      SamePolicy(s, actions[..n]);
      assert Regular(Run(s, actions[..n]), actions[n]);
      BoundedStep(Run(s, actions[..n]), actions[n]);
      NextStaysIff(Run(s, actions[..n]), actions[n], -1.0);
    }
  }

  /** The bound is reached: half a thousandth can be taken twice from nothing, and the balance is then
      minus one. */
  lemma HalvesGoNegative()
    ensures var s := Stock({"salt"}, [], true, false, [], {});
            var first, second := Record(Movement(OtherMovement("1"), "salt", -0.5)), Record(Movement(OtherMovement("2"), "salt", -0.5));
            Regular(s, first) && Regular(Next(s, first), second) && Balance(Run(s, [first, second]), "salt") == -1
  {
    var s := Stock({"salt"}, [], true, false, [], {});
    var m, n := Movement(OtherMovement("1"), "salt", -0.5), Movement(OtherMovement("2"), "salt", -0.5);
    assert Round(0.0) == 0 && Round(-0.5) == 0 && Round(-1.0) == -1;
    StepAppends(s, m);
    assert [m][..0] == [] && Total([m], "salt") == -0.5;
    assert Next(s, Record(m)) == s.(ledger := [] + [m]) && [] + [m] == [m];
    StepAppends(s.(ledger := [m]), n);
    assert ([m] + [n])[..1] == [m] && Total([m] + [n], "salt") == -1.0;
    assert [Record(m), Record(n)][..1] == [Record(m)] && [Record(m)][..0] == [];
    assert Run(s, [Record(m)]) == s.(ledger := [m]);
  }

  /** The operation moves whole thousandths. */
  predicate WholeStep(s: Stock, a: Action) {
    match a
    case Record(m) => Whole(m.delta)
    case DeductOrder(_, lines, trigger) => Needs(s, lines, trigger).Ok? ==> WholeNeeds(Needs(s, lines, trigger).value)
    case Recipe(_) => true
  }

  lemma {:induction false} AllSalesWhole(s: Stock, orderId: string, lines: seq<OrderLine>, trigger: string)
    requires Needs(s, lines, trigger).Ok? && WholeNeeds(Needs(s, lines, trigger).value)
    ensures WholeLedger(AllSales(s, orderId, lines, trigger))
  {
    hide Pending, Sales, PendingOf, WholeNeeds, WholeLedger;
    if lines == [] {
      NoWhole();
    } else {
      var init, last := lines[..|lines| - 1], lines[|lines| - 1];
      NeedsLast(s, lines, trigger);
      WholeParts(Needs(s, init, trigger).value, PendingOf(s, last, trigger));
      AllSalesWhole(s, orderId, init, trigger);
      SalesWhole(orderId, last.id, trigger, PendingOf(s, last, trigger));
      WholeJoin(AllSales(s, orderId, init, trigger), Sales(orderId, last.id, trigger, PendingOf(s, last, trigger)));
    }
  }

  lemma NoWhole()
    ensures WholeLedger([])
  {}

  lemma NeedsLast(s: Stock, lines: seq<OrderLine>, trigger: string)
    requires lines != [] && Needs(s, lines, trigger).Ok?
    ensures Needs(s, lines[..|lines| - 1], trigger).Ok?
    ensures Needs(s, lines, trigger).value == Needs(s, lines[..|lines| - 1], trigger).value + PendingOf(s, lines[|lines| - 1], trigger)
  {
    hide Pending;
  }

  lemma WholeParts(xs: seq<Requirement>, ys: seq<Requirement>)
    requires WholeNeeds(xs + ys)
    ensures WholeNeeds(xs) && WholeNeeds(ys)
  {
    hide Whole;
    assert (forall r | r in xs :: r in xs + ys) && forall r | r in ys :: r in xs + ys;
  }

  lemma WholeJoin(xs: seq<Movement>, ys: seq<Movement>)
    requires WholeLedger(xs) && WholeLedger(ys)
    ensures WholeLedger(xs + ys)
  {
    hide Whole;
  }

  lemma SalesWhole(orderId: string, lineId: string, trigger: string, rs: seq<Requirement>)
    requires WholeNeeds(rs)
    ensures WholeLedger(Sales(orderId, lineId, trigger, rs))
  {
    var sales := Sales(orderId, lineId, trigger, rs);
    forall m | m in sales ensures Whole(m.delta) {
      var i :| 0 <= i < |sales| && sales[i] == m;
      assert rs[i] in rs;
      WholeSum(0.0, rs[i].quantity);
    }
  }

  /** In whole thousandths "prevent" lets no operation make a balance negative. */
  lemma WholeCovers(s: Stock, a: Action)
    requires !s.allowNegative && WholeLedger(s.ledger) && WholeStep(s, a)
    ensures !Overdraws(s, a, 0.0)
  {
    hide Total, Drawn, Round, Needs, AllTakeable, Precheck, WholeNeeds, WholeLedger, Whole;
    match a
    case Record(m) =>
      if Accepted(s, m) { WholeRecord(s, m); }
    case DeductOrder(_, lines, trigger) =>
      PrecheckNeeds(s, lines, trigger);
      PrecheckCovers(s, lines, trigger);
    case Recipe(_) =>
  }

  lemma WholeNext(s: Stock, a: Action)
    requires Inv(s) && Regular(s, a) && WholeLedger(s.ledger) && WholeStep(s, a)
    ensures WholeLedger(Next(s, a).ledger)
  {
    hide Precheck, Deduct, AppendMovement, SaveRecipe, Inv, DistinctLines, AllTakeable, Needs, Whole, WholeNeeds, AllSales;
    match a
    case Record(m) => RecordAppends(s, m);
    case DeductOrder(orderId, lines, trigger) =>
      if Precheck(s, lines, trigger).Ok? && Deduct(s, orderId, lines, trigger).Ok? {
        DeductionSucceedsIff(s, orderId, lines, trigger);
        AllSalesWhole(s, orderId, lines, trigger);
      }
    case Recipe(row) => RecipeOnly(s, row);
  }

  lemma WholeRecord(s: Stock, m: Movement)
    requires WholeLedger(s.ledger) && Whole(m.delta) && Round(Balance(s, m.itemId) as real + m.delta) >= 0
    ensures Total(s.ledger, m.itemId) + m.delta >= 0.0
  {
    hide Round;
    WholeTotal(s.ledger, m.itemId);
    WholeSum(Total(s.ledger, m.itemId), m.delta);
    WholeRound(Total(s.ledger, m.itemId));
    WholeRound(Total(s.ledger, m.itemId) + m.delta);
  }

  ghost predicate Solvent(s: Stock) {
    WholeLedger(s.ledger) && !s.allowNegative && AtLeast(s, 0.0)
  }

  /** In whole thousandths no operation makes a balance negative under "prevent". */
  lemma NextSolvent(s: Stock, a: Action)
    requires Inv(s) && Regular(s, a) && Solvent(s) && WholeStep(s, a)
    ensures Solvent(Next(s, a))
  {
    hide Inv, Regular, AtLeast, WholeLedger, Overdraws, WholeStep, Next, NewMovements;
    NextAppends(s, a);
    WholeCovers(s, a);
    WholeNext(s, a);
    NextStaysIff(s, a, 0.0);
  }

  lemma {:induction false} RunSolvent(s: Stock, actions: seq<Action>)
    requires Inv(s) && RegularRun(s, actions) && Solvent(s) && forall n | 0 <= n < |actions| :: WholeStep(Run(s, actions[..n]), actions[n])
    ensures Solvent(Run(s, actions))
  {
    hide Inv, Solvent, Next, Regular, WholeStep;
    if actions != [] {
      var n := |actions| - 1;
      RegularPrefix(s, actions, n);
      forall k | 0 <= k < n ensures WholeStep(Run(s, actions[..n][..k]), actions[..n][k]) {
        assert actions[..n][..k] == actions[..k];
      }
      RunSolvent(s, actions[..n]);
      RunInv(s, actions[..n]);
      assert Regular(Run(s, actions[..n]), actions[n]) && WholeStep(Run(s, actions[..n]), actions[n]);
      NextSolvent(Run(s, actions[..n]), actions[n]);
    }
  }

  /******* The service *******/

  class Stockroom {
    var stock: Stock

    constructor (initial: Stock)
      ensures stock == initial
    {
      stock := initial;
    }

    /** A movement with a new id moves the total of its item by its quantity, and no other. */
    method AppendStockMovement(m: Movement) returns (r: Result<()>)
      modifies this
      ensures r.Ok? <==> AppendMovement(old(stock), m).Ok?
      ensures stock == if r.Ok? then AppendMovement(old(stock), m).value else old(stock)
      ensures r.Ok? && !HasKey(old(stock).ledger, m.key) ==>
                forall item :: Total(stock.ledger, item) == Total(old(stock).ledger, item) + if item == m.itemId then m.delta else 0.0
    {
      ghost var ledger := stock.ledger;
      hide Total, Round, Balance;
      if m.itemId !in stock.items { return Err("Inventory item not found."); }
      if m.delta == 0.0 { return Err("quantityDelta must be a non-zero number."); }
      var before := Balance(stock, m.itemId);
      if Round(before as real + m.delta) < 0 && !stock.allowNegative { return Err("Insufficient stock for inventory item."); }
      stock := stock.(ledger := Put(stock.ledger, m));
      r := Ok(());
      if !HasKey(ledger, m.key) {
        FreshPut(ledger, m);
        forall item ensures Total(ledger + [m], item) == Total(ledger, item) + if item == m.itemId then m.delta else 0.0 {
          TotalAppend(ledger, m, item);
        }
      }
    }

    /** Takes every requirement of every order item that has no guard yet. A failure leaves the store to
        the caller's rollback. */
    method DeductInventoryForOrder(orderId: string, lines: seq<OrderLine>, trigger: string) returns (r: Result<()>)
      modifies this
      ensures r.Ok? <==> Deduct(old(stock), orderId, lines, trigger).Ok?
      ensures r.Ok? ==> stock == Deduct(old(stock), orderId, lines, trigger).value
    {
      ghost var s := stock;
      for i := 0 to |lines|
        invariant Deduct(s, orderId, lines[..i], trigger) == Ok(stock)
      {
        assert lines[..i + 1][..i] == lines[..i];
        ghost var before := stock;
        var done := DeductOrderLine(orderId, lines[i], trigger);
        if done.Err? {
          DeductFails(s, orderId, lines, trigger, i + 1);
          return done;
        }
      }
      assert lines[..|lines|] == lines;
      r := Ok(());
    }

    method DeductOrderLine(orderId: string, line: OrderLine, trigger: string) returns (r: Result<()>)
      modifies this
      ensures r.Ok? <==> DeductLine(old(stock), orderId, line, trigger).Ok?
      ensures r.Ok? ==> stock == DeductLine(old(stock), orderId, line, trigger).value
    {
      hide Requirements, AppendMovement;
      if (line.id, trigger) in stock.deducted { return Ok(()); }
      var rs := Requirements(stock, line);
      if rs.Err? { return Err(rs.message); }
      ghost var s := stock;
      for j := 0 to |rs.value|
        invariant Draw(s, orderId, line.id, trigger, rs.value[..j]) == Ok(stock)
      {
        assert rs.value[..j + 1][..j] == rs.value[..j];
        var requirement := rs.value[j];
        r := AppendStockMovement(Movement(Sale(orderId, line.id, trigger, requirement.inventoryItemId), requirement.inventoryItemId, -requirement.quantity));
        if r.Err? {
          DrawFails(s, orderId, line.id, trigger, rs.value, j + 1);
          return;
        }
      }
      assert rs.value[..|rs.value|] == rs.value;
      stock := stock.(deducted := stock.deducted + {(line.id, trigger)});
      r := Ok(());
    }
  }

  lemma {:induction false} DeductFails(s: Stock, orderId: string, lines: seq<OrderLine>, trigger: string, n: nat)
    requires n <= |lines| && Deduct(s, orderId, lines[..n], trigger).Err?
    ensures Deduct(s, orderId, lines, trigger).Err?
    decreases |lines|
  {
    hide DeductLine;
    if n == |lines| {
      assert lines[..n] == lines;
    } else {
      assert lines[..|lines| - 1][..n] == lines[..n];
      DeductFails(s, orderId, lines[..|lines| - 1], trigger, n);
    }
  }

  lemma {:induction false} DrawFails(s: Stock, orderId: string, lineId: string, trigger: string, rs: seq<Requirement>, n: nat)
    requires n <= |rs| && Draw(s, orderId, lineId, trigger, rs[..n]).Err?
    ensures Draw(s, orderId, lineId, trigger, rs).Err?
    decreases |rs|
  {
    hide AppendMovement;
    if n == |rs| {
      assert rs[..n] == rs;
    } else {
      assert rs[..|rs| - 1][..n] == rs[..n];
      DrawFails(s, orderId, lineId, trigger, rs[..|rs| - 1], n);
    }
  }

  method CollectNeeds(s: Stock, lines: seq<OrderLine>, trigger: string) returns (r: Result<seq<Requirement>>)
    ensures r.Ok? <==> Needs(s, lines, trigger).Ok?
    ensures r.Ok? ==> r == Needs(s, lines, trigger)
  {
    hide Requirements;
    var needs: seq<Requirement> := [];
    for i := 0 to |lines|
      invariant Needs(s, lines[..i], trigger) == Ok(needs)
    {
      assert lines[..i + 1][..i] == lines[..i];
      if (lines[i].id, trigger) !in s.deducted {
        var more := Requirements(s, lines[i]);
        if more.Err? {
          NeedsFail(s, lines, trigger, i + 1);
          return more;
        }
        needs := needs + more.value;
      } else {
        assert needs + [] == needs;
      }
    }
    assert lines[..|lines|] == lines;
    r := Ok(needs);
  }

  predicate Mentions(rs: seq<Requirement>, item: string) {
    exists r | r in rs :: r.inventoryItemId == item
  }

  method SumByItem(needs: seq<Requirement>) returns (required: map<string, real>)
    ensures forall item :: item in required <==> Mentions(needs, item)
    ensures forall item | item in required :: required[item] == Drawn(needs, item)
  {
    hide Drawn, Mentions;
    required := map[];
    NoneMentioned();
    for j := 0 to |needs|
      invariant forall item :: item in required <==> Mentions(needs[..j], item)
      invariant forall item | item in required :: required[item] == Drawn(needs[..j], item)
    {
      assert needs[..j + 1] == needs[..j] + [needs[j]];
      var item := needs[j].inventoryItemId;
      forall x: string
        ensures Drawn(needs[..j + 1], x) == Drawn(needs[..j], x) + if item == x then needs[j].quantity else 0.0
        ensures Mentions(needs[..j + 1], x) <==> Mentions(needs[..j], x) || x == item
        ensures !Mentions(needs[..j], x) ==> Drawn(needs[..j], x) == 0.0
      {
        assert needs[..j + 1] == needs[..j] + [needs[j]];
        DrawnAppend(needs[..j], needs[j], x);
        MentionsAppend(needs[..j], needs[j], x);
      }
      required := required[item := (if item in required then required[item] else 0.0) + needs[j].quantity];
    }
    assert needs[..|needs|] == needs;
  }

  lemma NoneMentioned()
    ensures forall item :: !Mentions([], item)
  {}

  lemma MentionsAppend(rs: seq<Requirement>, r: Requirement, item: string)
    ensures Mentions(rs + [r], item) <==> Mentions(rs, item) || item == r.inventoryItemId
    ensures !Mentions(rs, item) ==> Drawn(rs, item) == 0.0
  {
    if !Mentions(rs, item) {
      NotDrawn(rs, item);
    }
    if x :| x in rs && x.inventoryItemId == item {
      assert x in rs + [r];
    }
    assert r in rs + [r];
  }

  /** The precheck as it adds up the requirements, item by item, before it compares them with stock. */
  method AssertInventoryDeductionCanComplete(s: Stock, lines: seq<OrderLine>, trigger: string) returns (r: Result<()>)
    ensures r.Ok? <==> Precheck(s, lines, trigger).Ok?
  {
    hide Needs, Drawn, Balance;
    var needs := CollectNeeds(s, lines, trigger);
    if needs.Err? { return Err(needs.message); }
    var required := SumByItem(needs.value);
    if s.allowNegative { return Ok(()); }
    if item :| item in required && Round(Balance(s, item) as real - required[item]) < 0 {
      return Err("Insufficient stock for inventory item.");
    }
    r := Ok(());
  }

  lemma {:induction false} NeedsFail(s: Stock, lines: seq<OrderLine>, trigger: string, n: nat)
    requires n <= |lines| && Needs(s, lines[..n], trigger).Err?
    ensures Needs(s, lines, trigger).Err?
    decreases |lines|
  {
    hide Pending;
    if n == |lines| {
      assert lines[..n] == lines;
    } else {
      assert lines[..|lines| - 1][..n] == lines[..n];
      NeedsFail(s, lines[..|lines| - 1], trigger, n);
    }
  }
}
