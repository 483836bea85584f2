/** What an order needs of each ingredient (backend/orders/service.ts), in thousandths of a unit. */
module StockNeeds {
  import opened Results
  import opened BillPricing
  import opened StockDeduction

  /** What one portion of a dish takes of an ingredient: the quantities of its recipe rows for it. */
  function PerPortion(rows: seq<RecipeRow>, dish: string, item: string): real {
    if rows == [] then 0.0
    else
      var last := rows[|rows| - 1];
      PerPortion(rows[..|rows| - 1], dish, item) + if last.menuItemId == dish && last.inventoryItemId == item then Size(last.quantityPerUnit) else 0.0
  }

  predicate HasRecipe(rows: seq<RecipeRow>, dish: string) {
    exists row | row in rows :: row.menuItemId == dish
  }

  function Size(x: real): real {
    if x >= 0.0 then x else 0.0 - x
  }

  /** What a number of portions takes. */
  function Portions(number: real, each: real): real {
    number * each
  }

  /** What an order item takes of an ingredient: nothing without stock linking; by its recipe if its dish has
      one; or else one whole unit of the linked item for each portion. */
  function Wanted(s: Stock, line: OrderLine, item: string): real {
    if !s.linked then 0.0
    else if HasRecipe(s.recipes, line.menuItemId) then Portions(Size(line.quantity), PerPortion(s.recipes, line.menuItemId, item))
    else if line.inventoryItemId == Some(item) then 1000.0 * Size(line.quantity)
    else 0.0
  }

  lemma SizeOfProduct(x: real, y: real)
    ensures Abs(x * y) == Portions(Size(x), Size(y))
  {
    if x >= 0.0 && y >= 0.0 { ProductSign(x, y); }
    else if x >= 0.0 { ProductSign(x, 0.0 - y); Negated(x, y); }
    else if y >= 0.0 { ProductSign(0.0 - x, y); Negated(y, x); assert x * y == y * x; assert (0.0 - x) * y == y * (0.0 - x); }
    else { ProductSign(0.0 - x, 0.0 - y); Negated(0.0 - x, y); Negated(y, x); assert (0.0 - x) * y == y * (0.0 - x) && x * y == y * x; }
  }

  lemma ProductSign(x: real, y: real)
    requires x >= 0.0 && y >= 0.0
    ensures x * y >= 0.0
  {}

  lemma Negated(x: real, y: real)
    ensures x * (0.0 - y) == 0.0 - x * y
  {}

  lemma {:induction false} RecipeThere(rows: seq<RecipeRow>, dish: string, quantity: real)
    ensures RecipeOf(rows, dish, quantity) != [] <==> HasRecipe(rows, dish)
  {
    hide Abs;
    if rows != [] {
      var init, last := rows[..|rows| - 1], rows[|rows| - 1];
      assert rows == init + [last];
      RecipeThere(init, dish, quantity);
    }
  }

  lemma {:induction false} RecipeNeeds(rows: seq<RecipeRow>, dish: string, quantity: real, item: string)
    ensures Drawn(RecipeOf(rows, dish, quantity), item) == Portions(Size(quantity), PerPortion(rows, dish, item))
  {
    hide Size, Portions, Abs;
    if rows == [] {
      NoPortions(Size(quantity));
      NothingDrawn(item);
    } else {
      hide RecipeOf, Drawn;
      var init, last := rows[..|rows| - 1], rows[|rows| - 1];
      var amount := RecipeRowNeeds(rows, dish, quantity);
      RecipeNeeds(init, dish, quantity, item);
      DrawnAppend(RecipeOf(init, dish, quantity), Requirement(last.inventoryItemId, amount), item);
      MorePortions(Size(quantity), PerPortion(init, dish, item), Size(last.quantityPerUnit));
      NothingDrawn(item);
      assert RecipeOf(init, dish, quantity) + [] == RecipeOf(init, dish, quantity);
    }
  }

  /** What the last row of a recipe adds. */
  lemma RecipeRowNeeds(rows: seq<RecipeRow>, dish: string, quantity: real) returns (amount: real)
    requires rows != []
    ensures var init, last := rows[..|rows| - 1], rows[|rows| - 1];
            && amount == Portions(Size(quantity), Size(last.quantityPerUnit))
            && RecipeOf(rows, dish, quantity) == RecipeOf(init, dish, quantity) + if last.menuItemId == dish then [Requirement(last.inventoryItemId, amount)] else []
  {
    amount := Abs(quantity * rows[|rows| - 1].quantityPerUnit);
    SizeOfProduct(quantity, rows[|rows| - 1].quantityPerUnit);
    hide Abs, Size, Portions;
  }

  lemma NoPortions(x: real)
    ensures Portions(x, 0.0) == 0.0
  {}

  lemma MorePortions(x: real, y: real, z: real)
    ensures Portions(x, y + z) == Portions(x, y) + Portions(x, z)
  {}

  /** An order item has requirements exactly if stock is not linked, its dish has a recipe, or it is linked to
      an item itself; they come to what it wants of each ingredient. */
  lemma RequirementsMean(s: Stock, line: OrderLine)
    ensures Requirements(s, line).Ok? <==> !s.linked || HasRecipe(s.recipes, line.menuItemId) || line.inventoryItemId.Some?
    ensures Requirements(s, line).Ok? ==> forall item: string :: Drawn(Requirements(s, line).value, item) == Wanted(s, line, item)
  {
    forall item: string
      ensures Drawn(RecipeOf(s.recipes, line.menuItemId, line.quantity), item) == Portions(Size(line.quantity), PerPortion(s.recipes, line.menuItemId, item))
    {
      RecipeNeeds(s.recipes, line.menuItemId, line.quantity, item);
    }
    RecipeThere(s.recipes, line.menuItemId, line.quantity);
    hide RecipeOf, HasRecipe, PerPortion, Portions;
    LinkedSize(line.quantity);
    if s.linked && line.inventoryItemId.Some? {
      var linked := Requirement(line.inventoryItemId.value, Abs(line.quantity * 1000.0));
      forall item: string ensures Drawn([linked], item) == if linked.inventoryItemId == item then linked.quantity else 0.0 {
        DrawnOne(linked, item);
      }
    }
  }

  lemma LinkedSize(quantity: real)
    ensures Abs(quantity * 1000.0) == 1000.0 * Size(quantity)
  {}

  lemma DrawnOne(r: Requirement, item: string)
    ensures Drawn([r], item) == if r.inventoryItemId == item then r.quantity else 0.0
  {
    assert [r][..0] == [];
  }

  /** With one recipe row for the ingredient, a portion takes what that row says; of an ingredient without a
      row it takes nothing. */
  lemma {:induction false} OneRowEach(rows: seq<RecipeRow>, dish: string, item: string)
    requires DistinctRecipes(rows)
    ensures (forall row | row in rows :: !(row.menuItemId == dish && row.inventoryItemId == item)) ==> PerPortion(rows, dish, item) == 0.0
    ensures forall row | row in rows && row.menuItemId == dish && row.inventoryItemId == item :: PerPortion(rows, dish, item) == Size(row.quantityPerUnit)
  {
    hide Size, DistinctRecipes, Lists;
    if rows != [] {
      var init, last := rows[..|rows| - 1], rows[|rows| - 1];
      ListsLast(rows);
      OneRowEach(init, dish, item);
      assert rows == init + [last];
      if last.menuItemId == dish && last.inventoryItemId == item {
        forall row | row in init ensures !(row.menuItemId == dish && row.inventoryItemId == item) {
          Listed(init, row);
        }
      }
    }
  }

  lemma Listed(rows: seq<RecipeRow>, row: RecipeRow)
    requires row in rows
    ensures Lists(rows, row.menuItemId, row.inventoryItemId)
  {}

  /** What the items of an order that are not deducted yet take of an ingredient. */
  function WantedByAll(s: Stock, lines: seq<OrderLine>, trigger: string, item: string): real {
    if lines == [] then 0.0
    else
      var last := lines[|lines| - 1];
      WantedByAll(s, lines[..|lines| - 1], trigger, item) + if (last.id, trigger) in s.deducted then 0.0 else Wanted(s, last, item)
  }

  lemma {:induction false} NeedsMean(s: Stock, lines: seq<OrderLine>, trigger: string, item: string)
    requires Needs(s, lines, trigger).Ok?
    ensures Drawn(Needs(s, lines, trigger).value, item) == WantedByAll(s, lines, trigger, item)
  {
    hide Requirements, Wanted, Drawn;
    if lines == [] {
      NothingDrawn(item);
    } else {
      var init, last := lines[..|lines| - 1], lines[|lines| - 1];
      NeedsMean(s, init, trigger, item);
      DrawnConcat(Needs(s, init, trigger).value, Pending(s, last, trigger).value, item);
      NothingDrawn(item);
      if (last.id, trigger) !in s.deducted { RequirementsMean(s, last); }
    }
  }

  lemma NothingDrawn(item: string)
    ensures Drawn([], item) == 0.0
  {}

  /** The stock as the order leaves it: every ingredient falls by what the order's pending items take of it,
      by recipe or by link, and by nothing else. */
  lemma DeductionTakes(s: Stock, orderId: string, lines: seq<OrderLine>, trigger: string)
    requires Inv(s) && DistinctLines(lines) && Deduct(s, orderId, lines, trigger).Ok?
    ensures forall item: string :: Total(Deduct(s, orderId, lines, trigger).value.ledger, item) == Total(s.ledger, item) - WantedByAll(s, lines, trigger, item)
  {
    hide Inv, DistinctLines, Needs, Deduct, Total, Drawn, WantedByAll, AllTakeable, Deducted;
    DeductionSucceedsIff(s, orderId, lines, trigger);
    forall item: string ensures Drawn(Needs(s, lines, trigger).value, item) == WantedByAll(s, lines, trigger, item) {
      NeedsMean(s, lines, trigger, item);
    }
  }

  /** A recipe row is stored in whole thousandths, nearest to what was asked for, in place of the row for the
      same dish and ingredient; the other rows stay. */
  lemma SavedRecipe(s: Stock, row: RecipeRow)
    requires DistinctRecipes(s.recipes)
    ensures SaveRecipe(s, row).Ok? <==> row.quantityPerUnit > 0.0 && row.inventoryItemId in s.items
    ensures SaveRecipe(s, row).Ok? ==>
              var after := SaveRecipe(s, row).value.recipes;
              && (exists r :: r in after && SameRow(r, row) && -0.5 < r.quantityPerUnit - row.quantityPerUnit <= 0.5)
              && (forall r | r in after && SameRow(r, row) :: -0.5 < r.quantityPerUnit - row.quantityPerUnit <= 0.5)
              && (forall r :: !SameRow(r, row) ==> (r in after <==> r in s.recipes))
  {
    RoundNearest(row.quantityPerUnit);
    hide Round;
    if SaveRecipe(s, row).Ok? {
      Upserted(s.recipes, row.(quantityPerUnit := Round(row.quantityPerUnit) as real));
    }
  }

  lemma Upserted(rows: seq<RecipeRow>, row: RecipeRow)
    requires DistinctRecipes(rows)
    ensures row in Upsert(rows, row) && (forall r | r in Upsert(rows, row) && SameRow(r, row) :: r == row)
    ensures forall r :: !SameRow(r, row) ==> (r in Upsert(rows, row) <==> r in rows)
  {
    var after := Upsert(rows, row);
    if i :| 0 <= i < |rows| && SameRow(rows[i], row) && forall j | 0 <= j < i :: !SameRow(rows[j], row) {
      forall k: nat | k < |rows| && k != i ensures !SameRow(rows[k], row) {}
      assert after == rows[i := row] by { Earliest(rows, row, i); }
      assert after[i] == row;
      forall r | r in rows && !SameRow(r, row) ensures r in after {
        var k :| 0 <= k < |rows| && rows[k] == r;
        assert after[k] == r;
      }
    } else {
      NoneSame(rows, row);
    }
  }

  lemma Earliest(rows: seq<RecipeRow>, row: RecipeRow, i: nat)
    requires i < |rows| && SameRow(rows[i], row) && forall j | 0 <= j < i :: !SameRow(rows[j], row)
    ensures Upsert(rows, row) == rows[i := row]
  {}

  lemma NoneSame(rows: seq<RecipeRow>, row: RecipeRow)
    requires !exists i: nat :: i < |rows| && SameRow(rows[i], row) && forall j | 0 <= j < i :: !SameRow(rows[j], row)
    ensures forall r | r in rows :: !SameRow(r, row)
  {
    forall n: nat | n < |rows| ensures !SameRow(rows[n], row) {
      NotAt(rows, row, n);
    }
  }

  lemma {:induction false} NotAt(rows: seq<RecipeRow>, row: RecipeRow, n: nat)
    requires n < |rows| && !exists i: nat :: i < |rows| && SameRow(rows[i], row) && forall j | 0 <= j < i :: !SameRow(rows[j], row)
    ensures !SameRow(rows[n], row)
  {
    forall j: nat | j < n ensures !SameRow(rows[j], row) {
      NotAt(rows, row, j);
    }
  }
}
