/** What a price cell of an import is read as, and what an import leaves of the items that were there
    (backend/menu/bulkImport/validator.ts, backend/menu/bulkImport/service.ts). */
module ImportCells {
  import opened Results
  import opened BulkImport

  /******* Prices *******/

  /** A whole number of cents up to 999999.99. */
  predicate CentsInRange(amount: real) {
    0.0 <= amount <= 99999999.0 && amount == amount.Floor as real
  }

  /** A cell is accepted as a price exactly if it is a number of cents in range, and then for that number; or a
      blank text, and then for nothing although an error is reported. Every other cell has one error of its own:
      a missing price, a text that is no number, a negative one, or one out of range. */
  lemma PriceMeans(p: Price)
    ensures Priced(p) <==> p.Blank? || (p.Cents? && CentsInRange(p.amount))
    ensures Priced(p) ==> PriceOf(p) as real == if p.Cents? then p.amount else 0.0
    ensures PriceProblems(p) == [] <==> p.Cents? && CentsInRange(p.amount)
    ensures |PriceProblems(p)| <= 1
    ensures PriceRequired in PriceProblems(p) <==> p.Missing? || p.Blank?
    ensures PriceNotANumber in PriceProblems(p) <==> p.NotANumber?
    ensures PriceNegative in PriceProblems(p) <==> p.Cents? && p.amount < 0.0
  {}

  /******* Ids *******/

  /** No two items have the same id, and the next id is free. */
  predicate DistinctItems(m: Menu) {
    && (forall i | i in m.items :: i.id < m.nextId)
    && forall j, k | 0 <= j < k < |m.items| :: m.items[j].id != m.items[k].id
  }

  /** The same item: its id, name and category. */
  predicate SameItem(i: Item, j: Item) {
    i.id == j.id && i.name == j.name && i.categoryId == j.categoryId
  }

  /** Every item of the one menu is still in its place in the other. */
  predicate KeepsItems(m: Menu, t: Menu) {
    |m.items| <= |t.items| && m.nextId <= t.nextId && forall k | 0 <= k < |m.items| :: SameItem(m.items[k], t.items[k])
  }

  lemma RowKeepsItems(m: Menu, row: Row)
    requires ImportRow(m, row).Ok?
    ensures KeepsItems(m, ImportRow(m, row).value)
    ensures DistinctItems(m) ==> DistinctItems(ImportRow(m, row).value)
  {
    hide Normalized, Slug, Trim, FindActive, StationUsable;
  }

  lemma {:induction false} RowsKeepItems(m: Menu, rows: seq<Row>)
    requires ImportItems(m, rows).Ok?
    ensures KeepsItems(m, ImportItems(m, rows).value.0)
    ensures DistinctItems(m) ==> DistinctItems(ImportItems(m, rows).value.0)
  {
    hide ImportRow, Classify, DistinctItems;
    if rows != [] {
      RowsKeepItems(m, rows[..|rows| - 1]);
      RowKeepsItems(ImportItems(m, rows[..|rows| - 1]).value.0, rows[|rows| - 1]);
    }
  }

  lemma {:induction false} CategoriesKeepItems(m: Menu, names: seq<string>)
    requires EnsureCategories(m, names).Ok?
    ensures EnsureCategories(m, names).value.items == m.items && m.nextId <= EnsureCategories(m, names).value.nextId
  {
    hide Normalized, FindActive, Trim;
    if names != [] { CategoriesKeepItems(m, names[..|names| - 1]); }
  }

  /** An import deletes no item, renames none and moves none to another category, and the ids of the items it
      adds are new. */
  lemma ImportKeepsItems(m: Menu, rows: seq<Row>)
    requires Import(m, rows).Ok?
    ensures KeepsItems(m, Import(m, rows).value.0)
    ensures DistinctItems(m) ==> DistinctItems(Import(m, rows).value.0)
  {
    hide ImportItems, EnsureCategories, EnsureStations;
    CategoriesKeepItems(m, CategoryNames(rows));
    var named, stations := EnsureCategories(m, CategoryNames(rows)).value, EnsureStations(m.stations, rows).value;
    RowsKeepItems(named.(stations := stations), rows);
  }

  /******* The preview *******/

  lemma {:induction false} EveryPlan(plans: seq<Plan>)
    ensures Count(plans, CreateItem) + Count(plans, UpdateItem) + Count(plans, Unchanged) == |plans|
  {
    if plans != [] { EveryPlan(plans[..|plans| - 1]); }
  }

  /** A preview succeeds exactly if every row names a station, and then counts every row once: as created, as
      updated or as left alone. */
  lemma PreviewSucceedsIff(m: Menu, rows: seq<Row>)
    ensures Preview(m, rows).Ok? <==> forall r | r in rows :: Slug(r.station) != ""
    ensures Preview(m, rows).Ok? ==> var c := Preview(m, rows).value; c.created + c.updated + c.untouched == |rows|
  {
    hide Slug, Classify;
    EveryPlan(Plans(m, rows));
  }
}
