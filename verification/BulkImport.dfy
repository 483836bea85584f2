/** Bulk import of menu items: validation, preview and execution (backend/menu/bulkImport/validator.ts,
    backend/menu/bulkImport/service.ts, with backend/menu/repository.ts and backend/menu/service.ts). */
module BulkImport {
  import opened Results

  /******* Names and stations *******/

  predicate IsSpace(c: char) {
    c == ' ' || c == '\t' || c == '\n' || c == '\r'
  }

  function TrimStart(s: string): string {
    if s != "" && IsSpace(s[0]) then TrimStart(s[1..]) else s
  }

  function TrimEnd(s: string): string {
    if s != "" && IsSpace(s[|s| - 1]) then TrimEnd(s[..|s| - 1]) else s
  }

  function Trim(s: string): string {
    TrimEnd(TrimStart(s))
  }

  function LowerChar(c: char): char {
    if 'A' <= c <= 'Z' then (c as int + 32) as char else c
  }

  function Lower(s: string): string {
    if s == "" then "" else Lower(s[..|s| - 1]) + [LowerChar(s[|s| - 1])]
  }

  /** What names are compared by. */
  function Normalized(s: string): string {
    Lower(Trim(s))
  }

  predicate IsPlain(c: char) {
    'a' <= c <= 'z' || '0' <= c <= '9'
  }

  /** Every run of other characters becomes one dash. */
  function Dashed(s: string): string {
    if s == "" then ""
    else
      var init, c := Dashed(s[..|s| - 1]), s[|s| - 1];
      if IsPlain(c) then init + [c]
      else if init != "" && init[|init| - 1] == '-' then init
      else init + "-"
  }

  function StripStart(s: string): string {
    if s != "" && s[0] == '-' then StripStart(s[1..]) else s
  }

  function StripEnd(s: string): string {
    if s != "" && s[|s| - 1] == '-' then StripEnd(s[..|s| - 1]) else s
  }

  /** slugifyStationId: the id of a station with the given name. */
  function Slug(name: string): string {
    var dashed := StripEnd(StripStart(Dashed(Lower(Trim(name)))));
    if |dashed| > 48 then dashed[..48] else dashed
  }

  /******* The menu *******/

  datatype Category = Category(id: nat, name: string, active: bool)

  /** Prices in cents. */
  datatype Item = Item(id: nat, categoryId: nat, name: string, price: nat, station: Option<string>, active: bool, available: bool)

  /** The categories of the branch in listing order and the items in the order they were stored, without
      deleted ones; the configured stations, each enabled or not. */
  datatype Menu = Menu(categories: seq<Category>, items: seq<Item>, stations: map<string, bool>, nextId: nat)

  datatype Row = Row(name: string, category: string, station: string, price: nat)

  const PRICE_MAX: nat := 99999999

  /** The active category of that name that is listed last. */
  function FindActive(categories: seq<Category>, key: string): (r: Option<Category>)
    ensures r.Some? ==> r.value in categories && r.value.active && Normalized(r.value.name) == key
    ensures r.None? ==> forall c | c in categories && c.active :: Normalized(c.name) != key
  {
    if categories == [] then None
    else
      var last := categories[|categories| - 1];
      if last.active && Normalized(last.name) == key then Some(last) else FindActive(categories[..|categories| - 1], key)
  }

  predicate Matches(i: Item, category: nat, key: string) {
    i.categoryId == category && Normalized(i.name) == key
  }

  /** The item of that name in the category that was stored first. */
  function FindItem(items: seq<Item>, category: nat, key: string): (r: Option<nat>)
    ensures r.Some? ==> r.value < |items| && Matches(items[r.value], category, key)
    ensures r.None? ==> forall i | i in items :: !Matches(i, category, key)
  {
    if items == [] then None
    else
      var earlier := FindItem(items[..|items| - 1], category, key);
      if earlier.Some? then earlier
      else if Matches(items[|items| - 1], category, key) then Some(|items| - 1)
      else None
  }

  function Found(items: seq<Item>, category: nat, key: string): Option<Item> {
    var i := FindItem(items, category, key);
    if i.Some? then Some(items[i.value]) else None
  }

  /******* Preview *******/

  datatype Plan = CreateItem | UpdateItem | Unchanged

  predicate UpToDate(i: Item, row: Row) {
    i.price == row.price && i.station == Some(Slug(row.station)) && i.active && i.available
  }

  function Classify(m: Menu, row: Row): Plan {
    var category := FindActive(m.categories, Normalized(row.category));
    if category.None? then CreateItem
    else
      var item := Found(m.items, category.value.id, Normalized(row.name));
      if item.None? then CreateItem else if UpToDate(item.value, row) then Unchanged else UpdateItem
  }

  function Count(plans: seq<Plan>, plan: Plan): nat {
    if plans == [] then 0 else Count(plans[..|plans| - 1], plan) + if plans[|plans| - 1] == plan then 1 else 0
  }

  function Plans(m: Menu, rows: seq<Row>): (plans: seq<Plan>)
    ensures |plans| == |rows| && forall i | 0 <= i < |rows| :: plans[i] == Classify(m, rows[i])
  {
    seq(|rows|, i requires 0 <= i < |rows| => Classify(m, rows[i]))
  }

  /** The distinct category names, each as it first occurs. */
  function CategoryNames(rows: seq<Row>): seq<string> {
    if rows == [] then []
    else
      var names, last := CategoryNames(rows[..|rows| - 1]), rows[|rows| - 1];
      if exists n | n in names :: Normalized(n) == Normalized(last.category) then names else names + [last.category]
  }

  function MissingCategories(m: Menu, names: seq<string>): nat {
    if names == [] then 0
    else MissingCategories(m, names[..|names| - 1]) + if FindActive(m.categories, Normalized(names[|names| - 1])).None? then 1 else 0
  }

  datatype Counts = Counts(categories: int, created: nat, updated: nat, untouched: nat)

  function Preview(m: Menu, rows: seq<Row>): Result<Counts> {
    if exists r | r in rows :: Slug(r.station) == "" then Err("prepStation is required.")
    else
      var plans := Plans(m, rows);
      Ok(Counts(MissingCategories(m, CategoryNames(rows)), Count(plans, CreateItem), Count(plans, UpdateItem), Count(plans, Unchanged)))
  }

  /******* Execution *******/

  function EnsureCategory(m: Menu, name: string): Result<Menu> {
    if FindActive(m.categories, Normalized(name)).Some? then Ok(m)
    else if Trim(name) == "" then Err("Category name is required.")
    else if exists c | c in m.categories :: Normalized(c.name) == Normalized(name) then Err("Category already exists.")
    else Ok(m.(categories := m.categories + [Category(m.nextId, Trim(name), true)], nextId := m.nextId + 1))
  }

  function EnsureCategories(m: Menu, names: seq<string>): Result<Menu> {
    if names == [] then Ok(m)
    else
      var earlier :- EnsureCategories(m, names[..|names| - 1]);
      EnsureCategory(earlier, names[|names| - 1])
  }

  /** Stations that are not configured yet are added and enabled. Saving the settings derives their ids once
      more and drops the reserved one. */
  function EnsureStation(stations: map<string, bool>, configured: map<string, bool>, name: string): Result<map<string, bool>> {
    var id := Slug(name);
    if id == "" then Err("prepStation is required.")
    else if id in configured || Slug(id) == "" || Slug(id) == "receipt" then Ok(stations)
    else Ok(stations[Slug(id) := true])
  }

  function EnsureStations(configured: map<string, bool>, rows: seq<Row>): Result<map<string, bool>> {
    if rows == [] then Ok(configured)
    else
      var earlier :- EnsureStations(configured, rows[..|rows| - 1]);
      EnsureStation(earlier, configured, rows[|rows| - 1].station)
  }

  /** normalizeValidStation, applied to a station id. */
  predicate StationUsable(m: Menu, id: string) {
    Slug(id) in m.stations && m.stations[Slug(id)]
  }

  function ImportRow(m: Menu, row: Row): Result<Menu> {
    var category := FindActive(m.categories, Normalized(row.category));
    var station := Slug(row.station);
    if category.None? then Err("category resolution failed.")
    else if station == "" then Err("prepStation is required.")
    else
      var i := FindItem(m.items, category.value.id, Normalized(row.name));
      if i.None? then
        if Trim(row.name) == "" then Err("Item name is required.")
        else if row.price > PRICE_MAX then Err("Price cannot exceed the maximum.")
        else if !StationUsable(m, station) then Err("prepStation must be one of the configured prep stations.")
        else Ok(m.(items := m.items + [Item(m.nextId, category.value.id, Trim(row.name), row.price, Some(Slug(station)), true, true)],
                   nextId := m.nextId + 1))
      else if UpToDate(m.items[i.value], row) then Ok(m)
      else if row.price > PRICE_MAX then Err("Price cannot exceed the maximum.")
      else if !StationUsable(m, station) then Err("prepStation must be one of the configured prep stations.")
      else Ok(m.(items := m.items[i.value := m.items[i.value].(price := row.price, station := Some(Slug(station)), active := true, available := true)]))
  }

  /** The menu after the rows, and what was done for each. */
  function ImportItems(m: Menu, rows: seq<Row>): Result<(Menu, seq<Plan>)> {
    if rows == [] then Ok((m, []))
    else
      var earlier :- ImportItems(m, rows[..|rows| - 1]);
      var row := rows[|rows| - 1];
      var after :- ImportRow(earlier.0, row);
      Ok((after, earlier.1 + [Classify(earlier.0, row)]))
  }

  function Import(m: Menu, rows: seq<Row>): Result<(Menu, Counts)> {
    var named :- EnsureCategories(m, CategoryNames(rows));
    var stations :- EnsureStations(m.stations, rows);
    var imported :- ImportItems(named.(stations := stations), rows);
    Ok((imported.0, Counts(|named.categories| - |m.categories|, Count(imported.1, CreateItem), Count(imported.1, UpdateItem), Count(imported.1, Unchanged))))
  }

  /******* Names *******/

  lemma {:induction false} TrimEndTrimmed(s: string)
    ensures TrimEnd(TrimEnd(s)) == TrimEnd(s) && (TrimEnd(s) != "" ==> s != "" && TrimEnd(s)[0] == s[0])
  {
    if s != "" && IsSpace(s[|s| - 1]) {
      TrimEndTrimmed(s[..|s| - 1]);
    }
  }

  lemma {:induction false} TrimStartTrimmed(s: string)
    ensures TrimStart(s) == "" || !IsSpace(TrimStart(s)[0])
  {
    if s != "" && IsSpace(s[0]) {
      TrimStartTrimmed(s[1..]);
    }
  }

  /** Storing a trimmed name does not change what it is compared by. */
  lemma TrimKeepsIdentity(s: string)
    ensures Normalized(Trim(s)) == Normalized(s)
  {
    TrimStartTrimmed(s);
    TrimEndTrimmed(TrimStart(s));
  }

  /******* Well-formed menus *******/

  /** Ids are unique and below the next one; no two active categories of a menu need differ in name. */
  predicate WellFormed(m: Menu) {
    && (forall c | c in m.categories :: c.id < m.nextId)
    && (forall i, j | 0 <= i < j < |m.categories| :: m.categories[i].id != m.categories[j].id)
    && forall i | i in m.items :: i.categoryId < m.nextId
  }

  /** Two rows for the same name in the same category. */
  predicate SameIdentity(r: Row, q: Row) {
    Normalized(r.category) == Normalized(q.category) && Normalized(r.name) == Normalized(q.name)
  }

  predicate DistinctRows(rows: seq<Row>) {
    forall i, j | 0 <= i < j < |rows| :: !SameIdentity(rows[i], rows[j])
  }

  /******* Categories *******/

  lemma FindActiveAppend(categories: seq<Category>, c: Category, key: string)
    ensures FindActive(categories + [c], key) == if c.active && Normalized(c.name) == key then Some(c) else FindActive(categories, key)
  {
    assert (categories + [c])[..|categories|] == categories;
  }

  /** Creating a category leaves the others where they are; a name that resolved still does, to the same
      category. */
  lemma EnsureCategoryKeeps(m: Menu, name: string)
    requires WellFormed(m) && EnsureCategory(m, name).Ok?
    ensures var t := EnsureCategory(m, name).value;
            && WellFormed(t) && t.items == m.items && t.stations == m.stations && m.nextId <= t.nextId
            && FindActive(t.categories, Normalized(name)).Some?
            && (forall key: string | FindActive(m.categories, key).Some? :: FindActive(t.categories, key) == FindActive(m.categories, key))
            && (forall key: string | FindActive(m.categories, key).None? && FindActive(t.categories, key).Some? :: FindActive(t.categories, key).value.id >= m.nextId)
            && |t.categories| == |m.categories| + (if FindActive(m.categories, Normalized(name)).None? then 1 else 0)
            && forall key: string :: FindActive(t.categories, key).Some? <==> FindActive(m.categories, key).Some? || key == Normalized(name)
  {
    hide Normalized;
    TrimKeepsIdentity(name);
    forall key: string ensures FindActive(m.categories + [Category(m.nextId, Trim(name), true)], key)
                       == if Normalized(name) == key then Some(Category(m.nextId, Trim(name), true)) else FindActive(m.categories, key) {
      FindActiveAppend(m.categories, Category(m.nextId, Trim(name), true), key);
    }
  }

  predicate Names(names: seq<string>, key: string) {
    exists n | n in names :: Normalized(n) == key
  }

  lemma {:induction false} EnsureCategoriesKeeps(m: Menu, names: seq<string>)
    requires WellFormed(m) && EnsureCategories(m, names).Ok?
    requires DistinctNames(names)
    ensures var t := EnsureCategories(m, names).value;
            && WellFormed(t) && t.items == m.items && t.stations == m.stations && m.nextId <= t.nextId
            && (forall key: string | FindActive(m.categories, key).Some? :: FindActive(t.categories, key) == FindActive(m.categories, key))
            && (forall key: string | FindActive(m.categories, key).None? && FindActive(t.categories, key).Some? :: FindActive(t.categories, key).value.id >= m.nextId)
            && |t.categories| == |m.categories| + MissingCategories(m, names)
            && forall key: string :: FindActive(t.categories, key).Some? <==> FindActive(m.categories, key).Some? || Names(names, key)
  {
    hide Normalized, FindActive, EnsureCategory, WellFormed;
    if names != [] {
      var init, last := names[..|names| - 1], names[|names| - 1];
      EnsureCategoriesKeeps(m, init);
      var before := EnsureCategories(m, init).value;
      EnsureCategoryKeeps(before, last);
      assert names == init + [last];
      assert !Names(init, Normalized(last));
    }
  }

  lemma {:induction false} CategoryNamesCover(rows: seq<Row>)
    ensures forall r | r in rows :: Names(CategoryNames(rows), Normalized(r.category))
    ensures forall key: string :: Names(CategoryNames(rows), key) ==> exists r :: r in rows && Normalized(r.category) == key
  {
    hide Normalized;
    if rows != [] {
      var init, last := rows[..|rows| - 1], rows[|rows| - 1];
      CategoryNamesCover(init);
      assert rows == init + [last];
      var names := CategoryNames(init);
      forall key: string ensures Names(names + [last.category], key) <==> Names(names, key) || key == Normalized(last.category) {
        NamesAppend(names, last.category, key);
      }
      forall key: string | Names(CategoryNames(rows), key) ensures exists r :: r in rows && Normalized(r.category) == key {
        if Names(names, key) {
          var r :| r in init && Normalized(r.category) == key;
          assert r in rows;
        } else {
          assert last in rows;
        }
      }
    }
  }

  predicate DistinctNames(names: seq<string>) {
    forall i, j | 0 <= i < j < |names| :: Normalized(names[i]) != Normalized(names[j])
  }

  lemma {:induction false} CategoryNamesDistinct(rows: seq<Row>)
    ensures DistinctNames(CategoryNames(rows))
  {
    if rows != [] {
      CategoryNamesDistinct(rows[..|rows| - 1]);
      var names, name := CategoryNames(rows[..|rows| - 1]), rows[|rows| - 1].category;
      if !exists n | n in names :: Normalized(n) == Normalized(name) {
        OneMoreName(names, name);
      }
    }
  }

  lemma OneMoreName(names: seq<string>, name: string)
    requires DistinctNames(names) && !exists n | n in names :: Normalized(n) == Normalized(name)
    ensures DistinctNames(names + [name])
  {}

  lemma NamesAppend(names: seq<string>, name: string, key: string)
    ensures Names(names + [name], key) <==> Names(names, key) || key == Normalized(name)
  {
    hide Normalized;
    assert forall n :: n in names + [name] <==> n in names || n == name;
  }

  /******* Items *******/

  lemma FindItemAppend(items: seq<Item>, i: Item, category: nat, key: string)
    ensures Found(items + [i], category, key)
            == if Found(items, category, key).Some? then Found(items, category, key) else if Matches(i, category, key) then Some(i) else None
  {
    assert (items + [i])[..|items|] == items;
  }

  /** Changing an item's other fields leaves it where it is found. */
  lemma {:induction false} FindItemUpdate(items: seq<Item>, n: nat, i: Item, category: nat, key: string)
    requires n < |items| && i.categoryId == items[n].categoryId && i.name == items[n].name
    ensures FindItem(items[n := i], category, key) == FindItem(items, category, key)
  {
    hide Normalized;
    var init := items[..|items| - 1];
    if n < |items| - 1 {
      FindItemUpdate(init, n, i, category, key);
      assert items[n := i][..|items| - 1] == init[n := i];
    } else {
      assert items[n := i][..|items| - 1] == init;
    }
  }

  /** The row's item is there as the row wants it, with the station id that was stored. */
  predicate Settled(m: Menu, row: Row) {
    var category := FindActive(m.categories, Normalized(row.category));
    category.Some? &&
    var item := Found(m.items, category.value.id, Normalized(row.name));
    item.Some? && item.value.price == row.price && item.value.active && item.value.available
    && (item.value.station == Some(Slug(row.station)) || item.value.station == Some(Slug(Slug(row.station))))
  }

  /** The item that a row is about. */
  function ItemOf(m: Menu, row: Row): Option<Item> {
    var category := FindActive(m.categories, Normalized(row.category));
    if category.None? then None else Found(m.items, category.value.id, Normalized(row.name))
  }

  /** Importing a row does what its classification says and settles its item; no other name in any category
      is affected. */
  lemma ImportRowEffect(m: Menu, row: Row)
    requires ImportRow(m, row).Ok? && WellFormed(m)
    ensures var t := ImportRow(m, row).value;
            && WellFormed(t) && t.categories == m.categories && t.stations == m.stations && Settled(t, row)
            && (Classify(m, row).Unchanged? ==> t == m && ItemOf(m, row).Some? && UpToDate(ItemOf(m, row).value, row))
            && (!Classify(m, row).Unchanged? ==> ItemOf(t, row).Some? && ItemOf(t, row).value.station == Some(Slug(Slug(row.station))))
            && forall category: nat, key: string ::
                 (FindActive(m.categories, Normalized(row.category)).Some? && category == FindActive(m.categories, Normalized(row.category)).value.id && key == Normalized(row.name))
                 || Found(t.items, category, key) == Found(m.items, category, key)
  {
    ImportedItems(m, row);
    ImportedMenu(m, row);
    hide Normalized, Slug, Trim, FindActive, Found, ImportRow, WellFormed;
  }

  lemma ImportedMenu(m: Menu, row: Row)
    requires ImportRow(m, row).Ok? && WellFormed(m)
    ensures var t := ImportRow(m, row).value;
            WellFormed(t) && t.categories == m.categories && t.stations == m.stations && (Classify(m, row).Unchanged? ==> t == m)
  {
    hide Normalized, Slug, Trim, FindActive, StationUsable;
  }

  /** The items after importing a row: one more, or the row's item changed. */
  lemma ImportedItems(m: Menu, row: Row)
    requires ImportRow(m, row).Ok?
    ensures FindActive(m.categories, Normalized(row.category)).Some?
    ensures var t, category, key := ImportRow(m, row).value, FindActive(m.categories, Normalized(row.category)).value.id, Normalized(row.name);
            forall c: nat, k: string ::
              Found(t.items, c, k) == if c == category && k == key && !Classify(m, row).Unchanged? then Some(Imported(m, row)) else Found(m.items, c, k)
  {
    hide Normalized, Slug, StationUsable, Trim, FindActive;
    TrimKeepsIdentity(row.name);
    var category := FindActive(m.categories, Normalized(row.category)).value;
    var i := FindItem(m.items, category.id, Normalized(row.name));
    var t := ImportRow(m, row).value;
    forall c: nat, k: string
      ensures Found(t.items, c, k) == if c == category.id && k == Normalized(row.name) && !Classify(m, row).Unchanged? then Some(Imported(m, row)) else Found(m.items, c, k)
    {
      if i.None? {
        FindItemAppend(m.items, t.items[|m.items|], c, k);
      } else if !Classify(m, row).Unchanged? {
        FindItemUpdate(m.items, i.value, t.items[i.value], c, k);
      }
    }
  }

  /** What a row that is not up to date leaves as its item. */
  function Imported(m: Menu, row: Row): Item {
    var category := FindActive(m.categories, Normalized(row.category));
    var held := if category.Some? then Found(m.items, category.value.id, Normalized(row.name)) else None;
    match held
    case None => Item(m.nextId, if category.Some? then category.value.id else 0, Trim(row.name), row.price, Some(Slug(Slug(row.station))), true, true)
    case Some(i) => i.(price := row.price, station := Some(Slug(Slug(row.station))), active := true, available := true)
  }

  /** A row that leaves other names alone leaves the items of other rows alone. */
  lemma OtherRow(m: Menu, t: Menu, row: Row, other: Row)
    requires WellFormed(m) && t.categories == m.categories && !SameIdentity(row, other)
    requires forall category: nat, key: string ::
               (FindActive(m.categories, Normalized(row.category)).Some? && category == FindActive(m.categories, Normalized(row.category)).value.id && key == Normalized(row.name))
               || Found(t.items, category, key) == Found(m.items, category, key)
    ensures ItemOf(t, other) == ItemOf(m, other) && Classify(t, other) == Classify(m, other)
    ensures Settled(m, other) ==> Settled(t, other)
  {
    hide Normalized, Slug, Found;
    if FindActive(m.categories, Normalized(row.category)).Some? && FindActive(m.categories, Normalized(other.category)).Some? && Normalized(row.category) != Normalized(other.category) {
      IdsDiffer(m, Normalized(row.category), Normalized(other.category));
    }
  }

  lemma IdsDiffer(m: Menu, key: string, other: string)
    requires WellFormed(m) && FindActive(m.categories, key).Some? && FindActive(m.categories, other).Some? && key != other
    ensures FindActive(m.categories, key).value.id != FindActive(m.categories, other).value.id
  {
    var c, d := FindActive(m.categories, key).value, FindActive(m.categories, other).value;
    var i :| 0 <= i < |m.categories| && m.categories[i] == c;
    var j :| 0 <= j < |m.categories| && m.categories[j] == d;
  }

  /** After the first `n` rows: they are settled, the others are as they were, and what was done is what the
      classification of the start said. */
  ghost predicate Progress(m: Menu, t: Menu, plans: seq<Plan>, rows: seq<Row>, n: nat)
    requires n <= |rows|
  {
    && WellFormed(t) && t.categories == m.categories && t.stations == m.stations && plans == Plans(m, rows[..n])
    && (forall k | 0 <= k < n :: Settled(t, rows[k]) && RowDone(m, t, rows[k]))
    && forall k | n <= k < |rows| :: ItemOf(t, rows[k]) == ItemOf(m, rows[k])
  }

  /** The station of the row's item is the row's, or derived once more if the item was written. */
  predicate RowDone(m: Menu, t: Menu, row: Row) {
    ItemOf(t, row).Some? && if Classify(m, row).Unchanged? then UpToDate(ItemOf(t, row).value, row) else ItemOf(t, row).value.station == Some(Slug(Slug(row.station)))
  }

  lemma ClassifyByItem(m: Menu, t: Menu, row: Row)
    requires t.categories == m.categories && ItemOf(t, row) == ItemOf(m, row)
    ensures Classify(t, row) == Classify(m, row)
  {}

  lemma {:induction false} ImportItemsProgress(m: Menu, rows: seq<Row>, n: nat)
    requires WellFormed(m) && DistinctRows(rows) && n <= |rows| && ImportItems(m, rows[..n]).Ok?
    ensures var r := ImportItems(m, rows[..n]).value; Progress(m, r.0, r.1, rows, n)
    ensures (forall k | 0 <= k < n :: Classify(m, rows[k]).Unchanged?) ==> ImportItems(m, rows[..n]).value.0 == m
    decreases n
  {
    hide ImportRow, Settled, RowDone, Classify, ItemOf, SameIdentity, WellFormed;
    if n == 0 {
      assert rows[..0] == [];
    } else {
      assert rows[..n][..n - 1] == rows[..n - 1] && rows[..n][n - 1] == rows[n - 1];
      ImportItemsProgress(m, rows, n - 1);
      var before := ImportItems(m, rows[..n - 1]).value;
      ClassifyByItem(m, before.0, rows[n - 1]);
      ProgressNext(m, before.0, rows, n - 1, ImportRow(before.0, rows[n - 1]).value, before.1);
    }
  }

  lemma ProgressNext(m: Menu, t: Menu, rows: seq<Row>, n: nat, u: Menu, plans: seq<Plan>)
    requires n < |rows| && Progress(m, t, plans, rows, n) && DistinctRows(rows) && ImportRow(t, rows[n]) == Ok(u)
    ensures Progress(m, u, plans + [Classify(t, rows[n])], rows, n + 1)
    ensures Classify(m, rows[n]).Unchanged? ==> u == t
  {
    hide Settled, Classify, ItemOf, SameIdentity, WellFormed, Normalized;
    ImportRowEffect(t, rows[n]);
    ClassifyByItem(m, t, rows[n]);
    assert Plans(m, rows[..n + 1]) == plans + [Classify(t, rows[n])];
    forall k | 0 <= k < |rows| && k != n
      ensures ItemOf(u, rows[k]) == ItemOf(t, rows[k]) && (Settled(t, rows[k]) ==> Settled(u, rows[k]))
    {
      assert !SameIdentity(rows[n], rows[k]) by { Symmetric(rows, n, k); }
      OtherRow(t, u, rows[n], rows[k]);
    }
  }

  lemma Symmetric(rows: seq<Row>, i: nat, j: nat)
    requires DistinctRows(rows) && i < |rows| && j < |rows| && i != j
    ensures !SameIdentity(rows[i], rows[j])
  {}

  /******* Plan and execution *******/

  lemma {:induction false} StationsKnown(configured: map<string, bool>, rows: seq<Row>)
    ensures EnsureStations(configured, rows).Ok? <==> forall r | r in rows :: Slug(r.station) != ""
  {
    hide Slug;
    if rows != [] {
      var init, last := rows[..|rows| - 1], rows[|rows| - 1];
      StationsKnown(configured, init);
      assert rows == init + [last];
    }
  }

  /** Creating the missing categories changes no row's classification. */
  lemma SameClassification(m: Menu, named: Menu, row: Row)
    requires WellFormed(m) && named.items == m.items
    requires forall key: string | FindActive(m.categories, key).Some? :: FindActive(named.categories, key) == FindActive(m.categories, key)
    requires forall key: string | FindActive(m.categories, key).None? && FindActive(named.categories, key).Some? :: FindActive(named.categories, key).value.id >= m.nextId
    ensures Classify(named, row) == Classify(m, row)
    ensures Classify(m, row).Unchanged? ==> ItemOf(named, row) == ItemOf(m, row)
  {
    hide Normalized, Slug;
  }

  /** The menu that the items are imported into. */
  function Prepared(m: Menu, rows: seq<Row>): Result<Menu> {
    var named :- EnsureCategories(m, CategoryNames(rows));
    var stations :- EnsureStations(m.stations, rows);
    Ok(named.(stations := stations))
  }

  lemma PreparedKeeps(m: Menu, rows: seq<Row>)
    requires WellFormed(m) && Prepared(m, rows).Ok?
    ensures var t := Prepared(m, rows).value;
            && WellFormed(t) && t.items == m.items && |t.categories| == |m.categories| + MissingCategories(m, CategoryNames(rows))
            && (forall row :: Classify(t, row) == Classify(m, row) && (Classify(m, row).Unchanged? ==> ItemOf(t, row) == ItemOf(m, row)))
            && forall r | r in rows :: FindActive(t.categories, Normalized(r.category)).Some? && Slug(r.station) != ""
  {
    hide Normalized, Slug, FindActive, Classify, ItemOf;
    CategoryNamesDistinct(rows);
    CategoryNamesCover(rows);
    StationsKnown(m.stations, rows);
    EnsureCategoriesKeeps(m, CategoryNames(rows));
    var named := EnsureCategories(m, CategoryNames(rows)).value;
    forall row ensures Classify(named, row) == Classify(m, row) && (Classify(m, row).Unchanged? ==> ItemOf(named, row) == ItemOf(m, row)) {
      SameClassification(m, named, row);
    }
    StationsApart(named, EnsureStations(m.stations, rows).value);
  }

  lemma StationsApart(m: Menu, stations: map<string, bool>)
    ensures forall row :: Classify(m.(stations := stations), row) == Classify(m, row) && ItemOf(m.(stations := stations), row) == ItemOf(m, row)
    ensures WellFormed(m) ==> WellFormed(m.(stations := stations))
  {}

  /** A successful import does exactly what its preview announced: as many categories and items created, as
      many items updated and left alone. */
  lemma ImportMatchesPreview(m: Menu, rows: seq<Row>)
    requires WellFormed(m) && DistinctRows(rows) && Import(m, rows).Ok?
    ensures Preview(m, rows) == Ok(Import(m, rows).value.1)
  {
    hide Normalized, Slug, Classify, ImportItems, WellFormed, SameIdentity, EnsureCategories, EnsureStations, FindActive, ItemOf, CategoryNames, MissingCategories, DistinctRows;
    PreparedKeeps(m, rows);
    var t := Prepared(m, rows).value;
    assert rows[..|rows|] == rows;
    ImportItemsProgress(t, rows, |rows|);
    assert Plans(t, rows) == Plans(m, rows);
  }

  /** Whether a row can be imported into the prepared menu. */
  predicate Importable(m: Menu, row: Row) {
    && FindActive(m.categories, Normalized(row.category)).Some? && Slug(row.station) != ""
    && (Classify(m, row).Unchanged? ||
        (row.price <= PRICE_MAX && StationUsable(m, Slug(row.station)) && (Classify(m, row).CreateItem? ==> Trim(row.name) != "")))
  }

  lemma ImportRowSucceedsIff(m: Menu, row: Row)
    ensures ImportRow(m, row).Ok? <==> Importable(m, row)
  {
    hide Normalized, Slug, Trim, StationUsable, FindActive, FindItem;
  }

  lemma {:induction false} ImportItemsSucceedIff(m: Menu, rows: seq<Row>, n: nat)
    requires WellFormed(m) && DistinctRows(rows) && n <= |rows|
    ensures ImportItems(m, rows[..n]).Ok? <==> forall k | 0 <= k < n :: Importable(m, rows[k])
    decreases n
  {
    hide Importable, ImportRow, WellFormed, SameIdentity, Settled, RowDone, Classify, ItemOf;
    if n == 0 {
      assert rows[..0] == [];
    } else {
      assert rows[..n][..n - 1] == rows[..n - 1] && rows[..n][n - 1] == rows[n - 1];
      ImportItemsSucceedIff(m, rows, n - 1);
      if ImportItems(m, rows[..n - 1]).Ok? {
        var before := ImportItems(m, rows[..n - 1]).value.0;
        ImportItemsProgress(m, rows, n - 1);
        ImportRowSucceedsIff(before, rows[n - 1]);
        SameImportable(m, before, rows[n - 1]);
      }
    }
  }

  lemma SameImportable(m: Menu, t: Menu, row: Row)
    requires t.categories == m.categories && t.stations == m.stations && ItemOf(t, row) == ItemOf(m, row)
    ensures Importable(t, row) <==> Importable(m, row)
  {
    ClassifyByItem(m, t, row);
    hide Classify, ItemOf;
  }

  /** The category of the row is there, or its name is free to be created. */
  predicate CategoryReady(m: Menu, key: string) {
    FindActive(m.categories, key).Some? || (key != "" && forall c | c in m.categories :: Normalized(c.name) != key)
  }

  /** Importing the row configures the station. */
  predicate Adds(configured: map<string, bool>, row: Row, id: string) {
    Slug(row.station) !in configured && Slug(Slug(row.station)) == id && id != "" && id != "receipt"
  }

  /** The station is enabled, or one of the rows configures it. */
  predicate StationReady(configured: map<string, bool>, rows: seq<Row>, id: string) {
    (id in configured && configured[id]) || exists r | r in rows :: Adds(configured, r, id)
  }

  /** What a row needs in order to be imported, read off the menu before the import. */
  predicate RowReady(m: Menu, rows: seq<Row>, row: Row) {
    && CategoryReady(m, Normalized(row.category)) && Slug(row.station) != ""
    && (Classify(m, row).Unchanged? ||
        (row.price <= PRICE_MAX && StationReady(m.stations, rows, Slug(Slug(row.station))) && (Classify(m, row).CreateItem? ==> Trim(row.name) != "")))
  }

  lemma {:induction false} LowerLength(s: string)
    ensures |Lower(s)| == |s|
  {
    if s != "" { LowerLength(s[..|s| - 1]); }
  }

  /** Creating categories adds exactly those that were asked for, behind the others. */
  lemma {:induction false} CategoriesAdded(m: Menu, names: seq<string>)
    requires EnsureCategories(m, names).Ok?
    ensures m.categories <= EnsureCategories(m, names).value.categories
    ensures forall c | c in EnsureCategories(m, names).value.categories :: c in m.categories || Names(names, Normalized(c.name))
  {
    hide Normalized, FindActive, Trim;
    if names != [] {
      var init, last := names[..|names| - 1], names[|names| - 1];
      CategoriesAdded(m, init);
      assert names == init + [last];
      TrimKeepsIdentity(last);
      assert last in names && forall n | n in init :: n in names;
    }
  }

  lemma {:induction false} CategoriesSucceedIff(m: Menu, names: seq<string>)
    requires WellFormed(m) && DistinctNames(names)
    ensures EnsureCategories(m, names).Ok? <==> forall n | n in names :: CategoryReady(m, Normalized(n))
  {
    hide WellFormed, FindActive, EnsureCategory, Normalized;
    if names != [] {
      var init, last := names[..|names| - 1], names[|names| - 1];
      assert names == init + [last];
      CategoriesSucceedIff(m, init);
      if EnsureCategories(m, init).Ok? {
        EnsureCategoriesKeeps(m, init);
        CategoriesAdded(m, init);
        NextCategory(m, EnsureCategories(m, init).value, init, last);
      }
    }
  }

  lemma NextCategory(m: Menu, t: Menu, names: seq<string>, name: string)
    requires !Names(names, Normalized(name)) && m.categories <= t.categories
    requires forall c | c in t.categories :: c in m.categories || Names(names, Normalized(c.name))
    requires FindActive(t.categories, Normalized(name)).Some? <==> FindActive(m.categories, Normalized(name)).Some? || Names(names, Normalized(name))
    ensures EnsureCategory(t, name).Ok? <==> CategoryReady(m, Normalized(name))
  {
    LowerLength(Trim(name));
    hide FindActive, Trim, Lower, Names;
  }

  lemma {:induction false} StationsAfter(configured: map<string, bool>, rows: seq<Row>)
    requires EnsureStations(configured, rows).Ok?
    ensures forall id :: (id in EnsureStations(configured, rows).value && EnsureStations(configured, rows).value[id]) <==> StationReady(configured, rows, id)
  {
    hide Slug, Adds, StationReady, EnsureStation;
    if rows == [] {
      ReadyAtStart(configured);
    } else {
      var init, last := rows[..|rows| - 1], rows[|rows| - 1];
      StationsAfter(configured, init);
      assert rows == init + [last];
      ReadyNext(configured, init, last);
      StationAdded(EnsureStations(configured, init).value, configured, last);
    }
  }

  lemma ReadyAtStart(configured: map<string, bool>)
    ensures forall id :: (id in configured && configured[id]) <==> StationReady(configured, [], id)
  {}

  lemma ReadyNext(configured: map<string, bool>, rows: seq<Row>, row: Row)
    ensures forall id :: StationReady(configured, rows + [row], id) <==> StationReady(configured, rows, id) || Adds(configured, row, id)
  {
    hide Adds;
    assert row in rows + [row] && forall r | r in rows :: r in rows + [row];
  }

  lemma StationAdded(stations: map<string, bool>, configured: map<string, bool>, row: Row)
    requires EnsureStation(stations, configured, row.station).Ok?
    ensures var t := EnsureStation(stations, configured, row.station).value;
            forall id :: (id in t && t[id]) <==> (id in stations && stations[id]) || Adds(configured, row, id)
  {
    hide Slug;
  }

  lemma PreparedOkIff(m: Menu, rows: seq<Row>)
    requires WellFormed(m)
    ensures Prepared(m, rows).Ok? <==> forall r | r in rows :: CategoryReady(m, Normalized(r.category)) && Slug(r.station) != ""
  {
    hide WellFormed, Normalized, Slug, CategoryReady, EnsureCategories, EnsureStations, CategoryNames;
    CategoryNamesDistinct(rows);
    CategoryNamesCover(rows);
    CategoriesSucceedIff(m, CategoryNames(rows));
    StationsKnown(m.stations, rows);
    forall r | r in rows && EnsureCategories(m, CategoryNames(rows)).Ok? ensures CategoryReady(m, Normalized(r.category)) {
      assert Names(CategoryNames(rows), Normalized(r.category));
    }
    forall n | n in CategoryNames(rows) && forall r | r in rows :: CategoryReady(m, Normalized(r.category)) ensures CategoryReady(m, Normalized(n)) {
      assert Names(CategoryNames(rows), Normalized(n));
    }
  }

  /** An import succeeds exactly when every row finds its category or a free name for it, has a station that
      is enabled or new, and, if it changes something, a price in range and a name. */
  lemma ImportSucceedsIff(m: Menu, rows: seq<Row>)
    requires WellFormed(m) && DistinctRows(rows)
    ensures Import(m, rows).Ok? <==> forall r | r in rows :: RowReady(m, rows, r)
  {
    hide EnsureCategories, EnsureStations, ImportItems, WellFormed, SameIdentity, CategoryReady, StationReady, Normalized, Slug, Classify, FindActive, Trim;
    PreparedOkIff(m, rows);
    if Prepared(m, rows).Ok? {
      PreparedKeeps(m, rows);
      assert rows[..|rows|] == rows;
      ImportItemsSucceedIff(Prepared(m, rows).value, rows, |rows|);
      hide Importable, RowReady;
      forall r | r in rows ensures Importable(Prepared(m, rows).value, r) <==> RowReady(m, rows, r) {
        ReadyImportable(m, rows, r);
      }
      forall k | 0 <= k < |rows| ensures rows[k] in rows {}
    } else {
      assert forall r :: RowReady(m, rows, r) ==> CategoryReady(m, Normalized(r.category)) && Slug(r.station) != "";
    }
  }

  lemma ReadyImportable(m: Menu, rows: seq<Row>, row: Row)
    requires WellFormed(m) && Prepared(m, rows).Ok? && row in rows
    ensures Importable(Prepared(m, rows).value, row) <==> RowReady(m, rows, row)
  {
    hide EnsureCategories, EnsureStations, WellFormed, CategoryReady, StationReady, Normalized, Slug, Classify, FindActive, Trim;
    PreparedOkIff(m, rows);
    PreparedKeeps(m, rows);
    StationsAfter(m.stations, rows);
  }

  /******* Importing the same rows again *******/

  predicate StableStation(name: string) {
    Slug(Slug(name)) == Slug(name)
  }

  /** After a successful import the same rows are all up to date, except that a row whose station id is not
      its own id (one cut off behind a dash) is planned as an update again. */
  lemma ImportSettles(m: Menu, rows: seq<Row>, k: nat)
    requires WellFormed(m) && DistinctRows(rows) && Import(m, rows).Ok? && k < |rows|
    ensures WellFormed(Import(m, rows).value.0)
    ensures Classify(Import(m, rows).value.0, rows[k]).Unchanged? <==> Classify(m, rows[k]).Unchanged? || StableStation(rows[k].station)
    ensures !Classify(Import(m, rows).value.0, rows[k]).CreateItem?
  {
    hide Normalized, Slug, Classify, ImportItems, WellFormed, SameIdentity, EnsureCategories, EnsureStations, Settled, RowDone, ItemOf;
    PreparedKeeps(m, rows);
    var t := Prepared(m, rows).value;
    assert rows[..|rows|] == rows;
    ImportItemsProgress(t, rows, |rows|);
    var after := Import(m, rows).value.0;
    assert Settled(after, rows[k]) && RowDone(t, after, rows[k]);
    SettledPlan(t, after, rows[k]);
  }

  lemma SettledPlan(m: Menu, t: Menu, row: Row)
    requires t.categories == m.categories && Settled(t, row) && RowDone(m, t, row)
    ensures Classify(t, row).Unchanged? <==> Classify(m, row).Unchanged? || StableStation(row.station)
    ensures !Classify(t, row).CreateItem?
  {
    hide Normalized, Slug;
  }

  lemma {:induction false} NothingToDo(m: Menu, rows: seq<Row>)
    requires forall r | r in rows :: ImportRow(m, r) == Ok(m)
    ensures ImportItems(m, rows) == Ok((m, Plans(m, rows)))
  {
    hide ImportRow, Classify;
    if rows == [] {
      assert Plans(m, rows) == [];
    } else {
      var init, last := rows[..|rows| - 1], rows[|rows| - 1];
      assert last in rows && forall r | r in init :: r in rows;
      NothingToDo(m, init);
      assert Plans(m, rows) == Plans(m, init) + [Classify(m, last)];
    }
  }

  /** Importing a settled row once more stores what is stored. */
  lemma RowAgain(m: Menu, t: Menu, row: Row)
    requires t.categories == m.categories && t.stations == m.stations && Settled(t, row) && RowDone(m, t, row) && Importable(m, row)
    ensures ImportRow(t, row) == Ok(t)
  {
    hide Normalized, Slug, Trim, FindActive;
    var i := FindItem(t.items, FindActive(t.categories, Normalized(row.category)).value.id, Normalized(row.name)).value;
    if !UpToDate(t.items[i], row) {
      assert t.items[i].(price := row.price, station := Some(Slug(Slug(row.station))), active := true, available := true) == t.items[i];
      assert t.items[i := t.items[i]] == t.items;
    }
  }

  lemma {:induction false} StationsKept(configured: map<string, bool>, rows: seq<Row>)
    requires EnsureStations(configured, rows).Ok?
    ensures configured.Keys <= EnsureStations(configured, rows).value.Keys
  {
    hide Slug;
    if rows != [] { StationsKept(configured, rows[..|rows| - 1]); }
  }

  /** Configuring the stations of the same rows once more adds none. */
  lemma {:induction false} StationsAgain(configured: map<string, bool>, rows: seq<Row>, n: nat)
    requires EnsureStations(configured, rows).Ok? && n <= |rows| && forall r | r in rows :: Slug(r.station) != ""
    ensures var after := EnsureStations(configured, rows).value; EnsureStations(after, rows[..n]) == Ok(after)
    decreases n
  {
    hide Slug;
    var after := EnsureStations(configured, rows).value;
    if n == 0 {
      assert rows[..0] == [];
    } else {
      var row := rows[n - 1];
      assert rows[..n][..n - 1] == rows[..n - 1] && rows[..n][n - 1] == row && row in rows;
      StationsAgain(configured, rows, n - 1);
      StationsKept(configured, rows);
      StationsAfter(configured, rows);
      var id := Slug(row.station);
      if id !in after && Slug(id) != "" && Slug(id) != "receipt" {
        assert Adds(configured, row, Slug(id)) && StationReady(configured, rows, Slug(id));
        assert after[Slug(id) := true] == after;
      }
    }
  }

  /** A second confirmation of the same rows succeeds and leaves the menu as it is. It reports no row as
      updated exactly when every row was unchanged from the start or has a station id that is its own id. */
  lemma SecondImportWritesNothing(m: Menu, rows: seq<Row>)
    requires WellFormed(m) && DistinctRows(rows) && Import(m, rows).Ok?
    ensures var after := Import(m, rows).value.0;
            && Import(after, rows).Ok? && Import(after, rows).value.0 == after
            && var counts := Import(after, rows).value.1;
               && counts.categories == counts.created == 0 && counts.updated + counts.untouched == |rows|
               && (counts.updated == 0 <==> forall r | r in rows :: Classify(m, r).Unchanged? || StableStation(r.station))
  {
    hide Normalized, Slug, Classify, ImportItems, ImportRow, WellFormed, SameIdentity, EnsureStations, FindActive, StableStation, Settled, RowDone, Importable, ItemOf;
    PreparedKeeps(m, rows);
    var t, after := Prepared(m, rows).value, Import(m, rows).value.0;
    assert rows[..|rows|] == rows;
    ImportItemsProgress(t, rows, |rows|);
    ImportItemsSucceedIff(t, rows, |rows|);
    forall r | r in rows ensures ImportRow(after, r) == Ok(after) && FindActive(after.categories, Normalized(r.category)).Some? && Slug(r.station) != "" {
      var k :| 0 <= k < |rows| && rows[k] == r;
      assert Settled(after, rows[k]) && RowDone(t, after, rows[k]) && Importable(t, rows[k]);
      RowAgain(t, after, r);
    }
    CategoryNamesCover(rows);
    CategoriesThere(after, rows);
    NoneMissing(after, CategoryNames(rows));
    StationsAgain(m.stations, rows, |rows|);
    assert after.(stations := after.stations) == after;
    NothingToDo(after, rows);
    CountedAgain(m, rows);
  }

  /** What the second confirmation plans. */
  lemma CountedAgain(m: Menu, rows: seq<Row>)
    requires WellFormed(m) && DistinctRows(rows) && Import(m, rows).Ok?
    ensures var plans := Plans(Import(m, rows).value.0, rows);
            && Count(plans, CreateItem) == 0 && Count(plans, UpdateItem) + Count(plans, Unchanged) == |rows|
            && (Count(plans, UpdateItem) == 0 <==> forall r | r in rows :: Classify(m, r).Unchanged? || StableStation(r.station))
  {
    hide Import, Classify, WellFormed, DistinctRows, StableStation;
    var plans := Plans(Import(m, rows).value.0, rows);
    forall k: nat | k < |rows| ensures !plans[k].CreateItem? && (plans[k].Unchanged? <==> Classify(m, rows[k]).Unchanged? || StableStation(rows[k].station)) {
      ImportSettles(m, rows, k);
    }
    CountPlans(plans);
    if forall r | r in rows :: Classify(m, r).Unchanged? || StableStation(r.station) {
      forall k | 0 <= k < |rows| ensures plans[k].Unchanged? { assert rows[k] in rows; }
    } else {
      var r :| r in rows && !(Classify(m, r).Unchanged? || StableStation(r.station));
      var k :| 0 <= k < |rows| && rows[k] == r;
      assert plans[k].UpdateItem?;
    }
  }

  lemma CategoriesThere(m: Menu, rows: seq<Row>)
    requires forall r | r in rows :: FindActive(m.categories, Normalized(r.category)).Some?
    requires forall key: string :: Names(CategoryNames(rows), key) ==> exists r :: r in rows && Normalized(r.category) == key
    ensures forall n | n in CategoryNames(rows) :: FindActive(m.categories, Normalized(n)).Some?
  {
    hide Normalized, FindActive, CategoryNames;
    forall n | n in CategoryNames(rows) ensures FindActive(m.categories, Normalized(n)).Some? {
      assert Names(CategoryNames(rows), Normalized(n));
      var r :| r in rows && Normalized(r.category) == Normalized(n);
    }
  }

  lemma {:induction false} NoneMissing(m: Menu, names: seq<string>)
    requires forall n | n in names :: FindActive(m.categories, Normalized(n)).Some?
    ensures EnsureCategories(m, names) == Ok(m) && MissingCategories(m, names) == 0
  {
    hide Normalized, FindActive;
    if names != [] {
      assert names[|names| - 1] in names && forall n | n in names[..|names| - 1] :: n in names;
      NoneMissing(m, names[..|names| - 1]);
    }
  }

  /** Without creations the counts add up, and none is an update exactly when all rows are unchanged. */
  lemma {:induction false} CountPlans(plans: seq<Plan>)
    requires forall k | 0 <= k < |plans| :: !plans[k].CreateItem?
    ensures Count(plans, CreateItem) == 0 && Count(plans, UpdateItem) + Count(plans, Unchanged) == |plans|
    ensures Count(plans, UpdateItem) == 0 <==> forall k | 0 <= k < |plans| :: plans[k].Unchanged?
  {
    if plans != [] {
      CountPlans(plans[..|plans| - 1]);
      assert forall k | 0 <= k < |plans| - 1 :: plans[..|plans| - 1][k] == plans[k];
    }
  }

  /******* A station id that is not its own id *******/

  predicate AllPlain(s: string) {
    forall c | c in s :: IsPlain(c)
  }

  lemma {:induction false} PlainLower(s: string)
    requires AllPlain(s)
    ensures Lower(s) == s
  {
    if s != "" {
      assert IsPlain(s[|s| - 1]) && forall c | c in s[..|s| - 1] :: c in s;
      PlainLower(s[..|s| - 1]);
      assert s == s[..|s| - 1] + [s[|s| - 1]];
    }
  }

  lemma {:induction false} PlainDashed(s: string)
    requires AllPlain(s)
    ensures Dashed(s) == s
  {
    if s != "" {
      assert IsPlain(s[|s| - 1]) && forall c | c in s[..|s| - 1] :: c in s;
      PlainDashed(s[..|s| - 1]);
      assert s == s[..|s| - 1] + [s[|s| - 1]];
    }
  }

  lemma DashedAppend(s: string, c: char)
    requires s != "" && Lower(s) == s && Dashed(s) == s && s[|s| - 1] != '-' && (c == '-' || IsPlain(c))
    ensures Lower(s + [c]) == s + [c] && Dashed(s + [c]) == s + [c]
  {
    assert (s + [c])[..|s|] == s;
  }

  lemma NoEnds(s: string)
    requires s != "" && !IsSpace(s[0]) && !IsSpace(s[|s| - 1])
    ensures Trim(s) == s && (s[0] != '-' && s[|s| - 1] != '-' ==> StripEnd(StripStart(s)) == s)
  {}

  /** A name of 47 letters, a dash and one more letter. */
  function LongName(): string {
    seq(47, i => 'a') + "-b"
  }

  /** Its id is cut off behind the dash, and the id of that id has no dash. */
  lemma LongNameUnstable()
    ensures !StableStation(LongName()) && Slug(LongName()) == seq(47, i => 'a') + "-" && Slug(Slug(LongName())) == seq(47, i => 'a')
  {
    var a := seq(47, i => 'a');
    PlainLower(a);
    PlainDashed(a);
    var dashed := a + "-";
    DashedAppend(a, '-');
    var name := dashed + "b";
    assert name == LongName();
    assert name[..|name| - 1] == dashed;
    assert Lower(name) == name && Dashed(name) == name;
    NoEnds(name);
    assert name[..48] == dashed;
    assert Slug(name) == dashed;
    NoEnds(dashed);
    NoEnds(a);
    assert dashed[..|dashed| - 1] == a;
    assert StripStart(dashed) == dashed && StripEnd(dashed) == StripEnd(a) == a;
    assert Slug(dashed) == a;
  }

  const LONG_ROW: Row := Row("soup", "food", LongName(), 500)

  const EMPTY_MENU: Menu := Menu([], [], map[], 0)

  /** A row for a station of that name is imported into an empty menu, and is then planned as an update
      again. */
  lemma StationIdNotStable()
    ensures Import(EMPTY_MENU, [LONG_ROW]).Ok?
    ensures Classify(Import(EMPTY_MENU, [LONG_ROW]).value.0, LONG_ROW) == UpdateItem
  {
    LongNameUnstable();
    PlainNames();
    hide Slug, LongName, Normalized, Trim, Import, StableStation;
    var m, rows := EMPTY_MENU, [LONG_ROW];
    assert Adds(m.stations, LONG_ROW, Slug(Slug(LONG_ROW.station)));
    assert LONG_ROW in rows;
    assert RowReady(m, rows, LONG_ROW);
    ImportSucceedsIff(m, rows);
    ImportSettles(m, rows, 0);
  }

  lemma PlainNames()
    ensures Normalized("food") != "" && Trim("soup") != ""
    ensures seq(47, i => 'a') != "" && seq(47, i => 'a') != "receipt"
  {
    NoEnds("food");
    NoEnds("soup");
    LowerLength("food");
  }

  /******* Validation *******/

  /** A cell of the price column: empty, a blank text, a text that is no number, or cents. */
  datatype Price = Missing | Blank | NotANumber | Cents(amount: real)

  datatype SourceRow = SourceRow(name: string, category: string, station: string, price: Price)

  datatype Problem =
    | NameRequired
    | CategoryRequired
    | StationRequired
    | PriceRequired
    | PriceNotANumber
    | PriceNegative
    | PriceOutOfRange
    | DuplicateName

  function PriceProblems(p: Price): seq<Problem> {
    match p
    case Missing => [PriceRequired]
    case Blank => [PriceRequired]
    case NotANumber => [PriceNotANumber]
    case Cents(amount) =>
      if amount < 0.0 then [PriceNegative]
      else if amount > PRICE_MAX as real || amount != amount.Floor as real then [PriceOutOfRange]
      else []
  }

  /** The number that the price is read as; a blank text is read as zero. */
  predicate Priced(p: Price) {
    p.Blank? || PriceProblems(p) == []
  }

  function PriceOf(p: Price): nat
    requires Priced(p)
  {
    if p.Blank? then 0 else p.amount.Floor
  }

  predicate ValidFields(r: SourceRow) {
    Trim(r.name) != "" && Trim(r.category) != "" && Trim(r.station) != "" && Priced(r.price)
  }

  function Identity(r: SourceRow): (string, string) {
    (Lower(Trim(r.category)), Lower(Trim(r.name)))
  }

  function AsRow(r: SourceRow): Row
    requires Priced(r.price)
  {
    Row(Trim(r.name), Trim(r.category), Trim(r.station), PriceOf(r.price))
  }

  /** The problems reported for a row: one for each bad field, one for a name that was accepted before in the
      same category. */
  function RowProblems(r: SourceRow, seen: set<(string, string)>): seq<Problem> {
    (if Trim(r.name) == "" then [NameRequired] else []) + (if Trim(r.category) == "" then [CategoryRequired] else [])
    + (if Trim(r.station) == "" then [StationRequired] else []) + PriceProblems(r.price)
    + (if Trim(r.name) != "" && Trim(r.category) != "" && Identity(r) in seen then [DuplicateName] else [])
  }

  function Numbered(row: nat, problems: seq<Problem>): (r: seq<(nat, Problem)>)
    ensures |r| == |problems| && forall i | 0 <= i < |r| :: r[i] == (row, problems[i])
  {
    seq(|problems|, i requires 0 <= i < |problems| => (row, problems[i]))
  }

  datatype Validation = Validation(rows: seq<Row>, identities: set<(string, string)>, errors: seq<(nat, Problem)>)

  /** Accepted rows with the identities they take, and the errors in the order of the rows. */
  function Validated(source: seq<SourceRow>): Validation {
    if source == [] then Validation([], {}, [])
    else
      var n := |source| - 1;
      var earlier, r := Validated(source[..n]), source[n];
      var errors := earlier.errors + Numbered(n, RowProblems(r, earlier.identities));
      if ValidFields(r) && Identity(r) !in earlier.identities then Validation(earlier.rows + [AsRow(r)], earlier.identities + {Identity(r)}, errors)
      else earlier.(errors := errors)
  }

  method ValidateBulkUploadRows(source: seq<SourceRow>) returns (rows: seq<Row>, errors: seq<(nat, Problem)>)
    ensures rows == Validated(source).rows && errors == Validated(source).errors
  {
    hide Trim, Lower, PriceProblems;
    rows, errors := [], [];
    var identities: set<(string, string)> := {};
    for i := 0 to |source|
      invariant Validation(rows, identities, errors) == Validated(source[..i])
    {
      assert source[..i + 1][..i] == source[..i];
      var r, problems := source[i], [];
      if Trim(r.name) == "" { problems := problems + [NameRequired]; }
      if Trim(r.category) == "" { problems := problems + [CategoryRequired]; }
      if Trim(r.station) == "" { problems := problems + [StationRequired]; }
      problems := problems + PriceProblems(r.price);
      if Trim(r.name) != "" && Trim(r.category) != "" && Identity(r) in identities { problems := problems + [DuplicateName]; }
      assert problems == RowProblems(r, identities);
      errors := errors + Numbered(i, problems);
      if ValidFields(r) && Identity(r) !in identities {
        rows := rows + [AsRow(r)];
        identities := identities + {Identity(r)};
      }
    }
    assert source[..|source|] == source;
  }

  /** Accepted rows have identities of their own and prices in range. There is no error exactly when every
      row of the workbook is accepted and no price is a blank text: such a row is reported and accepted at
      price zero. */
  lemma ValidatedRows(source: seq<SourceRow>)
    ensures DistinctRows(Validated(source).rows)
    ensures forall r | r in Validated(source).rows :: r.price <= PRICE_MAX && r.name != ""
    ensures Validated(source).errors == [] <==> |Validated(source).rows| == |source| && forall r | r in source :: !r.price.Blank?
  {
    ValidatedSound(source);
    ValidatedErrors(source);
    hide Validated, DistinctRows, Normalized;
  }

  /** Each accepted row has taken its identity. */
  predicate SoundRows(v: Validation) {
    && DistinctRows(v.rows)
    && forall r | r in v.rows :: r.price <= PRICE_MAX && r.name != "" && (Normalized(r.category), Normalized(r.name)) in v.identities
  }

  lemma {:induction false} ValidatedSound(source: seq<SourceRow>)
    ensures SoundRows(Validated(source))
  {
    if source != [] {
      var n := |source| - 1;
      ValidatedSound(source[..n]);
      ValidatedLast(source);
      hide Validated;
      if Accepted(source[n], Validated(source[..n]).identities) {
        AcceptedApart(Validated(source[..n]).rows, Validated(source[..n]).identities, source[n]);
      }
      hide DistinctRows, Normalized, Identity, ValidFields, RowProblems, Lower, Trim, AsRow;
    }
  }

  predicate NoBlanks(source: seq<SourceRow>) {
    forall r | r in source :: !r.price.Blank?
  }

  lemma NoBlanksLast(source: seq<SourceRow>)
    requires source != []
    ensures NoBlanks(source) <==> NoBlanks(source[..|source| - 1]) && !source[|source| - 1].price.Blank?
  {
    assert source == source[..|source| - 1] + [source[|source| - 1]];
  }

  lemma {:induction false} ValidatedErrors(source: seq<SourceRow>)
    ensures Validated(source).errors == [] <==> |Validated(source).rows| == |source| && NoBlanks(source)
    ensures |Validated(source).rows| <= |source|
  {
    if source != [] {
      var n := |source| - 1;
      ValidatedErrors(source[..n]);
      ValidatedLast(source);
      NoProblems(source[n], Validated(source[..n]).identities);
      NoBlanksLast(source);
      hide *;
    }
  }

  predicate Accepted(r: SourceRow, seen: set<(string, string)>) {
    ValidFields(r) && Identity(r) !in seen
  }

  lemma ValidatedLast(source: seq<SourceRow>)
    requires source != []
    ensures var n := |source| - 1;
            var earlier, r, all := Validated(source[..n]), source[n], Validated(source);
            && all.errors == earlier.errors + Numbered(n, RowProblems(r, earlier.identities))
            && (if Accepted(r, earlier.identities)
                then Priced(r.price) && all.rows == earlier.rows + [AsRow(r)] && all.identities == earlier.identities + {Identity(r)}
                else all.rows == earlier.rows && all.identities == earlier.identities)
  {
    hide Trim, Lower, RowProblems, AsRow, Identity;
  }

  lemma NoProblems(r: SourceRow, seen: set<(string, string)>)
    ensures RowProblems(r, seen) == [] <==> Accepted(r, seen) && !r.price.Blank?
  {
    hide Trim, Lower;
  }

  lemma AcceptedApart(rows: seq<Row>, identities: set<(string, string)>, r: SourceRow)
    requires DistinctRows(rows) && Priced(r.price) && Identity(r) !in identities
    requires forall q | q in rows :: (Normalized(q.category), Normalized(q.name)) in identities
    requires ValidFields(r)
    ensures DistinctRows(rows + [AsRow(r)]) && (Normalized(AsRow(r).category), Normalized(AsRow(r).name)) == Identity(r) && AsRow(r).price <= PRICE_MAX
    ensures AsRow(r).name != ""
  {
    RowIdentity(r);
    hide Normalized, Identity;
    forall k | 0 <= k < |rows| ensures !SameIdentity(rows[k], AsRow(r)) {
      assert rows[k] in rows;
    }
  }

  lemma RowIdentity(r: SourceRow)
    requires Priced(r.price)
    ensures (Normalized(AsRow(r).category), Normalized(AsRow(r).name)) == Identity(r)
    ensures AsRow(r).price <= PRICE_MAX
  {
    TrimKeepsIdentity(r.name);
    TrimKeepsIdentity(r.category);
  }

  /******* The service *******/

  class MenuStore {
    var menu: Menu

    constructor (initial: Menu)
      ensures menu == initial
    {
      menu := initial;
    }

    /** importRows: categories, stations and items are written one after another; if anything throws, the
        snapshots taken at the start are put back. */
    method ImportRows(rows: seq<Row>) returns (r: Result<Counts>)
      modifies this
      ensures match Import(old(menu), rows)
              case Ok(imported) => r == Ok(imported.1) && menu == imported.0
              case Err(_) => r.Err? && menu == old(menu)
    {
      var snapshot := menu;
      r := WriteRows(rows);
      if r.Err? {
        menu := snapshot;
      }
    }

    method WriteRows(rows: seq<Row>) returns (r: Result<Counts>)
      modifies this
      ensures match Import(old(menu), rows) case Ok(imported) => r == Ok(imported.1) && menu == imported.0 case Err(_) => r.Err?
    {
      hide EnsureCategories, EnsureStations, ImportItems, Classify;
      var m := menu;
      var named := WriteCategories(CategoryNames(rows));
      if named.Err? { return Err(named.message); }
      var stations := EnsureStations(m.stations, rows);
      if stations.Err? { return Err(stations.message); }
      menu := menu.(stations := stations.value);
      ghost var ready := menu;
      r := WriteItems(rows, |m.categories|);
      if r.Ok? {
        ItemsKeepCategories(ready, rows);
      }
    }

    method WriteCategories(names: seq<string>) returns (r: Result<()>)
      modifies this
      ensures match EnsureCategories(old(menu), names) case Ok(named) => r.Ok? && menu == named case Err(_) => r.Err?
    {
      hide EnsureCategory;
      ghost var m := menu;
      for i := 0 to |names|
        invariant EnsureCategories(m, names[..i]) == Ok(menu)
      {
        assert names[..i + 1][..i] == names[..i];
        var next := EnsureCategory(menu, names[i]);
        if next.Err? {
          CategoriesFail(m, names, i + 1);
          return Err(next.message);
        }
        menu := next.value;
      }
      assert names[..|names|] == names;
      r := Ok(());
    }

    method WriteItems(rows: seq<Row>, categoriesBefore: nat) returns (r: Result<Counts>)
      modifies this
      ensures match ImportItems(old(menu), rows)
              case Ok((imported, plans)) =>
                menu == imported && r == Ok(Counts(|menu.categories| - categoriesBefore, Count(plans, CreateItem), Count(plans, UpdateItem), Count(plans, Unchanged)))
              case Err(_) => r.Err?
    {
      hide ImportRow, Classify;
      ghost var ready := menu;
      var created, updated, untouched := 0, 0, 0;
      ghost var plans := [];
      for i := 0 to |rows|
        invariant ImportItems(ready, rows[..i]) == Ok((menu, plans))
        invariant created == Count(plans, CreateItem) && updated == Count(plans, UpdateItem) && untouched == Count(plans, Unchanged)
      {
        assert rows[..i + 1][..i] == rows[..i];
        var plan := Classify(menu, rows[i]);
        var next := ImportRow(menu, rows[i]);
        if next.Err? {
          ItemsFail(ready, rows, i + 1);
          return Err(next.message);
        }
        match plan {
          case CreateItem => created := created + 1;
          case UpdateItem => updated := updated + 1;
          case Unchanged => untouched := untouched + 1;
        }
        CountAppend(plans, plan);
        menu, plans := next.value, plans + [plan];
      }
      assert rows[..|rows|] == rows;
      r := Ok(Counts(|menu.categories| - categoriesBefore, created, updated, untouched));
    }
  }

  lemma CountAppend(plans: seq<Plan>, plan: Plan)
    ensures forall p :: Count(plans + [plan], p) == Count(plans, p) + if p == plan then 1 else 0
  {
    assert (plans + [plan])[..|plans|] == plans;
  }

  lemma {:induction false} CategoriesFail(m: Menu, names: seq<string>, n: nat)
    requires n <= |names| && EnsureCategories(m, names[..n]).Err?
    ensures EnsureCategories(m, names).Err?
    decreases |names|
  {
    hide EnsureCategory;
    if n == |names| {
      assert names[..n] == names;
    } else {
      assert names[..|names| - 1][..n] == names[..n];
      CategoriesFail(m, names[..|names| - 1], n);
    }
  }

  lemma {:induction false} ItemsFail(m: Menu, rows: seq<Row>, n: nat)
    requires n <= |rows| && ImportItems(m, rows[..n]).Err?
    ensures ImportItems(m, rows).Err?
    decreases |rows|
  {
    hide ImportRow, Classify;
    if n == |rows| {
      assert rows[..n] == rows;
    } else {
      assert rows[..|rows| - 1][..n] == rows[..n];
      ItemsFail(m, rows[..|rows| - 1], n);
    }
  }

  lemma {:induction false} ItemsKeepCategories(m: Menu, rows: seq<Row>)
    ensures ImportItems(m, rows).Ok? ==> ImportItems(m, rows).value.0.categories == m.categories
  {
    hide Classify, Normalized, Slug, Trim, StationUsable;
    if rows != [] {
      ItemsKeepCategories(m, rows[..|rows| - 1]);
    }
  }
}
