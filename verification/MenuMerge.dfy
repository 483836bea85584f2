/** Menus as maps of versions, and what delivering versions to a menu does to it
    (backend/sync/service.ts). */
module MenuMerge {
  import opened Results
  import opened Json
  import opened MenuVersion

  datatype Entity = Categories | Items

  /** A record's namespace and record key. */
  datatype Key = Key(entity: Entity, id: string)

  type Menu = map<Key, Json>

  datatype Outcome = Applied | StaleIgnored | AlreadyProcessed

  datatype Version = Version(key: Key, payload: Json)

  function Lookup(menu: Menu, key: Key): Option<Json> {
    if key in menu then Some(menu[key]) else None
  }

  /** One version arriving at a menu: identity check, store check, comparison, upsert and, unless it comes
      with a snapshot, the audit row. An error undoes all of it. */
  function ApplyVersion(storeId: string, menu: Menu, key: Key, payload: Json, audited: bool): Result<(Menu, Outcome)> {
    if AsText(Property(payload, "id")) != key.id then Err("Menu sync identity does not match its payload.")
    else if AsText(Property(payload, "branchId")) != storeId then Err("Menu sync store scope does not match its payload.")
    else
      match Compare(payload, Lookup(menu, key))
      case Err(message) => Err(message)
      case Ok(verdict) =>
        if audited && !Recordable(payload) then Err("version_at is not a time.")
        else
          match verdict
          case Newer => Ok((menu[key := payload], Applied))
          case Stale => Ok((menu, StaleIgnored))
          case Same => Ok((menu, AlreadyProcessed))
  }

  /** A version whose payload names its own key and store. */
  predicate Scoped(storeId: string, v: Version) {
    AsText(Property(v.payload, "id")) == v.key.id && AsText(Property(v.payload, "branchId")) == storeId
  }

  /** A scoped version with a readable timestamp. */
  predicate Proper(storeId: string, v: Version) {
    Scoped(storeId, v) && Stamped(v.payload)
  }

  predicate ScopedMenu(storeId: string, menu: Menu) {
    forall k | k in menu :: Scoped(storeId, Version(k, menu[k]))
  }

  predicate ProperMenu(storeId: string, menu: Menu) {
    forall k | k in menu :: Proper(storeId, Version(k, menu[k]))
  }

  /** The effect of a proper version, as one keeps the later of two records. */
  function Merge(menu: Menu, v: Version): Menu {
    if v.key !in menu || Supersedes(v.payload, menu[v.key]) then menu[v.key := v.payload] else menu
  }

  lemma ApplyIsMerge(storeId: string, menu: Menu, v: Version, audited: bool)
    requires Proper(storeId, v)
    ensures var r := ApplyVersion(storeId, menu, v.key, v.payload, audited);
            r.Ok? && r.value.0 == Merge(menu, v) &&
            (r.value.1 == Applied <==> Merge(menu, v) != menu) &&
            (r.value.1 == Applied <==> v.key !in menu || Supersedes(v.payload, menu[v.key]))
  {
    hide Compare, Stamped, AsText;
    StampedCompares(v.payload, Lookup(menu, v.key));
    CompareTrichotomy(v.payload, v.payload);
  }

  function MergeAll(menu: Menu, vs: seq<Version>): Menu
    decreases |vs|
  {
    if vs == [] then menu else MergeAll(Merge(menu, vs[0]), vs[1..])
  }

  /******* A menu is the latest of the versions it has seen *******/

  /** Everything `menu` stores. */
  function Stored(menu: Menu): (vs: set<Version>)
    ensures forall k | k in menu :: Version(k, menu[k]) in vs
    ensures forall v | v in vs :: v.key in menu && menu[v.key] == v.payload
  {
    set k | k in menu :: Version(k, menu[k])
  }

  ghost predicate Covers(menu: Menu, v: Version) {
    v.key in menu && AtLeast(menu[v.key], v.payload)
  }

  /** `menu` holds, for every key in `vs`, the latest version of that key, and nothing else. */
  ghost predicate LatestOf(menu: Menu, vs: set<Version>) {
    && Stored(menu) <= vs
    && forall v | v in vs :: Covers(menu, v)
  }

  predicate AllProper(storeId: string, vs: set<Version>) {
    forall v | v in vs :: Proper(storeId, v)
  }

  lemma LatestUnique(storeId: string, m: Menu, n: Menu, vs: set<Version>)
    requires AllProper(storeId, vs) && LatestOf(m, vs) && LatestOf(n, vs)
    ensures m == n
  {
    hide Stamped, Supersedes, AsText, Property;
    forall k | k in m ensures k in n && n[k] == m[k] {
      var a := Version(k, m[k]);
      assert a in vs && Covers(n, a);
      var b := Version(k, n[k]);
      assert b in Stored(n) && b in vs && Covers(m, b);
      assert Proper(storeId, a) && Proper(storeId, b);
      AtLeastAntisymmetric(m[k], n[k]);
    }
    forall k | k in n ensures k in m {
      assert Version(k, n[k]) in Stored(n);
      assert Covers(m, Version(k, n[k]));
    }
  }

  /** Merging one more version keeps the menu the latest of all versions so far. */
  lemma MergeLatest(storeId: string, menu: Menu, vs: set<Version>, v: Version)
    requires AllProper(storeId, vs + {v}) && LatestOf(menu, vs)
    ensures LatestOf(Merge(menu, v), vs + {v})
  {
    hide Merge, Covers, AllProper;
    MergeStores(menu, vs, v);
    forall w | w in vs + {v} ensures Covers(Merge(menu, v), w) {
      MergeCovers(storeId, menu, vs, v, w);
    }
  }

  lemma MergeStores(menu: Menu, vs: set<Version>, v: Version)
    requires LatestOf(menu, vs)
    ensures forall w | w in Stored(Merge(menu, v)) :: w in vs + {v}
  {
    hide Supersedes, Covers;
    forall w | w in Stored(Merge(menu, v)) ensures w in vs + {v} {
      assert w == v || w in Stored(menu);
    }
  }

  lemma MergeCovers(storeId: string, menu: Menu, vs: set<Version>, v: Version, w: Version)
    requires AllProper(storeId, vs + {v}) && LatestOf(menu, vs) && w in vs + {v}
    ensures Covers(Merge(menu, v), w)
  {
    hide Stamped, Supersedes, AsText, Property;
    assert Proper(storeId, v) && Proper(storeId, w);
    if v.key in menu {
      var held := Version(v.key, menu[v.key]);
      assert held in Stored(menu) && held in vs && Proper(storeId, held);
      CompareTrichotomy(v.payload, menu[v.key]);
    }
    if w != v {
      assert Covers(menu, w);
      if w.key == v.key {
        AtLeastTransitive(Merge(menu, v)[v.key], menu[v.key], w.payload);
      }
    }
  }

  lemma {:induction false} MergeAllAppend(menu: Menu, vs: seq<Version>, v: Version)
    ensures MergeAll(menu, vs + [v]) == Merge(MergeAll(menu, vs), v)
    decreases |vs|
  {
    if vs == [] {
      assert vs + [v] == [v];
    } else {
      assert (vs + [v])[1..] == vs[1..] + [v];
      MergeAllAppend(Merge(menu, vs[0]), vs[1..], v);
    }
  }

  lemma {:induction false} MergeAllLatest(storeId: string, menu: Menu, seen: set<Version>, vs: seq<Version>)
    requires AllProper(storeId, seen + Elements(vs)) && LatestOf(menu, seen)
    ensures LatestOf(MergeAll(menu, vs), seen + Elements(vs))
    decreases |vs|
  {
    hide Stamped, Supersedes, AsText, Property;
    if vs == [] {
      assert seen + Elements(vs) == seen;
    } else {
      assert vs == [vs[0]] + vs[1..];
      assert seen + Elements(vs) == (seen + {vs[0]}) + Elements(vs[1..]);
      MergeLatest(storeId, menu, seen, vs[0]);
      MergeAllLatest(storeId, Merge(menu, vs[0]), seen + {vs[0]}, vs[1..]);
    }
  }

  function Elements(vs: seq<Version>): (s: set<Version>)
    ensures forall v :: v in s <==> v in vs
  {
    set v | v in vs
  }

  lemma StoredLatest(storeId: string, menu: Menu)
    requires ProperMenu(storeId, menu)
    ensures LatestOf(menu, Stored(menu)) && AllProper(storeId, Stored(menu))
  {}

  /** The menu after any deliveries depends only on which versions were stored or delivered:
      order, grouping and repetition do not matter. */
  lemma DeliveryOrderIrrelevant(storeId: string, m: Menu, n: Menu, vs: seq<Version>, ws: seq<Version>)
    requires ProperMenu(storeId, m) && ProperMenu(storeId, n)
    requires AllProper(storeId, Elements(vs)) && AllProper(storeId, Elements(ws))
    requires Stored(m) + Elements(vs) == Stored(n) + Elements(ws)
    ensures MergeAll(m, vs) == MergeAll(n, ws)
  {
    StoredLatest(storeId, m);
    StoredLatest(storeId, n);
    var all := Stored(m) + Elements(vs);
    MergeAllLatest(storeId, m, Stored(m), vs);
    MergeAllLatest(storeId, n, Stored(n), ws);
    LatestUnique(storeId, MergeAll(m, vs), MergeAll(n, ws), all);
  }

  /** The menu after a queued event has brought one version. */
  function Deliver(storeId: string, menu: Menu, v: Version): Menu {
    match ApplyVersion(storeId, menu, v.key, v.payload, true)
    case Ok(applied) => applied.0
    case Err(_) => menu
  }

  /** The database reads the timestamp of the version and Date.parse does not. */
  predicate Unordered(storeId: string, v: Version) {
    Scoped(storeId, v) && Recordable(v.payload) && !Stamped(v.payload)
  }

  /** The order in which two versions arrive matters exactly when both are of a record that is not stored
      yet and neither has a timestamp that Date.parse reads: the first is stored and the second fails. */
  lemma DeliveryOrderMattersIff(storeId: string, menu: Menu, v: Version, w: Version)
    ensures Deliver(storeId, Deliver(storeId, menu, v), w) != Deliver(storeId, Deliver(storeId, menu, w), v)
            <==> v != w && v.key == w.key && v.key !in menu && Unordered(storeId, v) && Unordered(storeId, w)
  {
    hide Deliver, Unordered, Kept;
    DeliverAt(storeId, menu, v);
    DeliverAt(storeId, menu, w);
    DeliverAt(storeId, Deliver(storeId, menu, v), w);
    DeliverAt(storeId, Deliver(storeId, menu, w), v);
    LaterOfBoth(storeId, Lookup(menu, v.key), v, w);
    SameMenus(Deliver(storeId, Deliver(storeId, menu, v), w), Deliver(storeId, Deliver(storeId, menu, w), v));
  }

  lemma SameMenus(m: Menu, n: Menu)
    ensures m == n <==> forall k :: Lookup(m, k) == Lookup(n, k)
  {
    if forall k :: Lookup(m, k) == Lookup(n, k) {
      forall k | k in m ensures k in n && n[k] == m[k] { assert Lookup(m, k) == Lookup(n, k); }
      forall k | k in n ensures k in m { assert Lookup(m, k) == Lookup(n, k); }
    }
  }

  /** What is stored under the key of `v` once it has arrived. */
  function Kept(storeId: string, held: Option<Json>, v: Version): Option<Json> {
    if Scoped(storeId, v) && Recordable(v.payload) && Compare(v.payload, held) == Ok(Newer) then Some(v.payload) else held
  }

  lemma DeliverAt(storeId: string, menu: Menu, v: Version)
    ensures forall k :: Lookup(Deliver(storeId, menu, v), k) == if k == v.key then Kept(storeId, Lookup(menu, k), v) else Lookup(menu, k)
  {
    hide Compare, Recordable, AsText;
  }

  lemma ComparesNewer(a: Json, held: Option<Json>)
    ensures Compare(a, held) == Ok(Newer) <==> held.None? || (Stamped(a) && (!Stamped(held.value) || Supersedes(a, held.value)))
  {}

  lemma LaterOfBoth(storeId: string, held: Option<Json>, v: Version, w: Version)
    ensures v.key == w.key ==>
              (Kept(storeId, Kept(storeId, held, v), w) != Kept(storeId, Kept(storeId, held, w), v)
               <==> v != w && held.None? && Unordered(storeId, v) && Unordered(storeId, w))
  {
    var a, b := v.payload, w.payload;
    hide Scoped, Stamped, Supersedes, Compare, AsText;
    ComparesNewer(a, held);
    ComparesNewer(b, held);
    ComparesNewer(a, Some(b));
    ComparesNewer(b, Some(a));
    if Stamped(a) && Stamped(b) {
      CompareTrichotomy(a, b);
      if held.Some? && Stamped(held.value) {
        LaterOfThree(a, b, held.value);
      }
    }
  }

  lemma LaterOfThree(a: Json, b: Json, c: Json)
    requires Stamped(a) && Stamped(b) && Stamped(c)
    ensures Supersedes(a, b) && Supersedes(b, c) ==> Supersedes(a, c)
    ensures Supersedes(b, a) && Supersedes(a, c) ==> Supersedes(b, c)
  {
    if Supersedes(a, b) && Supersedes(b, c) { SupersedesTransitive(a, b, c); }
    if Supersedes(b, a) && Supersedes(a, c) { SupersedesTransitive(b, a, c); }
  }

  function Dish(name: string, updatedAt: string): Version {
    Version(Key(Items, "soup"), Object(map["id" := String("soup"), "branchId" := String("main"), "name" := String(name), "updatedAt" := String(updatedAt)]))
  }

  /** Two such versions: of a soup stamped at infinity. */
  lemma InfiniteVersionsCollide()
    ensures var v, w := Dish("Soup", "infinity"), Dish("Broth", "infinity");
            Deliver("main", Deliver("main", map[], v), w) != Deliver("main", Deliver("main", map[], w), v)
  {
    var v, w := Dish("Soup", "infinity"), Dish("Broth", "infinity");
    assert v.payload.fields["name"] != w.payload.fields["name"];
    DishUnordered("Soup");
    DishUnordered("Broth");
    hide Unordered;
    DeliveryOrderMattersIff("main", map[], v, w);
  }

  lemma DishUnordered(name: string)
    ensures Unordered("main", Dish(name, "infinity"))
  {
    assert |"infinity"| == 8 && "infinity" in TIME_WORDS;
  }

  /** Dishes stamped in 2025 and 2026, the second of which is the later version. */
  lemma DishesOfTwoYears(name: string, other: string)
    ensures var older, newer := Dish(name, NewYear("2025")), Dish(other, NewYear("2026"));
            older.key == newer.key && Proper("main", older) && Proper("main", newer) && Supersedes(newer.payload, older.payload)
  {
    hide Dish, Property, AsText, ParseInstant, CanonicalJson, NewYear, Digits, DigitsAt;
    YearDigits();
    NewYearInstant("2025");
    NewYearInstant("2026");
    DishFields(name, NewYear("2025"));
    DishFields(other, NewYear("2026"));
  }

  lemma DishFields(name: string, updatedAt: string)
    ensures var v := Dish(name, updatedAt);
            v.key == Key(Items, "soup") && Scoped("main", v) && Instant(v.payload) == ParseInstant(updatedAt)
  {}

  lemma YearDigits()
    ensures DigitsAt("2025", 0, 4) && Digits("2025", 0, 4) == 2025
    ensures DigitsAt("2026", 0, 4) && Digits("2026", 0, 4) == 2026
  {
    assert Digits("2025", 0, 2) == 20 && Digits("2026", 0, 2) == 20;
    assert Digits("2025", 0, 3) == 202 && Digits("2026", 0, 3) == 202;
  }

  /******* Joining two menus *******/

  function Later(a: Json, b: Json): Json {
    if Supersedes(b, a) then b else a
  }

  function JoinMenus(m: Menu, n: Menu): Menu {
    map k | k in m.Keys + n.Keys ::
      if k !in n then m[k] else if k !in m then n[k] else Later(m[k], n[k])
  }

  lemma JoinLatest(storeId: string, m: Menu, vs: set<Version>, n: Menu, ws: set<Version>)
    requires AllProper(storeId, vs + ws) && LatestOf(m, vs) && LatestOf(n, ws)
    ensures LatestOf(JoinMenus(m, n), vs + ws)
  {
    hide Stamped, Supersedes, AsText, Property;
    var j := JoinMenus(m, n);
    forall v | v in Stored(j) ensures v in vs + ws {
      assert v in Stored(m) || v in Stored(n);
    }
    forall v | v in vs + ws ensures Covers(j, v) {
      var k := v.key;
      assert k in m ==> Version(k, m[k]) in Stored(m) && Proper(storeId, Version(k, m[k]));
      assert k in n ==> Version(k, n[k]) in Stored(n) && Proper(storeId, Version(k, n[k]));
      assert Proper(storeId, v);
      assert v in vs ==> Covers(m, v);
      assert v in ws ==> Covers(n, v);
      if k in m && k in n {
        CompareTrichotomy(m[k], n[k]);
        if v in vs { AtLeastTransitive(j[k], m[k], v.payload); } else { AtLeastTransitive(j[k], n[k], v.payload); }
      }
    }
  }

  lemma JoinProper(storeId: string, m: Menu, n: Menu)
    requires ProperMenu(storeId, m) && ProperMenu(storeId, n)
    ensures ProperMenu(storeId, JoinMenus(m, n))
    ensures LatestOf(JoinMenus(m, n), Stored(m) + Stored(n)) && AllProper(storeId, Stored(m) + Stored(n))
  {
    StoredLatest(storeId, m);
    StoredLatest(storeId, n);
    JoinLatest(storeId, m, Stored(m), n, Stored(n));
    forall k | k in JoinMenus(m, n) ensures Proper(storeId, Version(k, JoinMenus(m, n)[k])) {
      assert Version(k, JoinMenus(m, n)[k]) in Stored(JoinMenus(m, n));
    }
  }

  /** Joining menus is a semilattice. */
  lemma JoinLaws(storeId: string, m: Menu, n: Menu, o: Menu)
    requires ProperMenu(storeId, m) && ProperMenu(storeId, n) && ProperMenu(storeId, o)
    ensures JoinMenus(m, m) == m
    ensures JoinMenus(m, n) == JoinMenus(n, m)
    ensures JoinMenus(JoinMenus(m, n), o) == JoinMenus(m, JoinMenus(n, o))
  {
    hide Proper, ProperMenu, LatestOf, JoinMenus;
    JoinProper(storeId, m, m);
    StoredLatest(storeId, m);
    assert Stored(m) + Stored(m) == Stored(m);
    LatestUnique(storeId, JoinMenus(m, m), m, Stored(m));

    JoinProper(storeId, m, n);
    JoinProper(storeId, n, m);
    assert Stored(m) + Stored(n) == Stored(n) + Stored(m);
    LatestUnique(storeId, JoinMenus(m, n), JoinMenus(n, m), Stored(m) + Stored(n));

    StoredLatest(storeId, o);
    JoinProper(storeId, n, o);
    JoinLatest(storeId, JoinMenus(m, n), Stored(m) + Stored(n), o, Stored(o));
    JoinLatest(storeId, m, Stored(m), JoinMenus(n, o), Stored(n) + Stored(o));
    assert Stored(m) + Stored(n) + Stored(o) == Stored(m) + (Stored(n) + Stored(o));
    LatestUnique(storeId, JoinMenus(JoinMenus(m, n), o), JoinMenus(m, JoinMenus(n, o)), Stored(m) + Stored(n) + Stored(o));
  }

  /** Delivering all records of one menu to another, in any order, joins them. */
  lemma MergeAllIsJoin(storeId: string, m: Menu, n: Menu, vs: seq<Version>)
    requires ProperMenu(storeId, m) && ProperMenu(storeId, n) && Elements(vs) == Stored(n)
    ensures MergeAll(m, vs) == JoinMenus(m, n)
  {
    StoredLatest(storeId, m);
    StoredLatest(storeId, n);
    JoinProper(storeId, m, n);
    MergeAllLatest(storeId, m, Stored(m), vs);
    LatestUnique(storeId, MergeAll(m, vs), JoinMenus(m, n), Stored(m) + Stored(n));
  }

  /** A stored record, a tombstone included, stays as it is while no later version arrives. */
  lemma {:induction false} NoRevival(storeId: string, menu: Menu, key: Key, vs: seq<Version>)
    requires key in menu && Stamped(menu[key]) && AllProper(storeId, Elements(vs))
    requires forall v | v in vs && v.key == key :: AtLeast(menu[key], v.payload)
    ensures key in MergeAll(menu, vs) && MergeAll(menu, vs)[key] == menu[key]
    decreases |vs|
  {
    hide Stamped, Supersedes, AsText, Property;
    if vs != [] {
      assert vs[0] in vs && Proper(storeId, vs[0]);
      if vs[0].key == key {
        CompareTrichotomy(menu[key], vs[0].payload);
      }
      var next := Merge(menu, vs[0]);
      assert next[key] == menu[key];
      forall v | v in vs[1..] ensures v in vs {}
      NoRevival(storeId, next, key, vs[1..]);
    }
  }
}
