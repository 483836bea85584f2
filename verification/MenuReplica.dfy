/** One menu store and the entry points of the synchronisation service that change it
    (backend/sync/service.ts, and the menu round of backend/sync/worker.ts). */
module MenuReplica {
  import opened Results
  import opened Json
  import opened MenuVersion
  import opened MenuMerge

  /******* Snapshots *******/

  datatype MenuRecord = MenuRecord(entity: Entity, payload: Json)

  const MAX_SNAPSHOT_RECORDS := 5000

  function RecordKey(r: MenuRecord): Key {
    Key(r.entity, AsText(Property(r.payload, "id")))
  }

  predicate AcceptableRecord(storeId: string, r: MenuRecord) {
    RecordKey(r).id != "" && AsText(Property(r.payload, "branchId")) == storeId && Stamped(r.payload)
  }

  predicate DistinctKeys(records: seq<MenuRecord>) {
    forall i, j | 0 <= i < j < |records| :: RecordKey(records[i]) != RecordKey(records[j])
  }

  predicate ValidSnapshot(storeId: string, records: seq<MenuRecord>) {
    && |records| <= 5000
    && (forall r | r in records :: AcceptableRecord(storeId, r))
    && DistinctKeys(records)
  }

  method ValidateMenuSnapshot(storeId: string, records: seq<MenuRecord>) returns (r: Result<()>)
    ensures r.Ok? <==> ValidSnapshot(storeId, records)
  {
    hide Stamped, Property, AsText;
    if |records| > MAX_SNAPSHOT_RECORDS {
      return Err("Menu snapshot must contain at most 5000 records.");
    }
    var identities: set<Key> := {};
    for i := 0 to |records|
      invariant forall j | 0 <= j < i :: AcceptableRecord(storeId, records[j])
      invariant forall k :: k in identities <==> exists j :: 0 <= j < i && RecordKey(records[j]) == k
      invariant forall j, l | 0 <= j < l < i :: RecordKey(records[j]) != RecordKey(records[l])
    {
      var record := records[i];
      assert record in records;
      if RecordKey(record).id == "" || AsText(Property(record.payload, "branchId")) != storeId {
        return Err("Menu snapshot record does not match the requested store.");
      }
      if !Stamped(record.payload) {
        return Err("Menu snapshot record requires a valid updatedAt timestamp.");
      }
      if RecordKey(record) in identities {
        return Err("Menu snapshot contains duplicate records.");
      }
      identities := identities + {RecordKey(record)};
    }
    r := Ok(());
  }

  /** The menu a list of records describes; a later record of a key overrides an earlier one. */
  function SnapshotMap(records: seq<MenuRecord>): Menu {
    if records == [] then map[]
    else
      var last := records[|records| - 1];
      SnapshotMap(records[..|records| - 1])[RecordKey(last) := last.payload]
  }

  lemma {:induction false} SnapshotMapHas(records: seq<MenuRecord>)
    requires DistinctKeys(records)
    ensures forall r | r in records :: RecordKey(r) in SnapshotMap(records) && SnapshotMap(records)[RecordKey(r)] == r.payload
    ensures forall k | k in SnapshotMap(records) ::
              exists r :: r in records && RecordKey(r) == k && r.payload == SnapshotMap(records)[k]
  {
    hide RecordKey;
    if records != [] {
      var n := |records| - 1;
      SnapshotMapHas(records[..n]);
      assert records == records[..n] + [records[n]];
      forall k | k in SnapshotMap(records)
        ensures exists r :: r in records && RecordKey(r) == k && r.payload == SnapshotMap(records)[k]
      {
        if k == RecordKey(records[n]) {
          assert records[n] in records;
        } else {
          assert k in SnapshotMap(records[..n]);
          var r :| r in records[..n] && RecordKey(r) == k && r.payload == SnapshotMap(records[..n])[k];
          assert r in records;
        }
      }
    }
  }

  /** Rearranging records with distinct keys does not change the menu they describe. */
  lemma SnapshotMapPermutation(records: seq<MenuRecord>, ordered: seq<MenuRecord>)
    requires multiset(records) == multiset(ordered) && DistinctKeys(records)
    ensures DistinctKeys(ordered) && SnapshotMap(ordered) == SnapshotMap(records)
    ensures forall r :: r in ordered <==> r in records
  {
    hide RecordKey, SnapshotMap;
    SameElements(records, ordered);
    forall i, j | 0 <= i < j < |ordered| ensures RecordKey(ordered[i]) != RecordKey(ordered[j]) {
      assert ordered[i] in records && ordered[j] in records;
      if ordered[i] == ordered[j] {
        TwiceInMultiset(ordered, i, j);
        OnceInMultiset(records, ordered[i]);
      }
    }
    SnapshotMapHas(records);
    SnapshotMapHas(ordered);
  }

  lemma SameElements(records: seq<MenuRecord>, ordered: seq<MenuRecord>)
    requires multiset(records) == multiset(ordered)
    ensures forall r :: r in ordered <==> r in records
  {
    forall r ensures r in ordered <==> r in records {
      assert r in ordered <==> r in multiset(ordered);
      assert r in records <==> r in multiset(records);
    }
  }

  lemma TwiceInMultiset(records: seq<MenuRecord>, i: nat, j: nat)
    requires i < j < |records| && records[i] == records[j]
    ensures multiset(records)[records[i]] >= 2
  {
    assert records == records[..j] + records[j..];
    assert records[i] in records[..j] && records[j] in records[j..];
  }

  lemma {:induction false} OnceInMultiset(records: seq<MenuRecord>, r: MenuRecord)
    requires DistinctKeys(records)
    ensures multiset(records)[r] <= 1
  {
    hide RecordKey;
    if records != [] {
      var n := |records| - 1;
      assert records == records[..n] + [records[n]];
      OnceInMultiset(records[..n], r);
      if r == records[n] {
        assert r !in records[..n];
      }
    }
  }

  /** The order in which reconciliation visits a snapshot: ascending by identity text. */
  function IdentityText(r: MenuRecord): string {
    (if r.entity == Categories then "menu_categories:" else "menu_items:") + RecordKey(r).id
  }

  /** The identity text names the record: its table and its id. */
  lemma IdentityTextNames(r: MenuRecord, q: MenuRecord)
    ensures IdentityText(r) == IdentityText(q) <==> RecordKey(r) == RecordKey(q)
  {
    hide RecordKey;
    var x, y := IdentityText(r), IdentityText(q);
    assert RecordKey(r).entity == r.entity && RecordKey(q).entity == q.entity by { KeyEntity(r); KeyEntity(q); }
    assert x[5] == (if r.entity == Categories then 'c' else 'i') && y[5] == (if q.entity == Categories then 'c' else 'i');
    var n := if r.entity == Categories then 16 else 11;
    assert x[n..] == RecordKey(r).id && (r.entity == q.entity ==> y[n..] == RecordKey(q).id);
  }

  lemma KeyEntity(r: MenuRecord)
    ensures RecordKey(r).entity == r.entity
  {}

  method SortRecords(records: seq<MenuRecord>) returns (ordered: seq<MenuRecord>)
    ensures multiset(ordered) == multiset(records)
    ensures forall i, j | 0 <= i < j < |ordered| :: !StringLess(IdentityText(ordered[j]), IdentityText(ordered[i]))
  {
    hide IdentityText, StringLess;
    ordered := [];
    for i := 0 to |records|
      invariant multiset(ordered) == multiset(records[..i])
      invariant forall k, j | 0 <= k < j < |ordered| :: !StringLess(IdentityText(ordered[j]), IdentityText(ordered[k]))
    {
      var at := |ordered|;
      while at > 0 && StringLess(IdentityText(records[i]), IdentityText(ordered[at - 1]))
        invariant 0 <= at <= |ordered|
        invariant forall j | at <= j < |ordered| :: StringLess(IdentityText(records[i]), IdentityText(ordered[j]))
      {
        at := at - 1;
      }
      InsertKeepsOrder(ordered, at, records[i]);
      InsertKeepsElements(ordered, at, records[i]);
      ordered := ordered[..at] + [records[i]] + ordered[at..];
      assert records[..i + 1] == records[..i] + [records[i]];
    }
    assert records[..|records|] == records;
  }

  lemma InsertKeepsElements(ordered: seq<MenuRecord>, at: nat, r: MenuRecord)
    requires at <= |ordered|
    ensures multiset(ordered[..at] + [r] + ordered[at..]) == multiset(ordered) + multiset{r}
  {
    assert ordered == ordered[..at] + ordered[at..];
  }

  lemma InsertKeepsOrder(ordered: seq<MenuRecord>, at: nat, r: MenuRecord)
    requires at <= |ordered|
    requires forall k, j | 0 <= k < j < |ordered| :: !StringLess(IdentityText(ordered[j]), IdentityText(ordered[k]))
    requires forall j | at <= j < |ordered| :: StringLess(IdentityText(r), IdentityText(ordered[j]))
    requires at > 0 ==> !StringLess(IdentityText(r), IdentityText(ordered[at - 1]))
    ensures var next := ordered[..at] + [r] + ordered[at..];
            forall k, j | 0 <= k < j < |next| :: !StringLess(IdentityText(next[j]), IdentityText(next[k]))
  {
    hide IdentityText, StringLess;
    var next := ordered[..at] + [r] + ordered[at..];
    forall k, j | 0 <= k < j < |next| ensures !StringLess(IdentityText(next[j]), IdentityText(next[k])) {
      if j == at {
        if StringLess(IdentityText(r), IdentityText(ordered[k])) {
          StringLessTotal(IdentityText(ordered[k]), IdentityText(ordered[at - 1]));
          if k < at - 1 && StringLess(IdentityText(ordered[k]), IdentityText(ordered[at - 1])) {
            StringLessTransitive(IdentityText(r), IdentityText(ordered[k]), IdentityText(ordered[at - 1]));
          }
        }
      } else if k == at {
        StringLessTotal(IdentityText(r), IdentityText(ordered[j - 1]));
      }
    }
  }

  /******* Outgoing batches and incoming events *******/

  datatype SyncEvent = SyncEvent(eventId: string, storeId: string, key: Key, isDelete: bool, payload: Json, occurredAt: string)

  /** A physical delete arrives as the tombstone it stands for. */
  function EventPayload(e: SyncEvent): Json {
    if !e.isDelete then e.payload
    else
      var fields := if e.payload.Object? then e.payload.fields else map[];
      Object(fields["deletedAt" := String(e.occurredAt)]["updatedAt" := String(e.occurredAt)]["updatedSource" := String("LOCAL_POS")])
  }

  /** A physical delete is stored as a record that was deleted and updated when it occurred, by the local
      system, and is otherwise as it was sent; any other event is stored as it was sent. */
  lemma DeleteIsTombstone(e: SyncEvent)
    ensures !e.isDelete ==> EventPayload(e) == e.payload
    ensures e.isDelete ==>
              && Property(EventPayload(e), "deletedAt") == Property(EventPayload(e), "updatedAt") == String(e.occurredAt)
              && Property(EventPayload(e), "updatedSource") == String("LOCAL_POS")
              && forall name | name !in {"deletedAt", "updatedAt", "updatedSource"} :: Property(EventPayload(e), name) == Property(e.payload, name)
  {}

  function EventVersion(e: SyncEvent): Version {
    Version(e.key, EventPayload(e))
  }

  datatype CloudState = CloudState(menu: Menu, processed: set<string>)

  /** A batch in one transaction: an event id is claimed before its version is applied, and an
      error anywhere undoes everything. */
  function Receive(s: CloudState, events: seq<SyncEvent>): Result<CloudState> {
    if events == [] then Ok(s)
    else
      var t :- Receive(s, events[..|events| - 1]);
      var e := events[|events| - 1];
      if e.eventId in t.processed then Ok(t)
      else
        var applied :- ApplyVersion(e.storeId, t.menu, e.key, EventPayload(e), true);
        Ok(CloudState(applied.0, t.processed + {e.eventId}))
  }

  /** The events of a batch that are not yet claimed, each id once. */
  function Unclaimed(processed: set<string>, events: seq<SyncEvent>): seq<SyncEvent> {
    if events == [] then []
    else
      var before := Unclaimed(processed, events[..|events| - 1]);
      var e := events[|events| - 1];
      if e.eventId in processed || e.eventId in Ids(before) then before else before + [e]
  }

  function Ids(events: seq<SyncEvent>): (ids: set<string>)
    ensures forall e | e in events :: e.eventId in ids
    ensures forall id | id in ids :: exists e :: e in events && e.eventId == id
  {
    set e | e in events :: e.eventId
  }

  function Versions(events: seq<SyncEvent>): (vs: seq<Version>)
    ensures |vs| == |events| && forall i | 0 <= i < |vs| :: vs[i] == EventVersion(events[i])
  {
    seq(|events|, i requires 0 <= i < |events| => EventVersion(events[i]))
  }

  /** The unclaimed events carry exactly the ids of the batch that were not processed before. */
  lemma {:induction false} UnclaimedIds(processed: set<string>, events: seq<SyncEvent>)
    ensures Ids(Unclaimed(processed, events)) == Ids(events) - processed
    ensures forall e | e in Unclaimed(processed, events) :: e in events && e.eventId !in processed
  {
    if events != [] {
      var n := |events| - 1;
      assert events == events[..n] + [events[n]];
      UnclaimedIds(processed, events[..n]);
      assert Ids(events) == Ids(events[..n]) + {events[n].eventId};
      var before := Unclaimed(processed, events[..n]);
      assert Ids(before + [events[n]]) == Ids(before) + {events[n].eventId};
    }
  }

  lemma UnclaimedStep(processed: set<string>, events: seq<SyncEvent>)
    requires events != []
    ensures var before, e := events[..|events| - 1], events[|events| - 1];
            var claimed := e.eventId in processed + Ids(before);
            && Unclaimed(processed, events) == Unclaimed(processed, before) + (if claimed then [] else [e])
            && processed + Ids(events) == processed + Ids(before) + {e.eventId}
            && before + [e] == events
  {
    var before, e := events[..|events| - 1], events[|events| - 1];
    assert before + [e] == events;
    UnclaimedIds(processed, before);
    assert Ids(events) == Ids(before) + {e.eventId};
  }

  lemma VersionsAppend(events: seq<SyncEvent>, e: SyncEvent)
    ensures Versions(events + [e]) == Versions(events) + [EventVersion(e)]
  {}

  /** On proper events a batch never fails; it merges each event that was not processed before,
      exactly once, so a repeated batch changes nothing. */
  lemma {:induction false} ReceiveMerges(storeId: string, s: CloudState, events: seq<SyncEvent>)
    requires forall e | e in events :: e.storeId == storeId && Proper(storeId, EventVersion(e))
    ensures Receive(s, events) == Ok(CloudState(MergeAll(s.menu, Versions(Unclaimed(s.processed, events))),
                                                s.processed + Ids(events)))
  {
    hide Proper, EventPayload, MergeAll, Merge, ApplyVersion, Receive, Unclaimed, Ids, Versions;
    if events != [] {
      var n := |events| - 1;
      var before, e := events[..n], events[n];
      UnclaimedStep(s.processed, events);
      ReceiveMerges(storeId, s, before);
      assert events[..n + 1] == events;
      ReceiveStep(s, events, n);
      if e.eventId !in s.processed + Ids(before) {
        var unclaimed := Unclaimed(s.processed, before);
        ApplyIsMerge(storeId, MergeAll(s.menu, Versions(unclaimed)), EventVersion(e), true);
        MergeAllAppend(s.menu, Versions(unclaimed), EventVersion(e));
        VersionsAppend(unclaimed, e);
      } else {
        assert s.processed + Ids(before) + {e.eventId} == s.processed + Ids(before);
        assert Unclaimed(s.processed, events) == Unclaimed(s.processed, before);
      }
    } else {
      ReceiveNothing(s);
    }
  }

  lemma ReceiveNothing(s: CloudState)
    ensures Receive(s, []) == Ok(s) && s.processed + Ids([]) == s.processed
    ensures MergeAll(s.menu, Versions(Unclaimed(s.processed, []))) == s.menu
  {
    assert Versions([]) == [];
  }

  /** Claimed events are skipped altogether. */
  lemma {:induction false} ReceiveClaimed(s: CloudState, events: seq<SyncEvent>)
    requires Ids(events) <= s.processed
    ensures Receive(s, events) == Ok(s)
  {
    hide EventPayload;
    if events != [] {
      var n := |events| - 1;
      assert events == events[..n] + [events[n]];
      assert Ids(events[..n]) <= Ids(events);
      ReceiveClaimed(s, events[..n]);
    }
  }

  /******* Batches that mirror other tables too *******/

  /** The tables whose rows are only copied. */
  const COPIED_TABLES: set<string> := {"branches", "roles", "users", "tables", "table_sessions", "orders", "order_items", "bills", "bill_splits",
                                       "payments", "inventory_items", "stock_ledger", "online_orders", "reservations"}

  /** An event of a batch: a menu version, or a row of another table, which the database may refuse. */
  datatype BatchEvent =
    | MenuChange(event: SyncEvent)
    | RowChange(id: string, table: string, entityId: string, isDelete: bool, row: Json, storable: bool)

  function IdOf(b: BatchEvent): string {
    match b
    case MenuChange(e) => e.eventId
    case RowChange(id, _, _, _, _, _) => id
  }

  function BatchIds(batch: seq<BatchEvent>): (ids: set<string>)
    ensures forall b | b in batch :: IdOf(b) in ids
    ensures forall id | id in ids :: exists b :: b in batch && IdOf(b) == id
  {
    set b | b in batch :: IdOf(b)
  }

  type Rows = map<(string, string), Json>

  datatype Mirror = Mirror(menu: Menu, processed: set<string>, rows: Rows)

  datatype Received = Received(mirror: Mirror, outcomes: map<string, Outcome>)

  /** The rows after a row event: the row is removed, replaced or inserted. */
  function CopyRow(rows: Rows, b: BatchEvent): Rows {
    match b
    case MenuChange(_) => rows
    case RowChange(_, table, entityId, isDelete, row, _) => if isDelete then rows - {(table, entityId)} else rows[(table, entityId) := row]
  }

  /** One event: its id is claimed, then it is applied. Rows of other tables have no outcome. */
  function ReceiveOne(s: Mirror, b: BatchEvent): Result<(Mirror, Option<Outcome>)> {
    if b.RowChange? && b.table !in COPIED_TABLES then Err("Unsupported synchronized entity.")
    else if IdOf(b) in s.processed then Ok((s, Some(AlreadyProcessed)))
    else
      match b
      case MenuChange(e) =>
        var applied :- ApplyVersion(e.storeId, s.menu, e.key, EventPayload(e), true);
        Ok((s.(menu := applied.0, processed := s.processed + {e.eventId}), Some(applied.1)))
      case RowChange(id, _, _, _, _, storable) =>
        if !storable then Err("The row was refused.")
        else Ok((s.(rows := CopyRow(s.rows, b), processed := s.processed + {id}), None))
  }

  function ReceiveBatch(s: Mirror, batch: seq<BatchEvent>): Result<Received> {
    if batch == [] then Ok(Received(s, map[]))
    else
      var earlier :- ReceiveBatch(s, batch[..|batch| - 1]);
      var last := batch[|batch| - 1];
      var one :- ReceiveOne(earlier.mirror, last);
      Ok(Received(one.0, if one.1.Some? then earlier.outcomes[IdOf(last) := one.1.value] else earlier.outcomes))
  }

  /** The events of a batch that are not processed yet, each id once. */
  function New(processed: set<string>, batch: seq<BatchEvent>): seq<BatchEvent> {
    if batch == [] then []
    else
      var earlier, last := New(processed, batch[..|batch| - 1]), batch[|batch| - 1];
      if IdOf(last) in processed + BatchIds(batch[..|batch| - 1]) then earlier else earlier + [last]
  }

  function MenuEvents(batch: seq<BatchEvent>): seq<SyncEvent> {
    if batch == [] then []
    else
      var earlier, last := MenuEvents(batch[..|batch| - 1]), batch[|batch| - 1];
      if last.MenuChange? then earlier + [last.event] else earlier
  }

  function CopyRows(rows: Rows, batch: seq<BatchEvent>): Rows {
    if batch == [] then rows else CopyRow(CopyRows(rows, batch[..|batch| - 1]), batch[|batch| - 1])
  }

  /** The event is one that every check lets through. */
  predicate WellFormedEvent(storeId: string, b: BatchEvent) {
    match b
    case MenuChange(e) => e.storeId == storeId && Proper(storeId, EventVersion(e))
    case RowChange(_, table, _, _, _, storable) => table in COPIED_TABLES && storable
  }

  lemma BatchLast(batch: seq<BatchEvent>, processed: set<string>)
    requires batch != []
    ensures var init, last := batch[..|batch| - 1], batch[|batch| - 1];
            && BatchIds(batch) == BatchIds(init) + {IdOf(last)} && processed + BatchIds(batch) == processed + BatchIds(init) + {IdOf(last)}
            && (IdOf(last) in processed + BatchIds(init) ==> processed + BatchIds(batch) == processed + BatchIds(init))
  {
    assert batch == batch[..|batch| - 1] + [batch[|batch| - 1]];
  }

  lemma MenuEventsAppend(batch: seq<BatchEvent>, b: BatchEvent, rows: Rows)
    ensures MenuEvents(batch + [b]) == MenuEvents(batch) + if b.MenuChange? then [b.event] else []
    ensures CopyRows(rows, batch + [b]) == CopyRow(CopyRows(rows, batch), b)
  {
    assert (batch + [b])[..|batch|] == batch;
  }

  lemma BatchStep(s: Mirror, batch: seq<BatchEvent>)
    requires batch != [] && ReceiveBatch(s, batch[..|batch| - 1]).Ok?
    ensures var earlier, last := ReceiveBatch(s, batch[..|batch| - 1]).value, batch[|batch| - 1];
            match ReceiveOne(earlier.mirror, last)
            case Ok(one) => ReceiveBatch(s, batch) == Ok(Received(one.0, if one.1.Some? then earlier.outcomes[IdOf(last) := one.1.value] else earlier.outcomes))
            case Err(_) => ReceiveBatch(s, batch).Err?
  {
    hide ReceiveOne;
  }

  lemma OneClaims(s: Mirror, b: BatchEvent)
    requires ReceiveOne(s, b).Ok?
    ensures var one := ReceiveOne(s, b).value;
            && one.0.processed == s.processed + {IdOf(b)} && (b.MenuChange? || IdOf(b) in s.processed ==> one.1.Some?)
            && (IdOf(b) in s.processed ==> one.1 == Some(AlreadyProcessed))
  {
    hide ApplyVersion, EventPayload, COPIED_TABLES, CopyRow;
  }

  /** One well formed event that is not processed yet. */
  lemma ReceivesOne(storeId: string, s: Mirror, b: BatchEvent)
    requires WellFormedEvent(storeId, b) && IdOf(b) !in s.processed
    ensures var r := ReceiveOne(s, b);
            && r.Ok? && r.value.0.rows == CopyRow(s.rows, b) && r.value.0.processed == s.processed + {IdOf(b)}
            && r.value.0.menu == if b.MenuChange? then Merge(s.menu, EventVersion(b.event)) else s.menu
  {
    hide Proper, EventPayload, Merge, ApplyVersion, COPIED_TABLES;
    if b.MenuChange? {
      ApplyIsMerge(storeId, s.menu, EventVersion(b.event), true);
    }
  }

  /** A batch of well formed events never fails. It merges the menu versions and copies the rows of exactly
      the events that were not processed before, each once and in order, and claims all ids. */
  lemma {:induction false} BatchMerges(storeId: string, s: Mirror, batch: seq<BatchEvent>)
    requires forall b | b in batch :: WellFormedEvent(storeId, b)
    ensures ReceiveBatch(s, batch).Ok?
    ensures ReceiveBatch(s, batch).value.mirror ==
            Mirror(MergeAll(s.menu, Versions(MenuEvents(New(s.processed, batch)))), s.processed + BatchIds(batch), CopyRows(s.rows, New(s.processed, batch)))
  {
    hide WellFormedEvent, ReceiveOne, MergeAll, Merge, Versions, BatchIds, CopyRow, EventPayload, IdOf, EventVersion;
    if batch == [] {
      NothingReceived(s);
    } else {
      hide ReceiveBatch, MenuEvents, CopyRows;
      var n := |batch| - 1;
      var init, last := batch[..n], batch[n];
      assert batch == init + [last];
      BatchMerges(storeId, s, init);
      BatchLast(batch, s.processed);
      BatchStep(s, batch);
      var added := New(s.processed, init);
      if IdOf(last) in s.processed + BatchIds(init) {
        SkipsOne(storeId, ReceiveBatch(s, init).value.mirror, last);
      } else {
        ReceivesOne(storeId, ReceiveBatch(s, init).value.mirror, last);
        MenuEventsAppend(added, last, s.rows);
        if last.MenuChange? {
          MergeAllAppend(s.menu, Versions(MenuEvents(added)), EventVersion(last.event));
          VersionsAppend(MenuEvents(added), last.event);
        }
      }
    }
  }

  lemma NothingReceived(s: Mirror)
    ensures s.processed + BatchIds([]) == s.processed && Versions(MenuEvents([])) == [] && MergeAll(s.menu, []) == s.menu
  {}

  lemma SkipsOne(storeId: string, s: Mirror, b: BatchEvent)
    requires WellFormedEvent(storeId, b) && IdOf(b) in s.processed
    ensures ReceiveOne(s, b) == Ok((s, Some(AlreadyProcessed)))
  {
    hide COPIED_TABLES, Proper;
  }

  /** Of the events about one row the last one decides. */
  lemma {:induction false} LastDecides(rows: Rows, batch: seq<BatchEvent>, n: nat)
    requires n < |batch| && batch[n].RowChange?
    requires forall k | n < k < |batch| && batch[k].RowChange? :: (batch[k].table, batch[k].entityId) != (batch[n].table, batch[n].entityId)
    ensures var at, after := (batch[n].table, batch[n].entityId), CopyRows(rows, batch);
            if batch[n].isDelete then at !in after else at in after && after[at] == batch[n].row
    decreases |batch|
  {
    if n < |batch| - 1 {
      LastDecides(rows, batch[..|batch| - 1], n);
    }
  }

  lemma MenuOne(s: Mirror, b: BatchEvent, events: seq<SyncEvent>, start: CloudState)
    requires b.MenuChange? && Receive(start, events) == Ok(CloudState(s.menu, s.processed))
    ensures var r := Receive(start, events + [b.event]);
            && (ReceiveOne(s, b).Ok? <==> r.Ok?)
            && (r.Ok? ==> ReceiveOne(s, b).value.0 == Mirror(r.value.menu, r.value.processed, s.rows))
  {
    hide ApplyVersion, EventPayload;
    assert (events + [b.event])[..|events|] == events;
  }

  lemma StillFails(start: CloudState, events: seq<SyncEvent>, e: SyncEvent)
    ensures Receive(start, events).Err? ==> Receive(start, events + [e]).Err?
  {
    hide ApplyVersion;
    assert (events + [e])[..|events|] == events;
  }

  /** A batch of menu events is received as `Receive` says, and copies no row. */
  lemma {:induction false} MenuBatch(s: Mirror, batch: seq<BatchEvent>)
    requires forall b | b in batch :: b.MenuChange?
    ensures var r := Receive(CloudState(s.menu, s.processed), MenuEvents(batch));
            && (ReceiveBatch(s, batch).Ok? <==> r.Ok?)
            && (r.Ok? ==> ReceiveBatch(s, batch).value.mirror == Mirror(r.value.menu, r.value.processed, s.rows))
  {
    if batch != [] {
      var n := |batch| - 1;
      assert batch == batch[..n] + [batch[n]];
      MenuBatch(s, batch[..n]);
      MenuEventsAppend(batch[..n], batch[n], s.rows);
      StillFails(CloudState(s.menu, s.processed), MenuEvents(batch[..n]), batch[n].event);
      if ReceiveBatch(s, batch[..n]).Ok? {
        MenuOne(ReceiveBatch(s, batch[..n]).value.mirror, batch[n], MenuEvents(batch[..n]), CloudState(s.menu, s.processed));
      }
      hide Receive, ReceiveOne;
    }
  }

  datatype Receipt = Receipt(accepted: seq<string>, outcomes: map<string, Outcome>)

  /** All ids of a batch are claimed, menu events and events processed before have an outcome, and only an
      event that was not processed before can have been applied. */
  lemma {:induction false} OutcomesOfBatch(s: Mirror, batch: seq<BatchEvent>)
    requires ReceiveBatch(s, batch).Ok?
    ensures var r := ReceiveBatch(s, batch).value;
            && r.mirror.processed == s.processed + BatchIds(batch) && r.outcomes.Keys <= BatchIds(batch)
            && (forall b | b in batch && (b.MenuChange? || IdOf(b) in s.processed) :: IdOf(b) in r.outcomes)
            && forall id | id in r.outcomes && id in s.processed :: r.outcomes[id] == AlreadyProcessed
  {
    hide BatchIds, ReceiveOne, IdOf;
    if batch == [] {
      NothingReceived(s);
    } else {
      var n := |batch| - 1;
      assert batch == batch[..n] + [batch[n]];
      PrefixReceived(s, batch);
      OutcomesOfBatch(s, batch[..n]);
      BatchLast(batch, s.processed);
      BatchStep(s, batch);
      hide ReceiveBatch;
      OneClaims(ReceiveBatch(s, batch[..n]).value.mirror, batch[n]);
    }
  }

  lemma PrefixReceived(s: Mirror, batch: seq<BatchEvent>)
    requires batch != [] && ReceiveBatch(s, batch).Ok?
    ensures var r := ReceiveBatch(s, batch[..|batch| - 1]); r.Ok? && ReceiveOne(r.value.mirror, batch[|batch| - 1]).Ok?
  {
    hide ReceiveOne;
  }

  datatype IncomingEvent = IncomingEvent(eventId: string, storeId: string, entity: Entity, payload: Json)

  datatype LocalState = LocalState(menu: Menu, inbox: set<string>)

  /** An incoming menu event: claim the inbox row, then apply; the record id must be a string. */
  function Incorporate(s: LocalState, e: IncomingEvent): Result<(LocalState, Outcome)> {
    if e.eventId in s.inbox then Ok((s, AlreadyProcessed))
    else
      var id := Property(e.payload, "id");
      if !id.String? then Err("Menu sync identity does not match its payload.")
      else
        var applied :- ApplyVersion(e.storeId, s.menu, Key(e.entity, id.s), e.payload, true);
        Ok((LocalState(applied.0, s.inbox + {e.eventId}), applied.1))
  }

  /******* The store *******/

  datatype Reconciliation = Reconciliation(records: seq<MenuRecord>, applied: nat, ignored: nat)

  /** The keys under which a snapshot is later than what the menu stores. */
  function LaterKeys(menu: Menu, snapshot: Menu): set<Key> {
    set k | k in snapshot && IsLater(menu, k, snapshot[k])
  }

  predicate IsLater(menu: Menu, key: Key, payload: Json) {
    key !in menu || Supersedes(payload, menu[key])
  }

  class Replica {
    const storeId: string
    var menu: Menu
    var processed: set<string>
    var inbox: set<string>
    var rows: Rows

    /** Every stored record names its own key and this store. */
    ghost predicate Valid()
      reads this
    {
      ScopedMenu(storeId, menu)
    }

    constructor (storeId: string)
      ensures Valid() && this.storeId == storeId && menu == map[] && processed == {} && inbox == {} && rows == map[]
    {
      this.storeId := storeId;
      menu, processed, inbox, rows := map[], {}, {}, map[];
    }

    /** Check, compare, store and note the version; the transaction is undone if the note is refused. */
    method ApplyMenuVersion(key: Key, payload: Json, audited: bool) returns (r: Result<Outcome>)
      requires Valid()
      modifies this`menu
      ensures Valid()
      ensures match ApplyVersion(storeId, old(menu), key, payload, audited)
              case Ok((next, outcome)) => r == Ok(outcome) && menu == next
              case Err(message) => r == Err(message) && menu == old(menu)
      ensures Proper(storeId, Version(key, payload)) ==> r.Ok? && menu == Merge(old(menu), Version(key, payload))
      ensures r == Ok(Applied) ==> key in menu && menu[key] == payload
    {
      ApplyProper(storeId, menu, Version(key, payload), audited);
      hide Compare, Recordable, Proper, Merge;
      if AsText(Property(payload, "id")) != key.id {
        return Err("Menu sync identity does not match its payload.");
      }
      if AsText(Property(payload, "branchId")) != storeId {
        return Err("Menu sync store scope does not match its payload.");
      }
      var comparison := Compare(payload, Lookup(menu, key));
      if comparison.Err? {
        return Err(comparison.message);
      }
      var before := menu;
      if comparison.value == Newer {
        menu := menu[key := payload];
      }
      if audited && !Recordable(payload) {
        menu := before;
        return Err("version_at is not a time.");
      }
      r := Ok(match comparison.value case Newer => Applied case Stale => StaleIgnored case Same => AlreadyProcessed);
    }

    /** The stored records as a list. */
    method ReadMenuSnapshot() returns (records: seq<MenuRecord>)
      requires Valid()
      ensures SnapshotMap(records) == menu && DistinctKeys(records)
      ensures |records| == |menu|
      ensures forall r | r in records :: RecordKey(r) in menu && menu[RecordKey(r)] == r.payload
    {
      hide Property, AsText, Scoped;
      records := [];
      var pending := menu.Keys;
      while pending != {}
        invariant pending <= menu.Keys
        invariant SnapshotMap(records).Keys == menu.Keys - pending
        invariant forall k | k in SnapshotMap(records) :: SnapshotMap(records)[k] == menu[k]
        invariant DistinctKeys(records)
        invariant |records| + |pending| == |menu.Keys|
        invariant forall r | r in records :: RecordKey(r) in menu.Keys - pending && menu[RecordKey(r)] == r.payload
        decreases pending
      {
        var k :| k in pending;
        var record := MenuRecord(k.entity, menu[k]);
        assert RecordKey(record) == k by { OwnKey(storeId, menu, k); }
        var next := records + [record];
        assert next[..|next| - 1] == records;
        assert forall i | 0 <= i < |records| :: records[i] in records;
        records := next;
        pending := pending - {k};
      }
    }

    /** Merging a complete peer snapshot: it succeeds exactly on valid snapshots, and the result
        is the join of the stored menu with the snapshot, whatever the records' order. */
    method ReconcileMenuSnapshot(records: seq<MenuRecord>) returns (r: Result<Reconciliation>)
      requires Valid()
      modifies this`menu
      ensures Valid()
      ensures r.Ok? <==> ValidSnapshot(storeId, records)
      ensures r.Err? ==> menu == old(menu)
      ensures r.Ok? ==> menu == JoinMenus(old(menu), SnapshotMap(records))
      ensures r.Ok? ==> SnapshotMap(r.value.records) == menu && |r.value.records| == |menu|
      ensures r.Ok? ==> forall m | m in r.value.records :: RecordKey(m) in menu && menu[RecordKey(m)] == m.payload
      ensures r.Ok? ==> DistinctKeys(r.value.records) && r.value.applied + r.value.ignored == |records|
      ensures r.Ok? ==> r.value.applied == |LaterKeys(old(menu), SnapshotMap(records))|
    {
      hide Property, AsText, Stamped, Supersedes, StringLess, IdentityText, JoinMenus, LaterKeys, SnapshotMap, ApplyVersion;
      var valid := ValidateMenuSnapshot(storeId, records);
      if valid.Err? {
        return Err(valid.message);
      }
      var ordered := SortRecords(records);
      SnapshotMapPermutation(records, ordered);
      assert |ordered| == |records| by { assert |multiset(ordered)| == |multiset(records)|; }
      var applied, ignored := 0, 0;
      ghost var before := menu;
      JoinNothing(before, ordered);
      for i := 0 to |ordered|
        invariant Valid()
        invariant menu == JoinMenus(before, SnapshotMap(ordered[..i]))
        invariant applied + ignored == i
        invariant applied == |LaterKeys(before, SnapshotMap(ordered[..i]))|
      {
        var record := ordered[i];
        assert record in records && AcceptableRecord(storeId, record);
        var key := RecordKey(record);
        JoinOneMore(before, ordered, i);
        ApplyIsMerge(storeId, menu, Version(key, record.payload), false);
        var outcome := ApplyMenuVersion(key, record.payload, false);
        if outcome == Ok(Applied) { applied := applied + 1; } else { ignored := ignored + 1; }
      }
      assert ordered[..|ordered|] == ordered;
      var current := ReadMenuSnapshot();
      r := Ok(Reconciliation(current, applied, ignored));
    }

    ghost function Mirrored(): Mirror
      reads this
    {
      Mirror(menu, processed, rows)
    }

    /** Claim the event, then apply it; a refusal leaves the claim to the caller's rollback. */
    method ReceiveEvent(b: BatchEvent) returns (r: Result<Option<Outcome>>)
      requires Valid() && (b.MenuChange? ==> b.event.storeId == storeId)
      modifies this`menu, this`processed, this`rows
      ensures Valid()
      ensures match ReceiveOne(old(Mirrored()), b)
              case Ok((next, outcome)) => r == Ok(outcome) && Mirrored() == next
              case Err(_) => r.Err?
    {
      hide ApplyVersion, EventPayload, Scoped, Merge, Proper, COPIED_TABLES;
      if b.RowChange? && b.table !in COPIED_TABLES {
        return Err("Unsupported synchronized entity.");
      }
      if IdOf(b) in processed {
        return Ok(Some(AlreadyProcessed));
      }
      processed := processed + {IdOf(b)};
      match b
      case MenuChange(e) =>
        var outcome := ApplyMenuVersion(e.key, EventPayload(e), true);
        r := if outcome.Ok? then Ok(Some(outcome.value)) else Err(outcome.message);
      case RowChange(_, table, entityId, isDelete, row, storable) =>
        if !storable { return Err("The row was refused."); }
        rows := if isDelete then rows - {(table, entityId)} else rows[(table, entityId) := row];
        r := Ok(None);
    }

    /** A batch is one transaction. */
    method ReceiveOutgoingBatch(batch: seq<BatchEvent>) returns (r: Result<Receipt>)
      requires Valid() && forall b | b in batch && b.MenuChange? :: b.event.storeId == storeId
      modifies this`menu, this`processed, this`rows
      ensures Valid()
      ensures match ReceiveBatch(old(Mirrored()), batch)
              case Ok(received) => r.Ok? && Mirrored() == received.mirror && r.value.outcomes == received.outcomes
              case Err(_) => r.Err? && Mirrored() == old(Mirrored())
      ensures r.Ok? ==> |r.value.accepted| == |batch| && forall i | 0 <= i < |batch| :: r.value.accepted[i] == IdOf(batch[i])
    {
      hide ReceiveOne, IdOf, Scoped;
      ghost var start := Mirrored();
      var menuBefore, processedBefore, rowsBefore := menu, processed, rows;
      var accepted: seq<string> := [];
      var outcomes: map<string, Outcome> := map[];
      for i := 0 to |batch|
        invariant Valid()
        invariant ReceiveBatch(start, batch[..i]) == Ok(Received(Mirrored(), outcomes))
        invariant |accepted| == i && forall j | 0 <= j < i :: accepted[j] == IdOf(batch[j])
      {
        assert batch[..i + 1][..i] == batch[..i];
        var outcome := ReceiveEvent(batch[i]);
        if outcome.Err? {
          BatchFails(start, batch, i + 1);
          menu, processed, rows := menuBefore, processedBefore, rowsBefore;
          return Err(outcome.message);
        }
        if outcome.value.Some? {
          outcomes := outcomes[IdOf(batch[i]) := outcome.value.value];
        }
        accepted := accepted + [IdOf(batch[i])];
      }
      assert batch[..|batch|] == batch;
      r := Ok(Receipt(accepted, outcomes));
    }

    /** A first delivery claims the event and merges its version; a second one does nothing. */
    method ApplyIncomingLocally(e: IncomingEvent) returns (r: Result<Outcome>)
      requires Valid() && e.storeId == storeId
      modifies this`menu, this`inbox
      ensures Valid()
      ensures match Incorporate(LocalState(old(menu), old(inbox)), e)
              case Ok((next, outcome)) => r == Ok(outcome) && menu == next.menu && inbox == next.inbox
              case Err(message) => r == Err(message) && menu == old(menu) && inbox == old(inbox)
      ensures e.eventId in old(inbox) ==> r == Ok(AlreadyProcessed) && menu == old(menu) && inbox == old(inbox)
      ensures e.eventId !in old(inbox) && Property(e.payload, "id").String? && Proper(storeId, Version(Key(e.entity, Property(e.payload, "id").s), e.payload)) ==>
                r.Ok? && inbox == old(inbox) + {e.eventId} && menu == Merge(old(menu), Version(Key(e.entity, Property(e.payload, "id").s), e.payload))
    {
      hide ApplyVersion, Scoped, Proper, Merge;
      if e.eventId in inbox {
        return Ok(AlreadyProcessed);
      }
      var id := Property(e.payload, "id");
      if !id.String? {
        return Err("Menu sync identity does not match its payload.");
      }
      r := ApplyMenuVersion(Key(e.entity, id.s), e.payload, true);
      if r.Ok? {
        inbox := inbox + {e.eventId};
      }
    }
  }

  lemma ApplyProper(storeId: string, menu: Menu, v: Version, audited: bool)
    ensures Proper(storeId, v) ==>
              ApplyVersion(storeId, menu, v.key, v.payload, audited).Ok? && ApplyVersion(storeId, menu, v.key, v.payload, audited).value.0 == Merge(menu, v)
    ensures ApplyVersion(storeId, menu, v.key, v.payload, audited).Ok? && ApplyVersion(storeId, menu, v.key, v.payload, audited).value.1 == Applied ==>
              ApplyVersion(storeId, menu, v.key, v.payload, audited).value.0 == menu[v.key := v.payload]
  {
    if Proper(storeId, v) {
      ApplyIsMerge(storeId, menu, v, audited);
    }
    hide Compare, Stamped, AsText, Merge;
  }

  lemma OwnKey(storeId: string, menu: Menu, k: Key)
    requires ScopedMenu(storeId, menu) && k in menu
    ensures RecordKey(MenuRecord(k.entity, menu[k])) == k
  {
    hide Property, AsText;
    assert Scoped(storeId, Version(k, menu[k]));
  }

  lemma ReceiveStep(s: CloudState, events: seq<SyncEvent>, i: nat)
    requires i < |events| && Receive(s, events[..i]).Ok?
    ensures var t, e := Receive(s, events[..i]).value, events[i];
            Receive(s, events[..i + 1]) ==
            if e.eventId in t.processed then Ok(t)
            else match ApplyVersion(e.storeId, t.menu, e.key, EventPayload(e), true)
                 case Ok(applied) => Ok(CloudState(applied.0, t.processed + {e.eventId}))
                 case Err(message) => Err(message)
  {
    assert events[..i + 1][..i] == events[..i];
  }

  lemma {:induction false} BatchFails(s: Mirror, batch: seq<BatchEvent>, n: nat)
    requires n <= |batch| && ReceiveBatch(s, batch[..n]).Err?
    ensures ReceiveBatch(s, batch).Err?
    decreases |batch| - n
  {
    hide ReceiveOne;
    if n == |batch| {
      assert batch[..n] == batch;
    } else {
      assert batch[..n + 1][..n] == batch[..n];
      BatchFails(s, batch, n + 1);
    }
  }

  lemma JoinOneMore(before: Menu, ordered: seq<MenuRecord>, i: nat)
    requires i < |ordered| && DistinctKeys(ordered)
    ensures var v := Version(RecordKey(ordered[i]), ordered[i].payload);
            var menu := JoinMenus(before, SnapshotMap(ordered[..i]));
            && Merge(menu, v) == JoinMenus(before, SnapshotMap(ordered[..i + 1]))
            && |LaterKeys(before, SnapshotMap(ordered[..i + 1]))| == |LaterKeys(before, SnapshotMap(ordered[..i]))| +
               (if IsLater(menu, v.key, v.payload) then 1 else 0)
  {
    hide RecordKey, Supersedes, JoinMenus, LaterKeys, Merge;
    assert ordered[..i + 1][..i] == ordered[..i];
    SnapshotMapHas(ordered[..i]);
    assert RecordKey(ordered[i]) !in SnapshotMap(ordered[..i]);
    JoinNewKey(before, SnapshotMap(ordered[..i]), RecordKey(ordered[i]), ordered[i].payload);
  }

  lemma JoinNothing(before: Menu, records: seq<MenuRecord>)
    ensures JoinMenus(before, SnapshotMap(records[..0])) == before && LaterKeys(before, SnapshotMap(records[..0])) == {}
  {
    assert SnapshotMap(records[..0]) == map[];
  }

  lemma JoinNewKey(before: Menu, snapshot: Menu, key: Key, payload: Json)
    requires key !in snapshot
    ensures var menu := JoinMenus(before, snapshot);
            && Merge(menu, Version(key, payload)) == JoinMenus(before, snapshot[key := payload])
            && |LaterKeys(before, snapshot[key := payload])| == |LaterKeys(before, snapshot)| +
               (if IsLater(menu, key, payload) then 1 else 0)
  {
    hide Supersedes, LaterKeys;
    var menu := JoinMenus(before, snapshot);
    assert key in menu <==> key in before;
    assert key in before ==> menu[key] == before[key];
    LaterNewKey(before, snapshot, key, payload);
  }

  lemma LaterNewKey(before: Menu, snapshot: Menu, key: Key, payload: Json)
    requires key !in snapshot
    ensures |LaterKeys(before, snapshot[key := payload])| == |LaterKeys(before, snapshot)| +
            (if IsLater(before, key, payload) then 1 else 0)
  {
    hide IsLater;
    var one := if IsLater(before, key, payload) then {key} else {};
    assert LaterKeys(before, snapshot[key := payload]) == LaterKeys(before, snapshot) + one;
  }

  /******* One menu round *******/

  /** Keys whose canonical texts differ between two snapshots. */
  method FindMenuMismatches(local: seq<MenuRecord>, cloud: seq<MenuRecord>) returns (mismatches: set<Key>)
    ensures forall k :: k in mismatches <==> Lookup(SnapshotMap(local), k) != Lookup(SnapshotMap(cloud), k)
    ensures mismatches == {} <==> SnapshotMap(local) == SnapshotMap(cloud)
  {
    hide CanonicalJson;
    var m, n := SnapshotMap(local), SnapshotMap(cloud);
    forall k | k in m && k in n ensures CanonicalJson(m[k]) == CanonicalJson(n[k]) <==> m[k] == n[k] {
      CanonicalInjective(m[k], n[k]);
    }
    mismatches := set k | k in m.Keys + n.Keys && !(k in m && k in n && CanonicalJson(m[k]) == CanonicalJson(n[k]));
    if mismatches == {} {
      forall k ensures Lookup(m, k) == Lookup(n, k) { assert k !in mismatches; }
      forall k | k in m ensures k in n && n[k] == m[k] { assert Lookup(m, k) == Lookup(n, k); }
      forall k | k in n ensures k in m { assert Lookup(m, k) == Lookup(n, k); }
      assert m == n;
    }
  }

  /** A menu a peer accepts as a snapshot. */
  predicate Sendable(menu: Menu) {
    |menu| <= 5000 && forall k | k in menu :: k.id != "" && Stamped(menu[k])
  }

  /** Reading a scoped menu gives a valid snapshot exactly when the menu is sendable. */
  lemma SendableSnapshot(storeId: string, menu: Menu, records: seq<MenuRecord>)
    requires ScopedMenu(storeId, menu) && SnapshotMap(records) == menu && DistinctKeys(records) && |records| == |menu|
    requires forall r | r in records :: RecordKey(r) in menu && menu[RecordKey(r)] == r.payload
    ensures ValidSnapshot(storeId, records) <==> Sendable(menu)
  {
    hide Stamped, Property, AsText, RecordKey;
    SnapshotMapHas(records);
    if ValidSnapshot(storeId, records) {
      forall k | k in menu ensures k.id != "" && Stamped(menu[k]) {
        var r :| r in records && RecordKey(r) == k && r.payload == SnapshotMap(records)[k];
        assert AcceptableRecord(storeId, r);
      }
    }
    if Sendable(menu) {
      forall r | r in records ensures AcceptableRecord(storeId, r) {
        assert Scoped(storeId, Version(RecordKey(r), menu[RecordKey(r)]));
      }
    }
  }

  datatype MenuRound = MenuRound(applied: nat, mismatches: set<Key>)

  /** The worker's menu round over a network that may drop the request or the response. When
      it reports success both stores hold the join of what they held before and nothing
      mismatches; it succeeds exactly when nothing is dropped and both snapshots are accepted. */
  method SyncMenu(local: Replica, cloud: Replica, requestLost: bool, responseLost: bool) returns (r: Result<MenuRound>)
    requires local != cloud && local.storeId == cloud.storeId && local.Valid() && cloud.Valid()
    modifies local`menu, cloud`menu
    ensures local.Valid() && cloud.Valid()
    ensures var joined := JoinMenus(old(cloud.menu), old(local.menu));
            && (r.Ok? <==> !requestLost && !responseLost && Sendable(old(local.menu)) && Sendable(joined))
            && cloud.menu == (if requestLost || !Sendable(old(local.menu)) then old(cloud.menu) else joined)
            && local.menu == (if r.Ok? then JoinMenus(old(local.menu), joined) else old(local.menu))
    ensures r.Ok? ==> (r.value.mismatches == {} <==> local.menu == cloud.menu)
    ensures r.Ok? && ProperMenu(local.storeId, old(local.menu)) && ProperMenu(local.storeId, old(cloud.menu)) ==>
              local.menu == cloud.menu && r.value.mismatches == {}
  {
    hide Stamped, Property, AsText, Supersedes, JoinMenus;
    ghost var menu0, cloud0 := local.menu, cloud.menu;
    var sent := local.ReadMenuSnapshot();
    SendableSnapshot(local.storeId, local.menu, sent);
    if requestLost {
      return Err("MENU timed out");
    }
    var merged := cloud.ReconcileMenuSnapshot(sent);
    if merged.Err? {
      return Err(merged.message);
    }
    SendableSnapshot(cloud.storeId, cloud.menu, merged.value.records);
    if responseLost {
      return Err("MENU timed out");
    }
    var result := local.ReconcileMenuSnapshot(merged.value.records);
    if result.Err? {
      return Err(result.message);
    }
    var mismatches := FindMenuMismatches(result.value.records, merged.value.records);
    r := Ok(MenuRound(result.value.applied, mismatches));
    if ProperMenu(local.storeId, menu0) && ProperMenu(local.storeId, cloud0) {
      RoundConverges(local.storeId, menu0, cloud0);
    }
  }

  /** Joining the joined menu back adds nothing: one round makes both stores equal. */
  lemma RoundConverges(storeId: string, local: Menu, cloud: Menu)
    requires ProperMenu(storeId, local) && ProperMenu(storeId, cloud)
    ensures JoinMenus(local, JoinMenus(cloud, local)) == JoinMenus(cloud, local) == JoinMenus(local, cloud)
  {
    hide ProperMenu, JoinMenus;
    JoinLaws(storeId, cloud, local, local);
    JoinProper(storeId, cloud, local);
    JoinLaws(storeId, local, JoinMenus(cloud, local), local);
  }
}
