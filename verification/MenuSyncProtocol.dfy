/** The two-store protocol: a restaurant store and a cloud store exchange edits through a
    retried outbox, an acknowledged queue of incoming events and full snapshots, over a network
    that loses, delays, reorders and repeats messages (backend/sync/worker.ts, backend/sync/service.ts). */
module MenuSyncProtocol {
  import opened Results
  import opened Json
  import opened MenuVersion
  import opened MenuMerge
  import opened MenuReplica

  datatype OutStatus = Pending | Failed | Synced

  datatype OutRow = OutRow(event: SyncEvent, status: OutStatus)

  datatype InRow = InRow(event: IncomingEvent, acknowledged: bool)

  datatype Message =
    | Push(batch: seq<SyncEvent>)
    | PushAccepted(ids: set<string>)
    | Pull(events: set<IncomingEvent>)
    | Ack(ids: set<string>)
    | Offer(menu: Menu)
    | Reply(menu: Menu)

  /** `network` holds every message ever sent: a lost message is one that is never taken from
      it, a repeated or late one is taken again. `edits` records every version ever made. */
  datatype State = State(
    local: LocalState,
    cloud: CloudState,
    outbox: map<string, OutRow>,
    incoming: map<string, InRow>,
    network: set<Message>,
    edits: set<Version>,
    localStart: set<Version>,
    cloudStart: set<Version>)

  datatype Action =
    | EditLocal(made: SyncEvent)
    | EditCloud(queued: IncomingEvent)
    | SendPush(batch: seq<SyncEvent>)
    | DeliverPush(batch: seq<SyncEvent>)
    | ConfirmPush(ids: set<string>)
    | FailPush(ids: set<string>)
    | SendPull(events: set<IncomingEvent>)
    | ApplyPulled(events: set<IncomingEvent>, event: IncomingEvent)
    | SendAck(ids: set<string>)
    | DeliverAck(ids: set<string>)
    | SendOffer
    | MergeOffer(offered: Menu)
    | MergeReply(replied: Menu)

  function PulledVersion(e: IncomingEvent): (v: Version)
    ensures v.payload == e.payload && (Property(e.payload, "id").String? ==> v.key == Key(e.entity, Property(e.payload, "id").s))
  {
    Version(Key(e.entity, AsText(Property(e.payload, "id"))), e.payload)
  }

  /** A menu event as the services write it: a string id, its own store, a readable timestamp. */
  predicate WellMade(storeId: string, e: IncomingEvent) {
    e.storeId == storeId && Property(e.payload, "id").String? && Proper(storeId, PulledVersion(e))
  }

  /** The new version is stamped later than the one it replaces. */
  predicate StampedLater(menu: Menu, v: Version) {
    v.key !in menu || Supersedes(v.payload, menu[v.key])
  }

  function WithStatus(outbox: map<string, OutRow>, ids: set<string>, status: OutStatus): map<string, OutRow> {
    map id | id in outbox :: if id in ids then outbox[id].(status := status) else outbox[id]
  }

  function Acknowledged(incoming: map<string, InRow>, ids: set<string>): map<string, InRow> {
    map id | id in incoming :: if id in ids then incoming[id].(acknowledged := true) else incoming[id]
  }

  ghost predicate Next(storeId: string, s: State, a: Action, t: State) {
    match a
    case EditLocal(e) =>
      var v := EventVersion(e);
      && e.storeId == storeId && !e.isDelete && e.eventId !in s.outbox && Proper(storeId, v)
      && StampedLater(s.local.menu, v)
      && t == s.(local := s.local.(menu := s.local.menu[v.key := v.payload]),
                 outbox := s.outbox[e.eventId := OutRow(e, Pending)], edits := s.edits + {v})
    case EditCloud(e) =>
      var v := PulledVersion(e);
      && e.eventId !in s.incoming && WellMade(storeId, e) && StampedLater(s.cloud.menu, v)
      && t == s.(cloud := s.cloud.(menu := s.cloud.menu[v.key := v.payload]),
                 incoming := s.incoming[e.eventId := InRow(e, false)], edits := s.edits + {v})
    case SendPush(batch) =>
      && (forall e | e in batch :: e.eventId in s.outbox && s.outbox[e.eventId].event == e && s.outbox[e.eventId].status != Synced)
      && t == s.(network := s.network + {Push(batch)})
    case DeliverPush(batch) =>
      && Push(batch) in s.network
      && var r := Receive(s.cloud, batch);
         r.Ok? && t == s.(cloud := r.value, network := s.network + {PushAccepted(Ids(batch))})
    case ConfirmPush(ids) =>
      PushAccepted(ids) in s.network && t == s.(outbox := WithStatus(s.outbox, ids, Synced))
    case FailPush(ids) =>
      t == s.(outbox := WithStatus(s.outbox, ids, Failed))
    case SendPull(events) =>
      && (forall e | e in events :: e.eventId in s.incoming && s.incoming[e.eventId].event == e)
      && t == s.(network := s.network + {Pull(events)})
    case ApplyPulled(events, e) =>
      && Pull(events) in s.network && e in events
      && var r := Incorporate(s.local, e);
         r.Ok? && t == s.(local := r.value.0)
    case SendAck(ids) =>
      ids <= s.local.inbox && t == s.(network := s.network + {Ack(ids)})
    case DeliverAck(ids) =>
      Ack(ids) in s.network && t == s.(incoming := Acknowledged(s.incoming, ids))
    case SendOffer =>
      t == s.(network := s.network + {Offer(s.local.menu)})
    case MergeOffer(m) =>
      && Offer(m) in s.network && Sendable(m)
      && var joined := JoinMenus(s.cloud.menu, m);
         t == s.(cloud := s.cloud.(menu := joined), network := s.network + {Reply(joined)})
    case MergeReply(m) =>
      && Reply(m) in s.network && Sendable(m)
      && t == s.(local := s.local.(menu := JoinMenus(s.local.menu, m)))
  }

  /** Any two menus, empty queues, nothing on the wire. */
  ghost predicate Init(storeId: string, s: State) {
    && ProperMenu(storeId, s.local.menu) && ProperMenu(storeId, s.cloud.menu)
    && s.local.inbox == {} && s.cloud.processed == {} && s.outbox == map[] && s.incoming == map[] && s.network == {}
    && s.localStart == Stored(s.local.menu) && s.cloudStart == Stored(s.cloud.menu)
    && s.edits == s.localStart + s.cloudStart
  }

  ghost predicate CoversAll(menu: Menu, vs: set<Version>) {
    forall v | v in vs :: Covers(menu, v)
  }

  /******* The invariant, one part for each component *******/

  /** Only made versions are stored, and every made version is accounted for somewhere. */
  ghost predicate MenusOk(storeId: string, s: State) {
    && AllProper(storeId, s.edits)
    && Stored(s.local.menu) <= s.edits && Stored(s.cloud.menu) <= s.edits
    && (forall v | v in s.edits :: Covers(s.local.menu, v) || Covers(s.cloud.menu, v))
    && s.localStart + s.cloudStart <= s.edits
    && CoversAll(s.local.menu, s.localStart) && CoversAll(s.cloud.menu, s.cloudStart)
  }

  ghost predicate OutboxOk(storeId: string, s: State) {
    && (forall id | id in s.outbox ::
          var e := s.outbox[id].event;
          && e.eventId == id && e.storeId == storeId && EventVersion(e) in s.edits
          && Covers(s.local.menu, EventVersion(e))
          && (s.outbox[id].status == Synced ==> id in s.cloud.processed)
          && (id in s.cloud.processed ==> Covers(s.cloud.menu, EventVersion(e))))
    && s.cloud.processed <= s.outbox.Keys
  }

  ghost predicate IncomingOk(storeId: string, s: State) {
    && (forall id | id in s.incoming ::
          var e := s.incoming[id].event;
          && e.eventId == id && WellMade(storeId, e) && PulledVersion(e) in s.edits
          && Covers(s.cloud.menu, PulledVersion(e))
          && (s.incoming[id].acknowledged ==> id in s.local.inbox)
          && (id in s.local.inbox ==> Covers(s.local.menu, PulledVersion(e))))
    && s.local.inbox <= s.incoming.Keys
  }

  ghost predicate MessageOk(s: State, m: Message) {
    match m
    case Push(batch) => forall e | e in batch :: e.eventId in s.outbox && s.outbox[e.eventId].event == e
    case PushAccepted(ids) => ids <= s.cloud.processed
    case Pull(events) => forall e | e in events :: e.eventId in s.incoming && s.incoming[e.eventId].event == e
    case Ack(ids) => ids <= s.local.inbox
    case Offer(menu) => Stored(menu) <= s.edits
    case Reply(menu) => Stored(menu) <= s.edits
  }

  /** Every version was there at the start or was made through one of the two queues. */
  ghost predicate EditsKnown(s: State) {
    forall v | v in s.edits ::
      || v in s.localStart || v in s.cloudStart
      || (exists id :: id in s.outbox && EventVersion(s.outbox[id].event) == v)
      || (exists id :: id in s.incoming && PulledVersion(s.incoming[id].event) == v)
  }

  ghost predicate Inv(storeId: string, s: State) {
    && MenusOk(storeId, s) && OutboxOk(storeId, s) && IncomingOk(storeId, s) && EditsKnown(s)
    && forall m | m in s.network :: MessageOk(s, m)
  }

  lemma InitInv(storeId: string, s: State)
    requires Init(storeId, s)
    ensures Inv(storeId, s)
  {
    hide Supersedes, Stamped, Property, AsText;
  }

  /******* Menus only grow *******/

  /** `n` accounts for everything in `vs` that `m` accounts for, and stores nothing else. */
  ghost predicate Grows(m: Menu, n: Menu, vs: set<Version>) {
    && (forall v | v in vs && Covers(m, v) :: Covers(n, v))
    && Stored(n) <= vs
  }

  lemma MergeGrows(storeId: string, m: Menu, v: Version, vs: set<Version>)
    requires AllProper(storeId, vs) && Stored(m) <= vs && v in vs
    ensures Grows(m, Merge(m, v), vs) && Covers(Merge(m, v), v)
  {
    hide Stamped, Supersedes, AsText, Property;
    assert Proper(storeId, v);
    var n := Merge(m, v);
    if v.key in m {
      assert Version(v.key, m[v.key]) in Stored(m) && Proper(storeId, Version(v.key, m[v.key]));
      CompareTrichotomy(v.payload, m[v.key]);
      forall w | w in vs && Covers(m, w) ensures Covers(n, w) {
        if w.key == v.key {
          assert Proper(storeId, w);
          AtLeastTransitive(n[v.key], m[v.key], w.payload);
        }
      }
    }
    forall w | w in Stored(n) ensures w in vs {
      assert w == v || w in Stored(m);
    }
  }

  lemma {:induction false} MergeAllGrows(storeId: string, m: Menu, ws: seq<Version>, vs: set<Version>)
    requires AllProper(storeId, vs) && Stored(m) <= vs && Elements(ws) <= vs
    ensures Grows(m, MergeAll(m, ws), vs)
    ensures forall w | w in ws :: Covers(MergeAll(m, ws), w)
    decreases |ws|
  {
    hide Merge, Covers, AllProper;
    if ws != [] {
      assert ws == [ws[0]] + ws[1..] && ws[0] in Elements(ws);
      assert Elements(ws[1..]) <= Elements(ws);
      MergeGrows(storeId, m, ws[0], vs);
      MergeAllGrows(storeId, Merge(m, ws[0]), ws[1..], vs);
    }
  }

  lemma JoinGrows(storeId: string, m: Menu, n: Menu, vs: set<Version>)
    requires AllProper(storeId, vs) && Stored(m) <= vs && Stored(n) <= vs
    ensures Grows(m, JoinMenus(m, n), vs) && Grows(n, JoinMenus(m, n), vs)
  {
    hide Stamped, Supersedes, AsText, Property;
    var j := JoinMenus(m, n);
    forall w | w in Stored(j) ensures w in vs {
      assert w in Stored(m) || w in Stored(n);
    }
    forall w | w in vs && (Covers(m, w) || Covers(n, w)) ensures Covers(j, w) {
      var k := w.key;
      assert Proper(storeId, w);
      assert k in m ==> Version(k, m[k]) in Stored(m) && Proper(storeId, Version(k, m[k]));
      assert k in n ==> Version(k, n[k]) in Stored(n) && Proper(storeId, Version(k, n[k]));
      if k in m && k in n {
        CompareTrichotomy(m[k], n[k]);
        if Covers(m, w) { AtLeastTransitive(j[k], m[k], w.payload); } else { AtLeastTransitive(j[k], n[k], w.payload); }
      }
    }
  }

  /** An edit stamped later than what it replaces is an ordinary merge. */
  lemma EditIsMerge(menu: Menu, v: Version)
    requires StampedLater(menu, v)
    ensures menu[v.key := v.payload] == Merge(menu, v)
  {}

  lemma PulledMerges(storeId: string, s: LocalState, e: IncomingEvent)
    requires WellMade(storeId, e)
    ensures Incorporate(s, e).Ok?
    ensures var t := Incorporate(s, e).value.0;
            if e.eventId in s.inbox then t == s
            else t == LocalState(Merge(s.menu, PulledVersion(e)), s.inbox + {e.eventId})
  {
    hide Stamped, ApplyVersion, Merge;
    ApplyIsMerge(storeId, s.menu, PulledVersion(e), true);
  }

  /******* Every step keeps the invariant *******/

  /** What a step other than an edit may do. */
  ghost predicate Quiet(s: State, t: State) {
    && t.edits == s.edits && t.localStart == s.localStart && t.cloudStart == s.cloudStart
    && Grows(s.local.menu, t.local.menu, s.edits) && Grows(s.cloud.menu, t.cloud.menu, s.edits)
    && s.local.inbox <= t.local.inbox && s.cloud.processed <= t.cloud.processed && s.network <= t.network
    && t.outbox.Keys == s.outbox.Keys && (forall id | id in s.outbox :: t.outbox[id].event == s.outbox[id].event)
    && t.incoming.Keys == s.incoming.Keys && (forall id | id in s.incoming :: t.incoming[id].event == s.incoming[id].event)
  }

  /** A quiet step that claims ids only for versions it stored, confirms only claimed ids and
      sends only true messages. */
  ghost predicate Honest(s: State, t: State) {
    && (forall id | id in t.cloud.processed :: id in s.cloud.processed ||
          (id in s.outbox && Covers(t.cloud.menu, EventVersion(s.outbox[id].event))))
    && (forall id | id in t.local.inbox :: id in s.local.inbox ||
          (id in s.incoming && Covers(t.local.menu, PulledVersion(s.incoming[id].event))))
    && (forall id | id in t.outbox && t.outbox[id].status == Synced ::
          id in t.cloud.processed || (id in s.outbox && s.outbox[id].status == Synced))
    && (forall id | id in t.incoming && t.incoming[id].acknowledged ::
          id in t.local.inbox || (id in s.incoming && s.incoming[id].acknowledged))
    && (forall m | m in t.network :: m in s.network || MessageOk(t, m))
  }

  lemma QuietKeepsInv(storeId: string, s: State, t: State)
    requires Inv(storeId, s) && Quiet(s, t) && Honest(s, t)
    ensures Inv(storeId, t)
  {
    hide Covers, WellMade, EventVersion, PulledVersion, Stored, AllProper;
    QuietKeepsMenus(storeId, s, t);
    QuietKeepsQueues(storeId, s, t);
    forall m | m in t.network ensures MessageOk(t, m) {
      if m in s.network { assert MessageOk(s, m); }
    }
  }

  lemma QuietKeepsMenus(storeId: string, s: State, t: State)
    requires Inv(storeId, s) && Quiet(s, t)
    ensures MenusOk(storeId, t) && EditsKnown(t)
  {
    hide Covers, WellMade, EventVersion, PulledVersion, Stored, AllProper;
    forall v | v in t.edits ensures
        || v in t.localStart || v in t.cloudStart
        || (exists id :: id in t.outbox && EventVersion(t.outbox[id].event) == v)
        || (exists id :: id in t.incoming && PulledVersion(t.incoming[id].event) == v)
    {
      if v !in t.localStart && v !in t.cloudStart {
        if id :| id in s.outbox && EventVersion(s.outbox[id].event) == v {
          assert id in t.outbox && EventVersion(t.outbox[id].event) == v;
        } else {
          var id :| id in s.incoming && PulledVersion(s.incoming[id].event) == v;
          assert id in t.incoming && PulledVersion(t.incoming[id].event) == v;
        }
      }
    }
  }

  lemma QuietKeepsQueues(storeId: string, s: State, t: State)
    requires Inv(storeId, s) && Quiet(s, t) && Honest(s, t)
    ensures OutboxOk(storeId, t) && IncomingOk(storeId, t)
  {
    hide Covers, WellMade, EventVersion, PulledVersion, Stored, AllProper;
    forall id | id in t.outbox ensures
        var e := t.outbox[id].event;
        && e.eventId == id && e.storeId == storeId && EventVersion(e) in t.edits
        && Covers(t.local.menu, EventVersion(e))
        && (t.outbox[id].status == Synced ==> id in t.cloud.processed)
        && (id in t.cloud.processed ==> Covers(t.cloud.menu, EventVersion(e)))
    {
      assert id in s.outbox;
    }
    forall id | id in t.incoming ensures
        var e := t.incoming[id].event;
        && e.eventId == id && WellMade(storeId, e) && PulledVersion(e) in t.edits
        && Covers(t.cloud.menu, PulledVersion(e))
        && (t.incoming[id].acknowledged ==> id in t.local.inbox)
        && (id in t.local.inbox ==> Covers(t.local.menu, PulledVersion(e)))
    {
      assert id in s.incoming;
    }
  }

  lemma ReceiveGrows(storeId: string, s: State, batch: seq<SyncEvent>)
    requires Inv(storeId, s) && MessageOk(s, Push(batch))
    ensures Receive(s.cloud, batch).Ok?
    ensures var c := Receive(s.cloud, batch).value;
            && Grows(s.cloud.menu, c.menu, s.edits) && c.processed == s.cloud.processed + Ids(batch)
            && forall e | e in batch && e.eventId !in s.cloud.processed :: Covers(c.menu, EventVersion(e))
  {
    hide Covers, EventVersion, Stored, Proper, Unclaimed, Receive, MergeAll, Grows, WellMade;
    forall e | e in batch ensures e.storeId == storeId && Proper(storeId, EventVersion(e)) && EventVersion(e) in s.edits {
      assert e.eventId in s.outbox && s.outbox[e.eventId].event == e;
    }
    ReceiveMerges(storeId, s.cloud, batch);
    var unclaimed := Unclaimed(s.cloud.processed, batch);
    UnclaimedIds(s.cloud.processed, batch);
    var c := MergeAll(s.cloud.menu, Versions(unclaimed));
    assert Elements(Versions(unclaimed)) <= s.edits;
    MergeAllGrows(storeId, s.cloud.menu, Versions(unclaimed), s.edits);
    forall e | e in batch && e.eventId !in s.cloud.processed ensures Covers(c, EventVersion(e)) {
      assert e.eventId in Ids(unclaimed);
      var f :| f in unclaimed && f.eventId == e.eventId;
      assert f in batch && s.outbox[f.eventId].event == f;
      var i :| 0 <= i < |unclaimed| && unclaimed[i] == f;
      assert Versions(unclaimed)[i] == EventVersion(e);
    }
  }

  lemma DeliverPushInv(storeId: string, s: State, batch: seq<SyncEvent>, t: State)
    requires Inv(storeId, s) && Next(storeId, s, DeliverPush(batch), t)
    ensures Inv(storeId, t) && Quiet(s, t)
  {
    hide Covers, EventVersion, PulledVersion, Receive, WellMade, AllProper;
    assert MessageOk(s, Push(batch));
    ReceiveGrows(storeId, s, batch);
    forall id | id in t.cloud.processed ensures id in s.cloud.processed ||
        (id in s.outbox && Covers(t.cloud.menu, EventVersion(s.outbox[id].event)))
    {
      if id !in s.cloud.processed {
        var e :| e in batch && e.eventId == id;
        assert Covers(t.cloud.menu, EventVersion(e));
      }
    }
    assert MessageOk(t, PushAccepted(Ids(batch)));
    QuietKeepsInv(storeId, s, t);
  }

  lemma ApplyPulledInv(storeId: string, s: State, e: IncomingEvent, t: State)
    requires Inv(storeId, s) && e.eventId in s.incoming && s.incoming[e.eventId].event == e
    requires Incorporate(s.local, e).Ok? && t == s.(local := Incorporate(s.local, e).value.0)
    ensures Inv(storeId, t) && Quiet(s, t)
  {
    hide Covers, EventVersion, PulledVersion, Incorporate, Merge, WellMade, Stored, AllProper, MessageOk, EditsKnown;
    PulledMerges(storeId, s.local, e);
    MergeGrows(storeId, s.local.menu, PulledVersion(e), s.edits);
    assert Grows(s.local.menu, s.local.menu, s.edits) && Grows(s.cloud.menu, s.cloud.menu, s.edits);
    QuietKeepsInv(storeId, s, t);
  }

  lemma MergeOfferInv(storeId: string, s: State, m: Menu, t: State)
    requires Inv(storeId, s) && Next(storeId, s, MergeOffer(m), t)
    ensures Inv(storeId, t) && Quiet(s, t)
  {
    hide Covers, EventVersion, PulledVersion, JoinMenus, WellMade, Stored, AllProper, Sendable;
    assert MessageOk(s, Offer(m));
    JoinGrows(storeId, s.cloud.menu, m, s.edits);
    assert MessageOk(t, Reply(t.cloud.menu));
    QuietKeepsInv(storeId, s, t);
  }

  lemma MergeReplyInv(storeId: string, s: State, m: Menu, t: State)
    requires Inv(storeId, s) && Next(storeId, s, MergeReply(m), t)
    ensures Inv(storeId, t) && Quiet(s, t)
  {
    hide Covers, EventVersion, PulledVersion, JoinMenus, WellMade, Stored, AllProper, Sendable;
    assert MessageOk(s, Reply(m));
    JoinGrows(storeId, s.local.menu, m, s.edits);
    QuietKeepsInv(storeId, s, t);
  }

  predicate IsEdit(a: Action) {
    a.EditLocal? || a.EditCloud?
  }

  lemma SendInv(storeId: string, s: State, m: Message, t: State)
    requires Inv(storeId, s) && MessageOk(s, m) && t == s.(network := s.network + {m})
    ensures Inv(storeId, t) && Quiet(s, t)
  {
    hide Covers, EventVersion, PulledVersion, WellMade, Stored, AllProper, EditsKnown;
    assert MessageOk(t, m);
    QuietKeepsInv(storeId, s, t);
  }

  lemma OutStatusInv(storeId: string, s: State, ids: set<string>, status: OutStatus, t: State)
    requires Inv(storeId, s) && (status == Synced ==> ids <= s.cloud.processed)
    requires t == s.(outbox := WithStatus(s.outbox, ids, status))
    ensures Inv(storeId, t) && Quiet(s, t)
  {
    hide Covers, EventVersion, PulledVersion, WellMade, Stored, AllProper, EditsKnown, MessageOk;
    QuietKeepsInv(storeId, s, t);
  }

  lemma AcknowledgedInv(storeId: string, s: State, ids: set<string>, t: State)
    requires Inv(storeId, s) && ids <= s.local.inbox && t == s.(incoming := Acknowledged(s.incoming, ids))
    ensures Inv(storeId, t) && Quiet(s, t)
  {
    hide Covers, EventVersion, PulledVersion, WellMade, Stored, AllProper, EditsKnown, MessageOk;
    QuietKeepsInv(storeId, s, t);
  }

  /** What a step takes from the network, and what it sends, is true of the queues and menus. */
  lemma StepFacts(storeId: string, s: State, a: Action, t: State)
    requires Inv(storeId, s) && Next(storeId, s, a, t)
    ensures match a
            case SendPush(batch) => MessageOk(s, Push(batch)) && t == s.(network := s.network + {Push(batch)})
            case SendPull(events) => MessageOk(s, Pull(events)) && t == s.(network := s.network + {Pull(events)})
            case SendAck(ids) => MessageOk(s, Ack(ids)) && t == s.(network := s.network + {Ack(ids)})
            case SendOffer => MessageOk(s, Offer(s.local.menu)) && t == s.(network := s.network + {Offer(s.local.menu)})
            case ConfirmPush(ids) => ids <= s.cloud.processed && t == s.(outbox := WithStatus(s.outbox, ids, Synced))
            case FailPush(ids) => t == s.(outbox := WithStatus(s.outbox, ids, Failed))
            case DeliverAck(ids) => ids <= s.local.inbox && t == s.(incoming := Acknowledged(s.incoming, ids))
            case ApplyPulled(_, e) => e.eventId in s.incoming && s.incoming[e.eventId].event == e &&
                                      Incorporate(s.local, e).Ok? && t == s.(local := Incorporate(s.local, e).value.0)
            case _ => true
  {
    hide Covers, EventVersion, PulledVersion, WellMade, Stored, AllProper, EditsKnown, OutboxOk, IncomingOk, WithStatus,
      Acknowledged, Incorporate, Receive, JoinMenus, Proper, StampedLater;
    match a {
      case ConfirmPush(ids) => assert MessageOk(s, PushAccepted(ids));
      case DeliverAck(ids) => assert MessageOk(s, Ack(ids));
      case ApplyPulled(events, e) => assert MessageOk(s, Pull(events));
      case _ =>
    }
  }

  lemma EditLocalMenus(storeId: string, s: State, e: SyncEvent, t: State)
    requires MenusOk(storeId, s) && Next(storeId, s, EditLocal(e), t)
    ensures MenusOk(storeId, t) && Grows(s.local.menu, t.local.menu, t.edits) && Covers(t.local.menu, EventVersion(e))
  {
    hide Covers, Merge, Stored, Proper, StampedLater, EventVersion;
    EditIsMerge(s.local.menu, EventVersion(e));
    MergeGrows(storeId, s.local.menu, EventVersion(e), t.edits);
  }

  lemma EditLocalQueues(storeId: string, s: State, e: SyncEvent, t: State)
    requires OutboxOk(storeId, s) && IncomingOk(storeId, s) && Next(storeId, s, EditLocal(e), t)
    requires Grows(s.local.menu, t.local.menu, t.edits) && Covers(t.local.menu, EventVersion(e))
    ensures OutboxOk(storeId, t) && IncomingOk(storeId, t)
  {
    hide Covers, PulledVersion, WellMade, Stored, Proper, StampedLater, EventVersion;
    forall id | id in t.outbox ensures
        var f := t.outbox[id].event;
        && f.eventId == id && f.storeId == storeId && EventVersion(f) in t.edits
        && Covers(t.local.menu, EventVersion(f))
        && (t.outbox[id].status == Synced ==> id in t.cloud.processed)
        && (id in t.cloud.processed ==> Covers(t.cloud.menu, EventVersion(f)))
    {
      assert id == e.eventId || id in s.outbox;
      assert id in s.outbox ==> EventVersion(s.outbox[id].event) in s.edits;
    }
  }

  lemma EditLocalInv(storeId: string, s: State, e: SyncEvent, t: State)
    requires Inv(storeId, s) && Next(storeId, s, EditLocal(e), t)
    ensures Inv(storeId, t)
  {
    hide MenusOk, OutboxOk, IncomingOk, EventVersion, PulledVersion, StampedLater, Proper, EditsKnown, Next, MessageOk, Grows, Covers;
    EditLocalMenus(storeId, s, e, t);
    EditLocalQueues(storeId, s, e, t);
    EditLocalKnown(storeId, s, e, t);
  }

  lemma EditLocalKnown(storeId: string, s: State, e: SyncEvent, t: State)
    requires EditsKnown(s) && Next(storeId, s, EditLocal(e), t) && forall m | m in s.network :: MessageOk(s, m)
    ensures EditsKnown(t) && forall m | m in t.network :: MessageOk(t, m)
  {
    hide EventVersion, PulledVersion, StampedLater, Proper, Stored, Merge;
    assert e.eventId in t.outbox && t.outbox[e.eventId].event == e;
    EditKeepsKnown(s, t, EventVersion(e));
    forall m | m in t.network ensures MessageOk(t, m) { assert MessageOk(s, m); }
  }

  lemma EditCloudMenus(storeId: string, s: State, e: IncomingEvent, t: State)
    requires MenusOk(storeId, s) && Next(storeId, s, EditCloud(e), t)
    ensures MenusOk(storeId, t) && Grows(s.cloud.menu, t.cloud.menu, t.edits) && Covers(t.cloud.menu, PulledVersion(e))
  {
    hide Covers, Merge, Stored, Proper, StampedLater, PulledVersion;
    EditIsMerge(s.cloud.menu, PulledVersion(e));
    MergeGrows(storeId, s.cloud.menu, PulledVersion(e), t.edits);
  }

  lemma EditCloudQueues(storeId: string, s: State, e: IncomingEvent, t: State)
    requires OutboxOk(storeId, s) && IncomingOk(storeId, s) && Next(storeId, s, EditCloud(e), t)
    requires Grows(s.cloud.menu, t.cloud.menu, t.edits) && Covers(t.cloud.menu, PulledVersion(e))
    ensures OutboxOk(storeId, t) && IncomingOk(storeId, t)
  {
    hide Covers, EventVersion, Stored, Proper, StampedLater, PulledVersion, WellMade;
    forall id | id in t.incoming ensures
        var f := t.incoming[id].event;
        && f.eventId == id && WellMade(storeId, f) && PulledVersion(f) in t.edits
        && Covers(t.cloud.menu, PulledVersion(f))
        && (t.incoming[id].acknowledged ==> id in t.local.inbox)
        && (id in t.local.inbox ==> Covers(t.local.menu, PulledVersion(f)))
    {
      assert id == e.eventId || id in s.incoming;
      assert id in s.incoming ==> PulledVersion(s.incoming[id].event) in s.edits;
    }
  }

  lemma EditCloudInv(storeId: string, s: State, e: IncomingEvent, t: State)
    requires Inv(storeId, s) && Next(storeId, s, EditCloud(e), t)
    ensures Inv(storeId, t)
  {
    hide MenusOk, OutboxOk, IncomingOk, EventVersion, PulledVersion, StampedLater, WellMade, EditsKnown, Next, MessageOk, Grows, Covers;
    EditCloudMenus(storeId, s, e, t);
    EditCloudQueues(storeId, s, e, t);
    EditCloudKnown(storeId, s, e, t);
  }

  lemma EditCloudKnown(storeId: string, s: State, e: IncomingEvent, t: State)
    requires EditsKnown(s) && Next(storeId, s, EditCloud(e), t) && forall m | m in s.network :: MessageOk(s, m)
    ensures EditsKnown(t) && forall m | m in t.network :: MessageOk(t, m)
  {
    hide EventVersion, PulledVersion, StampedLater, Proper, Stored, Merge, WellMade;
    assert e.eventId in t.incoming && t.incoming[e.eventId].event == e;
    EditKeepsKnown(s, t, PulledVersion(e));
    forall m | m in t.network ensures MessageOk(t, m) { assert MessageOk(s, m); }
  }

  lemma EditKeepsKnown(s: State, t: State, v: Version)
    requires EditsKnown(s) && t.edits == s.edits + {v} && t.localStart == s.localStart && t.cloudStart == s.cloudStart
    requires forall id | id in s.outbox :: id in t.outbox && t.outbox[id] == s.outbox[id]
    requires forall id | id in s.incoming :: id in t.incoming && t.incoming[id] == s.incoming[id]
    requires (exists id :: id in t.outbox && EventVersion(t.outbox[id].event) == v) ||
             (exists id :: id in t.incoming && PulledVersion(t.incoming[id].event) == v)
    ensures EditsKnown(t)
  {
    hide EventVersion, PulledVersion;
    forall w | w in t.edits ensures
        || w in t.localStart || w in t.cloudStart
        || (exists id :: id in t.outbox && EventVersion(t.outbox[id].event) == w)
        || (exists id :: id in t.incoming && PulledVersion(t.incoming[id].event) == w)
    {
      if w != v && w !in t.localStart && w !in t.cloudStart {
        if id :| id in s.outbox && EventVersion(s.outbox[id].event) == w {
          assert id in t.outbox && EventVersion(t.outbox[id].event) == w;
        } else {
          var id :| id in s.incoming && PulledVersion(s.incoming[id].event) == w;
          assert id in t.incoming && PulledVersion(t.incoming[id].event) == w;
        }
      }
    }
  }

  /** Every step keeps the invariant; a step that is not an edit only lets the menus grow. */
  lemma NextInv(storeId: string, s: State, a: Action, t: State)
    requires Inv(storeId, s) && Next(storeId, s, a, t)
    ensures Inv(storeId, t)
    ensures !IsEdit(a) ==> Quiet(s, t)
  {
    hide Inv, Quiet, Next, MessageOk, WithStatus, Acknowledged, Incorporate;
    StepFacts(storeId, s, a, t);
    match a {
      case EditLocal(e) => EditLocalInv(storeId, s, e, t);
      case EditCloud(e) => EditCloudInv(storeId, s, e, t);
      case DeliverPush(batch) => DeliverPushInv(storeId, s, batch, t);
      case ApplyPulled(_, e) => ApplyPulledInv(storeId, s, e, t);
      case MergeOffer(m) => MergeOfferInv(storeId, s, m, t);
      case MergeReply(m) => MergeReplyInv(storeId, s, m, t);
      case SendPush(batch) => SendInv(storeId, s, Push(batch), t);
      case SendPull(events) => SendInv(storeId, s, Pull(events), t);
      case SendAck(ids) => SendInv(storeId, s, Ack(ids), t);
      case SendOffer => SendInv(storeId, s, Offer(s.local.menu), t);
      case ConfirmPush(ids) => OutStatusInv(storeId, s, ids, Synced, t);
      case FailPush(ids) => OutStatusInv(storeId, s, ids, Failed, t);
      case DeliverAck(ids) => AcknowledgedInv(storeId, s, ids, t);
    }
  }

  /******* Whole runs *******/

  ghost predicate Run(storeId: string, states: seq<State>, actions: seq<Action>) {
    && |states| == |actions| + 1
    && forall i | 0 <= i < |actions| :: Next(storeId, states[i], actions[i], states[i + 1])
  }

  lemma {:induction false} RunInv(storeId: string, states: seq<State>, actions: seq<Action>, n: nat)
    requires Run(storeId, states, actions) && Inv(storeId, states[0]) && n < |states|
    ensures Inv(storeId, states[n])
  {
    hide Inv, Next;
    if n > 0 {
      RunInv(storeId, states, actions, n - 1);
      NextInv(storeId, states[n - 1], actions[n - 1], states[n]);
    }
  }

  lemma InvLatest(storeId: string, s: State)
    requires MenusOk(storeId, s)
    ensures LatestOf(JoinMenus(s.local.menu, s.cloud.menu), s.edits)
  {
    hide Covers, JoinMenus, Stored, AllProper;
    JoinGrows(storeId, s.local.menu, s.cloud.menu, s.edits);
  }

  /** No menu version is ever lost: after any run the two stores together hold, for every
      record, the latest of all versions ever made, and nothing that was not made. */
  lemma NoVersionLost(storeId: string, states: seq<State>, actions: seq<Action>, n: nat)
    requires Run(storeId, states, actions) && Init(storeId, states[0]) && n < |states|
    ensures LatestOf(JoinMenus(states[n].local.menu, states[n].cloud.menu), states[n].edits)
  {
    hide Next, Init, LatestOf, JoinMenus;
    InitInv(storeId, states[0]);
    RunInv(storeId, states, actions, n);
    InvLatest(storeId, states[n]);
  }

  ghost predicate Drained(s: State) {
    && (forall id | id in s.outbox :: s.outbox[id].status == Synced)
    && (forall id | id in s.incoming :: s.incoming[id].acknowledged)
  }

  /** Once both queues have drained, the stores are equal exactly when each accounts for what the other
      started with; then they hold the latest version of everything. */
  lemma DrainedConvergesIff(storeId: string, states: seq<State>, actions: seq<Action>, n: nat)
    requires Run(storeId, states, actions) && Init(storeId, states[0]) && n < |states| && Drained(states[n])
    ensures var s := states[n];
            && (s.local.menu == s.cloud.menu <==> CoversAll(s.local.menu, s.cloudStart) && CoversAll(s.cloud.menu, s.localStart))
            && (s.local.menu == s.cloud.menu ==> LatestOf(s.local.menu, s.edits))
  {
    hide Next, Init, Inv, Drained, CoversAll, LatestOf;
    InitInv(storeId, states[0]);
    RunInv(storeId, states, actions, n);
    DrainedEqualIff(storeId, states[n]);
  }

  lemma DrainedEqualIff(storeId: string, s: State)
    requires Inv(storeId, s) && Drained(s)
    ensures s.local.menu == s.cloud.menu <==> CoversAll(s.local.menu, s.cloudStart) && CoversAll(s.cloud.menu, s.localStart)
    ensures s.local.menu == s.cloud.menu ==> LatestOf(s.local.menu, s.edits)
  {
    hide Covers, Stored, AllProper, EditsKnown, OutboxOk, IncomingOk, MessageOk, Drained;
    DrainedCovers(storeId, s);
    if CoversAll(s.local.menu, s.cloudStart) && CoversAll(s.cloud.menu, s.localStart) {
      LatestUnique(storeId, s.local.menu, s.cloud.menu, s.edits);
    }
  }

  /** Drained queues leave nothing unaccounted for but what a store started with. */
  lemma DrainedCovers(storeId: string, s: State)
    requires Inv(storeId, s) && Drained(s)
    ensures forall v | v in s.edits && v !in s.localStart && v !in s.cloudStart :: Covers(s.local.menu, v) && Covers(s.cloud.menu, v)
  {
    hide Covers, EventVersion, PulledVersion, WellMade, Stored, AllProper;
    forall v | v in s.edits && v !in s.localStart && v !in s.cloudStart ensures Covers(s.local.menu, v) && Covers(s.cloud.menu, v) {
      if id :| id in s.outbox && EventVersion(s.outbox[id].event) == v {
        assert id in s.cloud.processed;
      } else {
        var id :| id in s.incoming && PulledVersion(s.incoming[id].event) == v;
        assert id in s.local.inbox;
      }
    }
  }

  /** Drained stores that differ: one starts with a dish, the other with nothing, and nobody edits. */
  lemma DrainedApart()
    ensures var v := Dish("Soup", NewYear("2026"));
            var s := State(LocalState(map[v.key := v.payload], {}), CloudState(map[], {}), map[], map[], {}, {v}, {v}, {});
            Init("main", s) && Run("main", [s], []) && Drained(s) && s.local.menu != s.cloud.menu
  {
    var v := Dish("Soup", NewYear("2026"));
    DishesOfTwoYears("Soup", "Soup");
    hide Dish, Proper, NewYear;
    OneStored(v);
    assert v.key in map[v.key := v.payload];
  }

  lemma OneStored(v: Version)
    ensures Stored(map[v.key := v.payload]) == {v} && Stored(map[]) == {}
  {
    assert Version(v.key, v.payload) == v;
    var menu: Menu := map[v.key := v.payload];
    assert v.key in menu && Version(v.key, menu[v.key]) == v;
    forall w | w in Stored(menu) ensures w == v { assert w.key == v.key; }
  }

  /** Between two points of a run without edits both menus only grow and nothing is made. */
  lemma {:induction false} QuietRun(storeId: string, states: seq<State>, actions: seq<Action>, i: nat, j: nat)
    requires Run(storeId, states, actions) && Inv(storeId, states[0]) && i <= j < |states|
    requires forall k | i <= k < j :: !IsEdit(actions[k])
    ensures states[j].edits == states[i].edits
    ensures Grows(states[i].local.menu, states[j].local.menu, states[i].edits)
    ensures Grows(states[i].cloud.menu, states[j].cloud.menu, states[i].edits)
    decreases j
  {
    hide Next, Covers, Stored, IsEdit, OutboxOk, IncomingOk, EditsKnown, MessageOk;
    RunInv(storeId, states, actions, i);
    if i < j {
      QuietRun(storeId, states, actions, i, j - 1);
      RunInv(storeId, states, actions, j - 1);
      NextInv(storeId, states[j - 1], actions[j - 1], states[j]);
    }
  }

  /** One menu round repairs any divergence: the local menu at step `i` is merged by the cloud
      at step `j`, the cloud's reply is merged locally at step `k`, and no edit is made from `i`
      on. Whatever else happens in between, both stores then hold the latest of everything. */
  lemma RoundRepairs(storeId: string, states: seq<State>, actions: seq<Action>, i: nat, j: nat, k: nat)
    requires Run(storeId, states, actions) && Init(storeId, states[0]) && i <= j < k < |actions|
    requires forall n | i <= n <= k :: !IsEdit(actions[n])
    requires actions[j] == MergeOffer(states[i].local.menu)
    requires actions[k] == MergeReply(states[j + 1].cloud.menu)
    ensures states[k + 1].local.menu == states[k + 1].cloud.menu
    ensures LatestOf(states[k + 1].local.menu, states[k + 1].edits)
  {
    hide Init, LatestOf, Receive, Incorporate, Sendable, Inv;
    InitInv(storeId, states[0]);
    RunInv(storeId, states, actions, i);
    RunInv(storeId, states, actions, j);
    RunInv(storeId, states, actions, k);
    RunInv(storeId, states, actions, k + 1);
    QuietRun(storeId, states, actions, i, j);
    QuietRun(storeId, states, actions, i, j + 1);
    QuietRun(storeId, states, actions, j + 1, k);
    QuietRun(storeId, states, actions, j + 1, k + 1);
    QuietRun(storeId, states, actions, k, k + 1);
    assert Next(storeId, states[j], actions[j], states[j + 1]);
    assert Next(storeId, states[k], actions[k], states[k + 1]);
    RoundLatest(storeId, states[i], states[j], states[j + 1], states[k], states[k + 1]);
    LatestUnique(storeId, states[k + 1].local.menu, states[k + 1].cloud.menu, states[k + 1].edits);
  }

  lemma RoundLatest(storeId: string, sent: State, before: State, merged: State, late: State, done: State)
    requires Inv(storeId, sent) && Inv(storeId, before) && Inv(storeId, late) && Inv(storeId, done)
    requires sent.edits == before.edits == merged.edits == late.edits == done.edits
    requires Grows(sent.cloud.menu, before.cloud.menu, sent.edits)
    requires merged.cloud.menu == JoinMenus(before.cloud.menu, sent.local.menu)
    requires Grows(merged.cloud.menu, done.cloud.menu, sent.edits)
    requires done.local.menu == JoinMenus(late.local.menu, merged.cloud.menu)
    ensures AllProper(storeId, done.edits)
    ensures LatestOf(done.local.menu, done.edits) && LatestOf(done.cloud.menu, done.edits)
  {
    hide Covers, JoinMenus, OutboxOk, IncomingOk, EditsKnown, MessageOk, Stored, AllProper;
    JoinGrows(storeId, before.cloud.menu, sent.local.menu, sent.edits);
    JoinGrows(storeId, late.local.menu, merged.cloud.menu, sent.edits);
  }

  /******* The stamping hypothesis is exactly what is needed *******/

  /** Replacing a local record by a new version keeps every version accounted for if and only
      if the new version is at least the one it replaces, or the cloud already covers that one. */
  lemma EditLosesNothingIff(storeId: string, local: Menu, cloud: Menu, vs: set<Version>, v: Version)
    requires AllProper(storeId, vs + {v}) && Stored(local) <= vs && Stored(cloud) <= vs
    requires LatestOf(JoinMenus(local, cloud), vs) && v.key in local
    ensures LatestOf(JoinMenus(local[v.key := v.payload], cloud), vs + {v}) <==>
            (AtLeast(v.payload, local[v.key]) || Covers(cloud, Version(v.key, local[v.key])))
  {
    hide Stamped, Supersedes, AsText, Property, JoinMenus, LatestOf, Later;
    var k, held := v.key, Version(v.key, local[v.key]);
    assert held in Stored(local) && Proper(storeId, held) && Proper(storeId, v);
    assert k in cloud ==> Version(k, cloud[k]) in Stored(cloud) && Proper(storeId, Version(k, cloud[k]));
    if AtLeast(v.payload, local[k]) || Covers(cloud, held) {
      RaisedEdit(storeId, local, cloud, vs, v);
    }
    if LatestOf(JoinMenus(local[k := v.payload], cloud), vs + {v}) {
      JoinedAt(local[k := v.payload], cloud, k);
      assert Covers(JoinMenus(local[k := v.payload], cloud), held) by { LatestCovers(JoinMenus(local[k := v.payload], cloud), vs + {v}, held); }
      LaterIsOne(v.payload, if k in cloud then cloud[k] else v.payload);
    }
  }

  /** An edit that loses a version: a dish of 2026 is replaced by one stamped 2025 while the cloud has
      neither. */
  lemma BackdatedEditLoses()
    ensures var held, v := Dish("Soup", NewYear("2026")), Dish("Broth", NewYear("2025"));
            var local: Menu := map[held.key := held.payload];
            && LatestOf(JoinMenus(local, map[]), {held})
            && !LatestOf(JoinMenus(local[v.key := v.payload], map[]), {held, v})
  {
    DishesOfTwoYears("Broth", "Soup");
    LostEdit(Dish("Soup", NewYear("2026")), Dish("Broth", NewYear("2025")));
  }

  lemma LostEdit(held: Version, v: Version)
    requires held.key == v.key && Proper("main", held) && Proper("main", v) && Supersedes(held.payload, v.payload)
    ensures var local: Menu := map[held.key := held.payload];
            && LatestOf(JoinMenus(local, map[]), {held})
            && !LatestOf(JoinMenus(local[v.key := v.payload], map[]), {held, v})
  {
    CompareTrichotomy(held.payload, v.payload);
    hide Stamped, Supersedes, AsText, Property, Scoped, Dish;
    var local: Menu := map[held.key := held.payload];
    OneStored(held);
    assert JoinMenus(local, map[]) == local;
    StoredLatest("main", local);
    EditLosesNothingIff("main", local, map[], {held}, v);
    assert {held} + {v} == {held, v};
  }

  lemma LatestCovers(menu: Menu, vs: set<Version>, v: Version)
    requires LatestOf(menu, vs) && v in vs
    ensures Covers(menu, v)
  {
    hide Covers;
  }

  lemma LaterIsOne(a: Json, b: Json)
    ensures Later(a, b) == a || Later(a, b) == b
  {
    hide Supersedes;
  }

  lemma JoinedAt(m: Menu, n: Menu, k: Key)
    requires k in m
    ensures k in JoinMenus(m, n) && JoinMenus(m, n)[k] == (if k in n then Later(m[k], n[k]) else m[k])
  {
    hide Later;
  }

  lemma RaisedEdit(storeId: string, local: Menu, cloud: Menu, vs: set<Version>, v: Version)
    requires AllProper(storeId, vs + {v}) && Stored(local) <= vs && Stored(cloud) <= vs
    requires LatestOf(JoinMenus(local, cloud), vs) && v.key in local
    requires AtLeast(v.payload, local[v.key]) || Covers(cloud, Version(v.key, local[v.key]))
    ensures LatestOf(JoinMenus(local[v.key := v.payload], cloud), vs + {v})
  {
    hide JoinMenus, AllProper, Covers, AtLeast;
    RaisedStored(local, cloud, vs, v);
    forall w | w in vs + {v} ensures Covers(JoinMenus(local[v.key := v.payload], cloud), w) {
      RaisedCovers(storeId, local, cloud, vs, v, w);
    }
  }

  lemma RaisedStored(local: Menu, cloud: Menu, vs: set<Version>, v: Version)
    requires Stored(local) <= vs && Stored(cloud) <= vs && LatestOf(JoinMenus(local, cloud), vs) && v.key in local
    ensures forall w | w in Stored(JoinMenus(local[v.key := v.payload], cloud)) :: w in vs + {v}
  {
    hide Later, Covers;
    var k := v.key;
    var j, was := JoinMenus(local[k := v.payload], cloud), JoinMenus(local, cloud);
    assert k in cloud ==> Version(k, cloud[k]) in Stored(cloud);
    LaterIsOne(v.payload, if k in cloud then cloud[k] else v.payload);
    forall w | w in Stored(j) ensures w in vs + {v} {
      if w.key != k {
        assert was[w.key] == w.payload;
        assert Version(w.key, was[w.key]) in Stored(was);
      }
    }
  }

  lemma RaisedCovers(storeId: string, local: Menu, cloud: Menu, vs: set<Version>, v: Version, w: Version)
    requires AllProper(storeId, vs + {v}) && Stored(local) <= vs && Stored(cloud) <= vs && w in vs + {v}
    requires LatestOf(JoinMenus(local, cloud), vs) && v.key in local
    requires AtLeast(v.payload, local[v.key]) || Covers(cloud, Version(v.key, local[v.key]))
    ensures Covers(JoinMenus(local[v.key := v.payload], cloud), w)
  {
    hide Stamped, Supersedes, AsText, Property, Later;
    var k, held := v.key, Version(v.key, local[v.key]);
    var j, was := JoinMenus(local[k := v.payload], cloud), JoinMenus(local, cloud);
    assert held in Stored(local) && Proper(storeId, held) && Proper(storeId, v) && Proper(storeId, w);
    assert k in cloud ==> Version(k, cloud[k]) in Stored(cloud) && Proper(storeId, Version(k, cloud[k]));
    JoinAtLeast(v.payload, local[k], if k in cloud then Some(cloud[k]) else None);
    LaterIsOne(v.payload, if k in cloud then cloud[k] else v.payload);
    LaterIsOne(local[k], if k in cloud then cloud[k] else local[k]);
    if w in vs { LatestCovers(was, vs, w); }
    if w.key == k && w != v { AtLeastTransitive(j[k], was[k], w.payload); }
  }

  /** The larger of two records, one side raised, is at least what it was. */
  lemma JoinAtLeast(a: Json, b: Json, other: Option<Json>)
    requires Stamped(a) && Stamped(b) && (other.Some? ==> Stamped(other.value))
    requires AtLeast(a, b) || (other.Some? && AtLeast(other.value, b))
    ensures other == None ==> AtLeast(a, b)
    ensures other.Some? ==> AtLeast(Later(a, other.value), Later(b, other.value))
    ensures other.Some? ==> AtLeast(Later(a, other.value), a)
  {
    hide Stamped, Supersedes;
    if other.Some? {
      CompareTrichotomy(a, other.value);
      CompareTrichotomy(b, other.value);
      CompareTrichotomy(a, b);
      if Supersedes(b, other.value) && AtLeast(a, b) && a != b { SupersedesTransitive(a, b, other.value); }
    }
  }
}
