/** The two-store protocol can always finish its work: from every state that a run reaches, without another
    edit, both queues can be drained and both stores brought to the latest of everything
    (backend/sync/worker.ts, backend/sync/service.ts). */
module MenuProgress {
  import opened Results
  import opened MenuVersion
  import opened MenuMerge
  import opened MenuReplica
  import opened MenuSyncProtocol

  /******* Ways without edits *******/

  ghost predicate Way(storeId: string, s: State, t: State, states: seq<State>, actions: seq<Action>) {
    && Run(storeId, states, actions) && states[0] == s && states[|actions|] == t
    && forall a | a in actions :: !IsEdit(a)
  }

  ghost predicate CanReach(storeId: string, s: State, t: State) {
    exists states, actions :: Way(storeId, s, t, states, actions)
  }

  lemma ReachesItself(storeId: string, s: State)
    ensures CanReach(storeId, s, s)
  {
    assert Way(storeId, s, s, [s], []);
  }

  lemma ReachesNext(storeId: string, s: State, t: State, a: Action, u: State)
    requires CanReach(storeId, s, t) && Next(storeId, t, a, u) && !IsEdit(a)
    ensures CanReach(storeId, s, u)
  {
    hide Next, IsEdit;
    var states, actions :| Way(storeId, s, t, states, actions);
    var longer, more := states + [u], actions + [a];
    forall i | 0 <= i < |more| ensures Next(storeId, longer[i], more[i], longer[i + 1]) {
      if i < |actions| { assert Next(storeId, states[i], actions[i], states[i + 1]); }
    }
    assert Way(storeId, s, u, longer, more);
  }

  /** One more step on the way, which keeps the invariant. */
  lemma GoOn(storeId: string, s: State, t: State, a: Action, u: State)
    requires CanReach(storeId, s, t) && Inv(storeId, t) && Next(storeId, t, a, u) && !IsEdit(a)
    ensures CanReach(storeId, s, u) && Inv(storeId, u) && Quiet(t, u)
  {
    hide Next, IsEdit, Inv, Quiet, CanReach;
    ReachesNext(storeId, s, t, a, u);
    NextInv(storeId, t, a, u);
  }

  /******* The outbox *******/

  /** The rows of the outbox that are not yet synced, in some order. */
  lemma {:induction false} OpenRows(outbox: map<string, OutRow>, ids: set<string>) returns (batch: seq<SyncEvent>)
    requires ids <= outbox.Keys && forall id | id in outbox :: outbox[id].event.eventId == id
    ensures forall e | e in batch :: e.eventId in ids && outbox[e.eventId].event == e && outbox[e.eventId].status != Synced
    ensures forall id | id in ids && outbox[id].status != Synced :: outbox[id].event in batch
    decreases ids
  {
    batch := [];
    if ids != {} {
      var id :| id in ids;
      batch := OpenRows(outbox, ids - {id});
      if outbox[id].status != Synced { batch := batch + [outbox[id].event]; }
    }
  }

  /** Nothing in the outbox waits. */
  predicate OutboxDone(s: State) {
    forall id | id in s.outbox :: s.outbox[id].status == Synced
  }

  lemma RowsNamed(storeId: string, s: State)
    requires Inv(storeId, s)
    ensures forall id | id in s.outbox :: s.outbox[id].event.eventId == id
    ensures forall id | id in s.incoming :: s.incoming[id].event.eventId == id
  {
    hide MenusOk, EditsKnown, MessageOk, Covers, EventVersion, PulledVersion, WellMade;
  }

  lemma Received(storeId: string, s: State, batch: seq<SyncEvent>)
    requires Inv(storeId, s) && Push(batch) in s.network
    ensures Receive(s.cloud, batch).Ok?
  {
    hide Receive, MenusOk, OutboxOk, IncomingOk, EditsKnown;
    ReceiveGrows(storeId, s, batch);
  }

  /** The outbox is sent, received and confirmed. */
  lemma PushAll(storeId: string, s: State) returns (t: State)
    requires Inv(storeId, s)
    ensures CanReach(storeId, s, t) && Inv(storeId, t) && OutboxDone(t) && t.edits == s.edits
  {
    hide Inv, CanReach, Receive, Quiet;
    ReachesItself(storeId, s);
    RowsNamed(storeId, s);
    var batch := OpenRows(s.outbox, s.outbox.Keys);
    var sent := s.(network := s.network + {Push(batch)});
    GoOn(storeId, s, s, SendPush(batch), sent);
    Received(storeId, sent, batch);
    var received := sent.(cloud := Receive(sent.cloud, batch).value, network := sent.network + {PushAccepted(Ids(batch))});
    GoOn(storeId, s, sent, DeliverPush(batch), received);
    t := received.(outbox := WithStatus(received.outbox, Ids(batch), Synced));
    GoOn(storeId, s, received, ConfirmPush(Ids(batch)), t);
  }

  /******* The incoming queue *******/

  lemma Applied(storeId: string, s: State, e: IncomingEvent)
    requires Inv(storeId, s) && e.eventId in s.incoming && s.incoming[e.eventId].event == e
    ensures Incorporate(s.local, e).Ok? && Incorporate(s.local, e).value.0.inbox == s.local.inbox + {e.eventId}
  {
    hide Incorporate, Merge, MenusOk, OutboxOk, EditsKnown, MessageOk, Covers, PulledVersion, WellMade;
    PulledMerges(storeId, s.local, e);
  }

  /** The pulled events are applied one after another. */
  lemma {:induction false} ApplyAll(storeId: string, s: State, t: State, events: set<IncomingEvent>, ids: set<string>) returns (u: State)
    requires CanReach(storeId, s, t) && Inv(storeId, t) && Pull(events) in t.network
    requires ids <= t.incoming.Keys && forall id | id in ids :: t.incoming[id].event in events
    ensures CanReach(storeId, s, u) && Inv(storeId, u)
    ensures u.outbox == t.outbox && u.incoming == t.incoming && u.edits == t.edits && t.local.inbox + ids <= u.local.inbox
    decreases ids
  {
    hide Inv, CanReach, Incorporate, Quiet;
    u := t;
    if ids != {} {
      var id :| id in ids;
      var e := t.incoming[id].event;
      RowsNamed(storeId, t);
      Applied(storeId, t, e);
      var next := t.(local := Incorporate(t.local, e).value.0);
      GoOn(storeId, s, t, ApplyPulled(events, e), next);
      u := ApplyAll(storeId, s, next, events, ids - {id});
    }
  }

  /** The incoming queue is pulled, applied and acknowledged. */
  lemma PullAll(storeId: string, s: State, t: State) returns (u: State)
    requires CanReach(storeId, s, t) && Inv(storeId, t)
    ensures CanReach(storeId, s, u) && Inv(storeId, u) && u.outbox == t.outbox && u.edits == t.edits
    ensures forall id | id in u.incoming :: u.incoming[id].acknowledged
  {
    hide Inv, CanReach, Quiet;
    RowsNamed(storeId, t);
    var events := set id | id in t.incoming :: t.incoming[id].event;
    var sent := t.(network := t.network + {Pull(events)});
    GoOn(storeId, s, t, SendPull(events), sent);
    var applied := ApplyAll(storeId, s, sent, events, sent.incoming.Keys);
    var ids := applied.incoming.Keys;
    var told := applied.(network := applied.network + {Ack(ids)});
    GoOn(storeId, s, applied, SendAck(ids), told);
    u := told.(incoming := Acknowledged(told.incoming, ids));
    GoOn(storeId, s, told, DeliverAck(ids), u);
  }

  /** Whatever was lost or repeated before, both queues can be drained without another edit. */
  lemma QueuesCanDrain(storeId: string, states: seq<State>, actions: seq<Action>, n: nat) returns (t: State)
    requires Run(storeId, states, actions) && Init(storeId, states[0]) && n < |states|
    ensures CanReach(storeId, states[n], t) && Inv(storeId, t) && Drained(t) && t.edits == states[n].edits
  {
    hide Inv, Init, CanReach, Next;
    InitInv(storeId, states[0]);
    RunInv(storeId, states, actions, n);
    var pushed := PushAll(storeId, states[n]);
    t := PullAll(storeId, states[n], pushed);
  }

  /******* Both stores *******/

  lemma PartSendable(m: Menu, n: Menu)
    requires Sendable(JoinMenus(m, n)) && forall k | k in m :: Stamped(m[k])
    ensures Sendable(m)
  {
    hide Stamped, Later;
    var joined := JoinMenus(m, n);
    assert m.Keys <= joined.Keys;
    Subset(m.Keys, joined.Keys);
    assert |m| == |m.Keys| && |joined| == |joined.Keys|;
  }

  lemma {:induction false} Subset(xs: set<Key>, ys: set<Key>)
    requires xs <= ys
    ensures |xs| <= |ys|
  {
    if xs != {} {
      var x :| x in xs;
      Subset(xs - {x}, ys - {x});
    }
  }

  lemma SameJoin(storeId: string, s: State, t: State)
    requires Inv(storeId, s) && Inv(storeId, t) && s.edits == t.edits
    ensures JoinMenus(s.local.menu, s.cloud.menu) == JoinMenus(t.local.menu, t.cloud.menu)
    ensures JoinMenus(t.cloud.menu, t.local.menu) == JoinMenus(t.local.menu, t.cloud.menu)
  {
    hide OutboxOk, IncomingOk, EditsKnown, MessageOk, Covers, JoinMenus, Stored, AllProper;
    InvLatest(storeId, s);
    InvLatest(storeId, t);
    LatestUnique(storeId, JoinMenus(s.local.menu, s.cloud.menu), JoinMenus(t.local.menu, t.cloud.menu), t.edits);
    JoinGrows(storeId, t.cloud.menu, t.local.menu, t.edits);
    LatestUnique(storeId, JoinMenus(t.cloud.menu, t.local.menu), JoinMenus(t.local.menu, t.cloud.menu), t.edits);
  }

  lemma StampedMenus(storeId: string, s: State)
    requires Inv(storeId, s)
    ensures forall k | k in s.local.menu :: Stamped(s.local.menu[k])
  {
    hide OutboxOk, IncomingOk, EditsKnown, MessageOk, Covers, Stamped, Scoped;
    forall k | k in s.local.menu ensures Stamped(s.local.menu[k]) {
      assert Version(k, s.local.menu[k]) in Stored(s.local.menu);
      assert Proper(storeId, Version(k, s.local.menu[k]));
    }
  }

  lemma Itself(storeId: string, s: State)
    requires Inv(storeId, s)
    ensures Grows(s.cloud.menu, s.cloud.menu, s.edits)
  {
    hide OutboxOk, IncomingOk, EditsKnown, MessageOk, Covers, Stored, AllProper;
  }

  /** One round: the local menu is offered and merged, and the answer is merged. */
  lemma OneRound(storeId: string, s: State, t: State) returns (u: State)
    requires CanReach(storeId, s, t) && Inv(storeId, t) && Sendable(JoinMenus(t.local.menu, t.cloud.menu))
    ensures CanReach(storeId, s, u) && Inv(storeId, u) && u.outbox == t.outbox && u.incoming == t.incoming && u.edits == t.edits
    ensures u.local.menu == u.cloud.menu && LatestOf(u.local.menu, u.edits)
  {
    hide Inv, CanReach, Sendable, JoinMenus, LatestOf, Grows, Stamped;
    StampedMenus(storeId, t);
    PartSendable(t.local.menu, t.cloud.menu);
    SameJoin(storeId, t, t);
    var sent := t.(network := t.network + {Offer(t.local.menu)});
    GoOn(storeId, s, t, SendOffer, sent);
    var joined := JoinMenus(t.cloud.menu, t.local.menu);
    var merged := sent.(cloud := sent.cloud.(menu := joined), network := sent.network + {Reply(joined)});
    GoOn(storeId, s, sent, MergeOffer(t.local.menu), merged);
    u := merged.(local := merged.local.(menu := JoinMenus(merged.local.menu, joined)));
    GoOn(storeId, s, merged, MergeReply(joined), u);
    assert Grows(t.cloud.menu, t.cloud.menu, t.edits) && Grows(joined, joined, t.edits) by { Itself(storeId, t); Itself(storeId, merged); }
    RoundLatest(storeId, t, sent, merged, merged, u);
    LatestUnique(storeId, u.local.menu, u.cloud.menu, u.edits);
  }

  /** Both queues can be drained and both stores brought to the latest of everything that was ever made, as
      long as all of it fits into one snapshot. */
  lemma StoresCanConverge(storeId: string, states: seq<State>, actions: seq<Action>, n: nat) returns (t: State)
    requires Run(storeId, states, actions) && Init(storeId, states[0]) && n < |states|
    requires Sendable(JoinMenus(states[n].local.menu, states[n].cloud.menu))
    ensures CanReach(storeId, states[n], t) && Drained(t) && t.local.menu == t.cloud.menu && LatestOf(t.local.menu, states[n].edits)
  {
    hide Inv, Init, CanReach, Run, Sendable, JoinMenus, LatestOf;
    var drained := QueuesCanDrain(storeId, states, actions, n);
    InitInv(storeId, states[0]);
    RunInv(storeId, states, actions, n);
    SameJoin(storeId, states[n], drained);
    t := OneRound(storeId, states[n], drained);
  }
}
