/** A write that is sent until it is answered and runs at most once: the retrying client
    (frontend/api/client.ts, frontend/network/reconnect-policy.ts), a network that loses, repeats and
    delays, and the server's lock and replay for each idempotency key (backend/server.ts,
    backend/network-idempotency.ts). */
module IdempotentRequest {
  import opened Results
  import opened Json

  /******* Requests *******/

  datatype Request = Request(user: Option<string>, verb: string, path: string, body: Json)

  /** What the server remembers of a request. The body's hash stands for its stable text. */
  datatype Fingerprint = Fingerprint(user: Option<string>, verb: string, path: string, bodyText: string)

  function Print(r: Request): Fingerprint {
    Fingerprint(r.user, r.verb, r.path, StableStringify(r.body))
  }

  /** Two requests with parsed JSON bodies, or none, have the same fingerprint only if they are equal. */
  lemma PrintInjective(r: Request, q: Request)
    requires r.body.Undefined? || Defined(r.body)
    requires q.body.Undefined? || Defined(q.body)
    ensures Print(r) == Print(q) <==> r == q
  {
    StableInjective(r.body, q.body);
  }

  /** The request as it goes over the wire. */
  function Sent(r: Request): Request {
    r.(body := Wire(r.body))
  }

  lemma SentPrints(r: Request, q: Request)
    ensures Print(Sent(r)) == Print(Sent(q)) <==> Sent(r) == Sent(q)
  {
    WireDefined(r.body);
    WireDefined(q.body);
    PrintInjective(Sent(r), Sent(q));
  }

  datatype OperationKind = Read | IdempotentWrite | UnsafeWrite

  function MaxAttempts(kind: OperationKind): nat {
    if kind.UnsafeWrite? then 1 else 6
  }

  predicate ShouldRetry(kind: OperationKind, attempt: nat) {
    attempt < MaxAttempts(kind)
  }

  predicate IsLanFailure(status: nat) {
    status in {408, 425, 429, 500, 502, 503, 504}
  }

  predicate IsSuccess(status: nat): (ok: bool)
    ensures ok <==> status / 100 == 2
  {
    200 <= status < 300
  }

  /** One attempt of one client operation. All attempts of an operation carry its key. */
  datatype Message = Message(op: nat, attempt: nat, key: string, request: Request)

  datatype Response = Response(status: nat, body: string)

  /******* State *******/

  /** A request inside the server: queued for its key, past the lock, in the handler, storing the handler's
      result, or answered. */
  datatype Phase =
    | Waiting(previous: Option<nat>)
    | Entered
    | Handling
    | Saving(data: string)
    | Answered(response: Response)

  datatype Visit = Visit(message: Message, phase: Phase)

  datatype Record = Record(fingerprint: Fingerprint, status: nat, body: string)

  /** A run of the handler that succeeded. */
  datatype Execution = Execution(visit: nat, data: string)

  datatype OpPhase = Ready | Awaiting | Done(result: Option<Response>)

  /** One run of the retry loop in one client. */
  datatype Op = Op(client: nat, key: string, request: Request, kind: OperationKind, attempt: nat, phase: OpPhase)

  /** What a client compares writes by: method, path and body, but not the user. */
  datatype Signature = Signature(verb: string, path: string, bodyText: string)

  function SignatureOf(r: Request): Signature {
    Signature(r.verb, r.path, StableStringify(r.body))
  }

  /** A call of a client's `request`, and the operation whose promise it was given. */
  datatype Caller = Caller(client: nat, request: Request, op: nat)

  /** `locks` holds, for each key in use, the visit whose promise is queued last; `inFlight` holds, for each
      client, the operations that it is waiting for. Messages that were sent may arrive at any time and any
      number of times. */
  datatype State = State(sent: set<Message>, visits: seq<Visit>, locks: map<string, nat>, records: map<string, Record>,
                         executions: seq<Execution>, ops: seq<Op>, calls: seq<Caller>, inFlight: map<(nat, Signature), nat>)

  const INITIAL: State := State({}, [], map[], map[], [], [], [], map[])

  /******* Server steps *******/

  function Key(s: State, v: nat): string
    requires v < |s.visits|
  {
    s.visits[v].message.key
  }

  predicate Released(s: State, v: nat) {
    v < |s.visits| && s.visits[v].phase.Answered?
  }

  function WithPhase(s: State, v: nat, phase: Phase): State
    requires v < |s.visits|
  {
    s.(visits := s.visits[v := s.visits[v].(phase := phase)])
  }

  /** Answer, take the lock out of the map if nobody queued behind, and release it. */
  function Answer(s: State, v: nat, response: Response): State
    requires v < |s.visits|
  {
    var k := Key(s, v);
    WithPhase(s, v, Answered(response)).(locks := if k in s.locks && s.locks[k] == v then s.locks - {k} else s.locks)
  }

  datatype Action =
    | Call(client: nat, key: string, request: Request)
    | Send(op: nat)
    | Lose(op: nat)
    | Take(op: nat, visit: nat)
    | Receive(message: Message)
    | Enter(visit: nat)
    | Check(visit: nat)
    | Succeed(visit: nat, data: string)
    | Fail(visit: nat, status: nat)
    | Save(visit: nat, status: nat)

  /** Queue behind the last holder of the key's lock. */
  function ReceiveStep(s: State, m: Message): State {
    var previous := if m.key in s.locks then Some(s.locks[m.key]) else None;
    s.(visits := s.visits + [Visit(m, Waiting(previous))], locks := s.locks[m.key := |s.visits|])
  }

  /** Replay what is stored for the key, refuse another request under the same key, or run the handler. */
  function CheckStep(s: State, v: nat): State
    requires v < |s.visits|
  {
    var k := Key(s, v);
    if k in s.records then
      if s.records[k].fingerprint != Print(s.visits[v].message.request) then Answer(s, v, Response(409, "Idempotency key was already used for a different request."))
      else Answer(s, v, Response(s.records[k].status, s.records[k].body))
    else WithPhase(s, v, Handling)
  }

  function SaveStep(s: State, v: nat, status: nat): State
    requires v < |s.visits| && s.visits[v].phase.Saving?
  {
    var data, m := s.visits[v].phase.data, s.visits[v].message;
    Answer(s.(records := s.records[m.key := Record(Print(m.request), status, data)]), v, Response(status, data))
  }

  /******* Client steps *******/

  function Slot(op: Op): (nat, Signature) {
    (op.client, SignatureOf(op.request))
  }

  /** A client waits no longer for an operation that is done. */
  function WithOp(s: State, o: nat, op: Op): State
    requires o < |s.ops|
  {
    s.(ops := s.ops[o := op], inFlight := if op.phase.Done? then s.inFlight - {Slot(op)} else s.inFlight)
  }

  /** A write that equals one this client is waiting for is given the same promise. */
  function CallStep(s: State, client: nat, key: string, request: Request): State {
    var slot := (client, SignatureOf(request));
    if slot in s.inFlight then s.(calls := s.calls + [Caller(client, request, s.inFlight[slot])])
    else s.(ops := s.ops + [Op(client, key, request, IdempotentWrite, 1, Ready)],
            calls := s.calls + [Caller(client, request, |s.ops|)], inFlight := s.inFlight[slot := |s.ops|])
  }

  function AfterFailure(op: Op): Op {
    if ShouldRetry(op.kind, op.attempt) then op.(attempt := op.attempt + 1, phase := Ready) else op.(phase := Done(None))
  }

  function AfterResponse(op: Op, response: Response): Op {
    if IsLanFailure(response.status) && ShouldRetry(op.kind, op.attempt) then op.(attempt := op.attempt + 1, phase := Ready)
    else op.(phase := Done(Some(response)))
  }

  predicate Possible(s: State, a: Action) {
    match a
    case Call(_, key, request) => key != "" && request.verb !in {"GET", "HEAD", "OPTIONS"}
    case Send(o) => o < |s.ops| && s.ops[o].phase.Ready?
    case Lose(o) => o < |s.ops| && s.ops[o].phase.Awaiting?
    case Take(o, v) =>
      && o < |s.ops| && s.ops[o].phase.Awaiting? && v < |s.visits| && s.visits[v].phase.Answered?
      && s.visits[v].message.op == o && s.visits[v].message.attempt == s.ops[o].attempt
    case Receive(m) => m in s.sent
    case Enter(v) => v < |s.visits| && s.visits[v].phase.Waiting? && (s.visits[v].phase.previous.None? || Released(s, s.visits[v].phase.previous.value))
    case Check(v) => v < |s.visits| && s.visits[v].phase.Entered?
    case Succeed(v, _) => v < |s.visits| && s.visits[v].phase.Handling?
    case Fail(v, status) => v < |s.visits| && s.visits[v].phase.Handling? && 400 <= status
    case Save(v, status) => v < |s.visits| && s.visits[v].phase.Saving? && IsSuccess(status)
  }

  function Next(s: State, a: Action): State
    requires Possible(s, a)
  {
    match a
    case Call(client, key, request) => CallStep(s, client, key, request)
    case Send(o) =>
      var op := s.ops[o];
      WithOp(s.(sent := s.sent + {Message(o, op.attempt, op.key, Sent(op.request))}), o, op.(phase := Awaiting))
    case Lose(o) => WithOp(s, o, AfterFailure(s.ops[o]))
    case Take(o, v) => WithOp(s, o, AfterResponse(s.ops[o], s.visits[v].phase.response))
    case Receive(m) => ReceiveStep(s, m)
    case Enter(v) => WithPhase(s, v, Entered)
    case Check(v) => CheckStep(s, v)
    case Succeed(v, data) => WithPhase(s.(executions := s.executions + [Execution(v, data)]), v, Saving(data))
    case Fail(v, status) => Answer(s, v, Response(status, ""))
    case Save(v, status) => SaveStep(s, v, status)
  }

  function Run(actions: seq<Action>): State {
    if actions == [] then INITIAL
    else
      var s, a := Run(actions[..|actions| - 1]), actions[|actions| - 1];
      if Possible(s, a) then Next(s, a) else s
  }

  /******* The lock *******/

  /** Visits of the same key get through one at a time, in the order of their arrival. */
  ghost predicate LockInv(s: State) {
    && (forall v: nat | v < |s.visits| && s.visits[v].phase.Waiting? :: Behind(s, v, s.visits[v].phase.previous))
    && (forall v: nat | v < |s.visits| && !s.visits[v].phase.Waiting? :: AllBefore(s, v))
    && (forall k | k in s.locks :: LastOf(s, k, s.locks[k]))
    && (forall v: nat | v < |s.visits| && Key(s, v) !in s.locks :: Released(s, v))
  }

  ghost predicate Behind(s: State, v: nat, previous: Option<nat>)
    requires v < |s.visits|
  {
    match previous
    case None => AllBefore(s, v)
    case Some(p) => p < v && Key(s, p) == Key(s, v) && forall q: nat | q < v && Key(s, q) == Key(s, v) :: q <= p
  }

  /** Every earlier visit of the same key has been answered. */
  ghost predicate AllBefore(s: State, v: nat)
    requires v < |s.visits|
  {
    forall q: nat | q < v && Key(s, q) == Key(s, v) :: Released(s, q)
  }

  ghost predicate LastOf(s: State, k: string, p: nat) {
    p < |s.visits| && Key(s, p) == k && !Released(s, p) && forall q: nat | q < |s.visits| && Key(s, q) == k :: q <= p
  }

  /** A visit that has passed the lock and is not answered yet. */
  predicate Inside(s: State, v: nat) {
    v < |s.visits| && !s.visits[v].phase.Waiting? && !s.visits[v].phase.Answered?
  }

  lemma MutualExclusion(s: State, v: nat, w: nat)
    requires LockInv(s) && Inside(s, v) && Inside(s, w) && Key(s, v) == Key(s, w)
    ensures v == w
  {
    assert AllBefore(s, v) && AllBefore(s, w);
  }

  lemma ReceiveLock(s: State, m: Message)
    requires LockInv(s)
    ensures LockInv(ReceiveStep(s, m))
  {
    var t, n := ReceiveStep(s, m), |s.visits|;
    ReceivedSame(s, t);
    ReceivedLast(s, m);
    hide Key, Released, AllBefore, LastOf, ReceiveStep;
    forall v: nat | v < n && t.visits[v].phase.Waiting? ensures Behind(t, v, t.visits[v].phase.previous) {
      assert Behind(s, v, s.visits[v].phase.previous);
      BehindEarlier(s, t, v);
    }
  }

  /** The visits so far are untouched by one that comes after them. */
  lemma ReceivedSame(s: State, t: State)
    requires |t.visits| == |s.visits| + 1 && forall v: nat | v < |s.visits| :: t.visits[v] == s.visits[v]
    ensures forall v: nat | v < |s.visits| :: Key(t, v) == Key(s, v) && (Released(t, v) <==> Released(s, v)) && (AllBefore(s, v) ==> AllBefore(t, v))
  {}

  lemma BehindEarlier(s: State, t: State, v: nat)
    requires v < |s.visits| < |t.visits| && t.visits[v] == s.visits[v] && s.visits[v].phase.Waiting? && Behind(s, v, s.visits[v].phase.previous)
    requires forall q: nat | q < |s.visits| :: Key(t, q) == Key(s, q)
    requires AllBefore(s, v) ==> AllBefore(t, v)
    ensures Behind(t, v, t.visits[v].phase.previous)
  {
    hide Key, AllBefore;
  }

  lemma ReceivedLast(s: State, m: Message)
    requires LockInv(s)
    ensures var t, n := ReceiveStep(s, m), |s.visits|;
            && Behind(t, n, t.visits[n].phase.previous)
            && (forall k | k in t.locks :: LastOf(t, k, t.locks[k]))
            && forall v: nat | v < |t.visits| && Key(t, v) !in t.locks :: Released(t, v)
  {
    var t, n := ReceiveStep(s, m), |s.visits|;
    forall v: nat | v < n ensures t.visits[v] == s.visits[v] && (Released(t, v) <==> Released(s, v)) {}
    forall k | k in t.locks && k != m.key ensures LastOf(t, k, t.locks[k]) {
      assert LastOf(s, k, s.locks[k]);
    }
    if m.key in s.locks {
      assert LastOf(s, m.key, s.locks[m.key]);
    }
  }

  /** Moving one visit on inside the lock, or into it. */
  lemma PhaseLock(s: State, v: nat, phase: Phase)
    requires LockInv(s) && v < |s.visits| && !s.visits[v].phase.Answered? && !phase.Waiting? && !phase.Answered? && AllBefore(s, v)
    ensures LockInv(WithPhase(s, v, phase))
  {
    PhaseLocked(s, WithPhase(s, v, phase), v);
  }

  lemma PhaseLocked(s: State, t: State, v: nat)
    requires LockInv(s) && v < |s.visits| == |t.visits| && !s.visits[v].phase.Answered? && AllBefore(s, v) && t.locks == s.locks
    requires t.visits[v].message == s.visits[v].message && !t.visits[v].phase.Waiting? && !t.visits[v].phase.Answered?
    requires forall w: nat | w < |s.visits| && w != v :: t.visits[w] == s.visits[w]
    ensures LockInv(t)
  {
    SameReleases(s, t);
    hide Key, Released, AllBefore, LastOf, Behind;
    forall w: nat | w < |t.visits| && t.visits[w].phase.Waiting? ensures Behind(t, w, t.visits[w].phase.previous) {
      assert Behind(s, w, s.visits[w].phase.previous);
      BehindSame(s, t, w);
    }
  }

  lemma BehindSame(s: State, t: State, w: nat)
    requires w < |s.visits| == |t.visits| && t.visits[w] == s.visits[w] && s.visits[w].phase.Waiting? && Behind(s, w, s.visits[w].phase.previous)
    requires forall q: nat | q < |s.visits| :: Key(t, q) == Key(s, q)
    requires AllBefore(s, w) ==> AllBefore(t, w)
    ensures Behind(t, w, t.visits[w].phase.previous)
  {
    hide Key, AllBefore;
  }

  /** The order of visits, and who is ahead of whom, depends on messages and answers only. */
  lemma SameReleases(s: State, t: State)
    requires |t.visits| == |s.visits| && t.locks == s.locks
    requires forall w: nat | w < |s.visits| :: t.visits[w].message == s.visits[w].message && (t.visits[w].phase.Answered? <==> s.visits[w].phase.Answered?)
    ensures forall w: nat | w < |s.visits| :: Key(t, w) == Key(s, w) && (Released(t, w) <==> Released(s, w)) && (AllBefore(s, w) ==> AllBefore(t, w))
    ensures forall k, p: nat | LastOf(s, k, p) :: LastOf(t, k, p)
  {}

  /** The same visits, of which `v` has been answered. */
  ghost predicate AnsweredOne(s: State, t: State, v: nat) {
    && v < |s.visits| == |t.visits| && (forall w: nat | w < |s.visits| :: Key(t, w) == Key(s, w))
    && (forall w: nat | w < |s.visits| && w != v :: t.visits[w] == s.visits[w]) && t.visits[v].phase.Answered?
    && t.locks == if Key(s, v) in s.locks && s.locks[Key(s, v)] == v then s.locks - {Key(s, v)} else s.locks
  }

  lemma AnswerLock(s: State, v: nat, response: Response)
    requires LockInv(s) && Inside(s, v)
    ensures LockInv(Answer(s, v, response)) && AnsweredOne(s, Answer(s, v, response), v)
  {
    AnsweredLock(s, Answer(s, v, response), v);
  }

  lemma AnsweredLock(s: State, t: State, v: nat)
    requires LockInv(s) && Inside(s, v) && AnsweredOne(s, t, v)
    ensures LockInv(t)
  {
    AnsweredLast(s, t, v);
    assert AllBefore(s, v);
    forall w: nat | w < |s.visits| ensures Released(s, w) ==> Released(t, w) {}
    forall w: nat | w < |s.visits| && AllBefore(s, w) ensures AllBefore(t, w) {}
    hide Released, LastOf, Key;
    forall w: nat | w < |t.visits| && t.visits[w].phase.Waiting? ensures Behind(t, w, t.visits[w].phase.previous) {
      BehindKept(s, t, w, v);
    }
  }

  lemma BehindKept(s: State, t: State, w: nat, v: nat)
    requires AnsweredOne(s, t, v) && w < |s.visits| && w != v && s.visits[w].phase.Waiting? && Behind(s, w, s.visits[w].phase.previous)
    ensures Behind(t, w, t.visits[w].phase.previous)
  {}

  lemma AnsweredLast(s: State, t: State, v: nat)
    requires LockInv(s) && Inside(s, v) && AnsweredOne(s, t, v)
    ensures forall k | k in t.locks :: LastOf(t, k, t.locks[k])
    ensures forall w: nat | w < |t.visits| && Key(t, w) !in t.locks :: Released(t, w)
  {
    assert AllBefore(s, v);
    forall k | k in t.locks ensures LastOf(t, k, t.locks[k]) {
      assert LastOf(s, k, s.locks[k]);
    }
    forall w: nat | w < |t.visits| && Key(t, w) !in t.locks ensures Released(t, w) {
      if w != v && Key(s, w) in s.locks {
        assert s.locks[Key(s, w)] == v && LastOf(s, Key(s, w), v) && w <= v;
      }
    }
  }

  lemma EnterReady(s: State, v: nat)
    requires LockInv(s) && Possible(s, Enter(v))
    ensures AllBefore(s, v)
  {
    assert Behind(s, v, s.visits[v].phase.previous);
    if s.visits[v].phase.previous.Some? {
      var p := s.visits[v].phase.previous.value;
      assert AllBefore(s, p);
    }
  }

  /******* Records and executions *******/

  ghost predicate RecordInv(s: State) {
    && (forall e | e in s.executions :: e.visit < |s.visits|)
    && OncePerKey(s)
    && (forall k | k in s.records :: Recorded(s, k))
    && (forall e | e in s.executions :: Stored(s, e))
    && (forall v: nat | v < |s.visits| :: VisitInv(s, v))
  }

  /** No key has two executions. */
  ghost predicate OncePerKey(s: State) {
    forall i, j | 0 <= i < j < |s.executions| :: KeyOf(s, s.executions[i]) != KeyOf(s, s.executions[j])
  }

  function KeyOf(s: State, e: Execution): string {
    if e.visit < |s.visits| then Key(s, e.visit) else ""
  }

  /** A record holds the result of the key's execution, for the request that was executed. */
  ghost predicate Recorded(s: State, k: string)
    requires k in s.records
  {
    IsSuccess(s.records[k].status) && exists e :: e in s.executions && Result(s, e, k, s.records[k].fingerprint, s.records[k].body)
  }

  ghost predicate Result(s: State, e: Execution, k: string, fingerprint: Fingerprint, body: string) {
    e.visit < |s.visits| && Key(s, e.visit) == k && Print(s.visits[e.visit].message.request) == fingerprint && e.data == body
  }

  /** What the handler produced is recorded, or about to be. */
  ghost predicate Stored(s: State, e: Execution) {
    e.visit < |s.visits| && (Key(s, e.visit) in s.records || s.visits[e.visit].phase == Saving(e.data))
  }

  ghost predicate VisitInv(s: State, v: nat)
    requires v < |s.visits|
  {
    match s.visits[v].phase
    case Handling => Key(s, v) !in s.records && forall e | e in s.executions :: KeyOf(s, e) != Key(s, v)
    case Saving(data) => Key(s, v) !in s.records && Execution(v, data) in s.executions
    case Answered(response) =>
      IsSuccess(response.status) ==>
        Key(s, v) in s.records && response.body == s.records[Key(s, v)].body && Print(s.visits[v].message.request) == s.records[Key(s, v)].fingerprint
    case _ => true
  }

  /** The same messages in the same visits, perhaps with one more. */
  ghost predicate SameMessages(s: State, t: State) {
    |s.visits| <= |t.visits| && forall v: nat | v < |s.visits| :: t.visits[v].message == s.visits[v].message
  }

  lemma RecordsKept(s: State, t: State)
    requires SameMessages(s, t) && t.executions == s.executions && t.records == s.records && RecordInv(s)
    ensures (forall e | e in t.executions :: e.visit < |t.visits|) && OncePerKey(t) && forall k | k in t.records :: Recorded(t, k)
  {
    hide Print, VisitInv, Stored;
    forall e | e in s.executions ensures KeyOf(t, e) == KeyOf(s, e) {}
    forall k | k in t.records ensures Recorded(t, k) {
      assert Recorded(s, k);
      var e :| e in s.executions && Result(s, e, k, s.records[k].fingerprint, s.records[k].body);
      assert Result(t, e, k, t.records[k].fingerprint, t.records[k].body);
    }
    forall i, j | 0 <= i < j < |t.executions| ensures KeyOf(t, t.executions[i]) != KeyOf(t, t.executions[j]) {
      assert s.executions[i] in s.executions && s.executions[j] in s.executions;
    }
  }

  /** A step that only moves visit `v`, which was not saving, and leaves records and executions. */
  lemma VisitMoved(s: State, t: State, v: nat)
    requires RecordInv(s) && SameMessages(s, t) && t.executions == s.executions && t.records == s.records
    requires |t.visits| == |s.visits| && v < |s.visits| && !s.visits[v].phase.Saving?
    requires forall w: nat | w < |s.visits| && w != v :: t.visits[w] == s.visits[w]
    requires VisitInv(t, v)
    ensures RecordInv(t)
  {
    RecordsKept(s, t);
    hide OncePerKey, Recorded, Print;
    forall w: nat | w < |t.visits| && w != v ensures VisitInv(t, w) {
      assert VisitInv(s, w);
      OtherVisit(s, t, w);
    }
    forall e | e in t.executions ensures Stored(t, e) {
      assert Stored(s, e);
    }
  }

  lemma OtherVisit(s: State, t: State, w: nat)
    requires SameMessages(s, t) && t.executions == s.executions && t.records == s.records && w < |s.visits| && t.visits[w] == s.visits[w]
    requires VisitInv(s, w) && forall e | e in s.executions :: e.visit < |s.visits|
    ensures VisitInv(t, w)
  {
    hide Print;
  }

  lemma ReceiveRecords(s: State, m: Message)
    requires RecordInv(s)
    ensures RecordInv(ReceiveStep(s, m))
  {
    var t := ReceiveStep(s, m);
    RecordsKept(s, t);
    hide OncePerKey, Recorded, Print;
    forall w: nat | w < |s.visits| ensures VisitInv(t, w) {
      assert VisitInv(s, w);
      OtherVisit(s, t, w);
    }
    forall e | e in t.executions ensures Stored(t, e) {
      assert Stored(s, e);
    }
  }

  /** Past the lock, a key without a record has no execution yet: whoever executed would still be inside. */
  lemma NothingExecuted(s: State, v: nat)
    requires LockInv(s) && RecordInv(s) && v < |s.visits| && s.visits[v].phase.Entered? && Key(s, v) !in s.records
    ensures forall e | e in s.executions :: KeyOf(s, e) != Key(s, v)
  {
    hide LockInv, VisitInv, OncePerKey, Recorded, Print;
    forall e | e in s.executions ensures KeyOf(s, e) != Key(s, v) {
      assert Stored(s, e);
      if KeyOf(s, e) == Key(s, v) {
        MutualExclusion(s, v, e.visit);
      }
    }
  }

  lemma AnswerRecords(s: State, v: nat, response: Response)
    requires RecordInv(s) && v < |s.visits| && !s.visits[v].phase.Saving?
    requires IsSuccess(response.status) ==>
               Key(s, v) in s.records && response.body == s.records[Key(s, v)].body && Print(s.visits[v].message.request) == s.records[Key(s, v)].fingerprint
    ensures RecordInv(Answer(s, v, response))
  {
    hide Print, RecordInv;
    VisitMoved(s, Answer(s, v, response), v);
  }

  lemma CheckRecords(s: State, v: nat)
    requires LockInv(s) && RecordInv(s) && v < |s.visits| && s.visits[v].phase.Entered?
    ensures RecordInv(CheckStep(s, v))
  {
    hide LockInv, Print, RecordInv;
    var k := Key(s, v);
    if k in s.records {
      if s.records[k].fingerprint == Print(s.visits[v].message.request) {
        AnswerRecords(s, v, Response(s.records[k].status, s.records[k].body));
      } else {
        AnswerRecords(s, v, Response(409, "Idempotency key was already used for a different request."));
      }
    } else {
      NothingExecuted(s, v);
      VisitMoved(s, WithPhase(s, v, Handling), v);
    }
  }

  lemma FailRecords(s: State, v: nat, status: nat)
    requires RecordInv(s) && v < |s.visits| && s.visits[v].phase.Handling? && 400 <= status
    ensures RecordInv(Answer(s, v, Response(status, "")))
  {
    hide RecordInv;
    AnswerRecords(s, v, Response(status, ""));
  }

  lemma EnterRecords(s: State, v: nat)
    requires RecordInv(s) && v < |s.visits| && s.visits[v].phase.Waiting?
    ensures RecordInv(WithPhase(s, v, Entered))
  {
    VisitMoved(s, WithPhase(s, v, Entered), v);
  }

  /** The other visits of a key are not inside while `v` is. */
  lemma Alone(s: State, v: nat)
    requires LockInv(s) && Inside(s, v)
    ensures forall w: nat | w < |s.visits| && w != v && Key(s, w) == Key(s, v) :: !Inside(s, w)
  {
    hide LockInv;
    forall w: nat | w < |s.visits| && w != v && Key(s, w) == Key(s, v) ensures !Inside(s, w) {
      if Inside(s, w) { MutualExclusion(s, v, w); }
    }
  }

  lemma SucceedRecords(s: State, v: nat, data: string)
    requires LockInv(s) && RecordInv(s) && v < |s.visits| && s.visits[v].phase.Handling?
    ensures RecordInv(Next(s, Succeed(v, data)))
  {
    Alone(s, v);
    hide LockInv, Print, RecordInv;
    var t := Next(s, Succeed(v, data));
    SucceededRecords(s, t, v, data);
    SucceededVisits(s, t, v, data);
    SucceededAll(s, t);
  }

  lemma SucceededAll(s: State, t: State)
    requires OncePerKey(t) && (forall k | k in t.records :: Recorded(t, k)) && (forall w: nat | w < |t.visits| :: VisitInv(t, w)) && forall x | x in t.executions :: Stored(t, x)
    ensures RecordInv(t)
  {
    hide OncePerKey, Recorded, VisitInv;
  }

  /** The handler of visit `v` has succeeded. */
  ghost predicate SucceededOne(s: State, t: State, v: nat, data: string) {
    && v < |s.visits| == |t.visits| && s.visits[v].phase.Handling? && SameMessages(s, t)
    && t.executions == s.executions + [Execution(v, data)] && t.records == s.records
    && t.visits[v].phase == Saving(data) && forall w: nat | w < |s.visits| && w != v :: t.visits[w] == s.visits[w]
  }

  lemma SucceededRecords(s: State, t: State, v: nat, data: string)
    requires RecordInv(s) && SucceededOne(s, t, v, data)
    ensures OncePerKey(t) && (forall k | k in t.records :: Recorded(t, k)) && forall x | x in t.executions :: Stored(t, x)
  {
    hide Print;
    assert VisitInv(s, v);
    forall x | x in s.executions ensures KeyOf(t, x) == KeyOf(s, x) != Key(s, v) && Stored(t, x) {
      assert Stored(s, x);
    }
    OneMoreExecution(s, t, Execution(v, data));
    hide OncePerKey, Stored;
    forall k | k in t.records ensures Recorded(t, k) {
      assert Recorded(s, k);
      var x :| x in s.executions && Result(s, x, k, s.records[k].fingerprint, s.records[k].body);
      assert Result(t, x, k, t.records[k].fingerprint, t.records[k].body);
    }
  }

  lemma SucceededVisits(s: State, t: State, v: nat, data: string)
    requires RecordInv(s) && SucceededOne(s, t, v, data)
    requires forall w: nat | w < |s.visits| && w != v && Key(s, w) == Key(s, v) :: !Inside(s, w)
    ensures forall w: nat | w < |t.visits| :: VisitInv(t, w)
  {
    hide Print, OncePerKey, Recorded, Stored;
    assert VisitInv(s, v);
    forall w: nat | w < |t.visits| ensures VisitInv(t, w) {
      assert VisitInv(s, w);
    }
  }

  lemma OneMoreExecution(s: State, t: State, e: Execution)
    requires OncePerKey(s) && t.executions == s.executions + [e]
    requires forall x | x in s.executions :: KeyOf(t, x) == KeyOf(s, x) != KeyOf(t, e)
    ensures OncePerKey(t)
  {
    forall i, j | 0 <= i < j < |t.executions| ensures KeyOf(t, t.executions[i]) != KeyOf(t, t.executions[j]) {
      assert s.executions[i] in s.executions;
      assert j < |s.executions| ==> s.executions[j] in s.executions;
    }
  }

  /** Visit `v` is answered with its result, which is now on record. */
  ghost predicate SavedOne(s: State, t: State, v: nat, data: string, status: nat) {
    && v < |s.visits| == |t.visits| && s.visits[v].phase == Saving(data) && IsSuccess(status)
    && SameMessages(s, t) && t.executions == s.executions
    && t.records == s.records[Key(s, v) := Record(Print(s.visits[v].message.request), status, data)]
    && t.visits[v].phase == Answered(Response(status, data)) && forall w: nat | w < |s.visits| && w != v :: t.visits[w] == s.visits[w]
  }

  lemma SaveRecords(s: State, v: nat, status: nat)
    requires LockInv(s) && RecordInv(s) && v < |s.visits| && s.visits[v].phase.Saving? && IsSuccess(status)
    ensures RecordInv(SaveStep(s, v, status))
  {
    Alone(s, v);
    hide LockInv, RecordInv, Print;
    SavedRecords(s, SaveStep(s, v, status), v, s.visits[v].phase.data, status);
    SavedVisits(s, SaveStep(s, v, status), v, s.visits[v].phase.data, status);
    SavedAll(s, SaveStep(s, v, status), v);
  }

  lemma SavedAll(s: State, t: State, v: nat)
    requires RecordInv(s) && t.executions == s.executions && |t.visits| == |s.visits|
    requires OncePerKey(t) && (forall k | k in t.records :: Recorded(t, k)) && (forall w: nat | w < |t.visits| :: VisitInv(t, w)) && forall x | x in t.executions :: Stored(t, x)
    ensures RecordInv(t)
  {
    hide OncePerKey, Recorded, VisitInv, Stored;
  }

  lemma SavedRecords(s: State, t: State, v: nat, data: string, status: nat)
    requires RecordInv(s) && SavedOne(s, t, v, data, status)
    ensures OncePerKey(t) && (forall k | k in t.records :: Recorded(t, k)) && forall x | x in t.executions :: Stored(t, x)
  {
    hide Print;
    var k := Key(s, v);
    assert VisitInv(s, v);
    forall x | x in s.executions ensures KeyOf(t, x) == KeyOf(s, x) && Stored(t, x) {
      assert Stored(s, x);
    }
    SameExecutions(s, t);
    hide OncePerKey, Stored;
    assert Result(t, Execution(v, data), k, t.records[k].fingerprint, t.records[k].body);
    forall j | j in t.records ensures Recorded(t, j) {
      if j != k {
        assert Recorded(s, j);
        var x :| x in s.executions && Result(s, x, j, s.records[j].fingerprint, s.records[j].body);
        assert Result(t, x, j, t.records[j].fingerprint, t.records[j].body);
      }
    }
  }

  lemma SavedVisits(s: State, t: State, v: nat, data: string, status: nat)
    requires RecordInv(s) && SavedOne(s, t, v, data, status)
    requires forall w: nat | w < |s.visits| && w != v && Key(s, w) == Key(s, v) :: !Inside(s, w)
    ensures forall w: nat | w < |t.visits| :: VisitInv(t, w)
  {
    hide Print, OncePerKey, Recorded, Stored;
    assert VisitInv(s, v);
    forall w: nat | w < |t.visits| && w != v ensures VisitInv(t, w) {
      assert VisitInv(s, w) && t.visits[w] == s.visits[w];
    }
  }

  lemma SameExecutions(s: State, t: State)
    requires OncePerKey(s) && t.executions == s.executions && forall x | x in s.executions :: KeyOf(t, x) == KeyOf(s, x)
    ensures OncePerKey(t)
  {
    forall i, j | 0 <= i < j < |t.executions| ensures KeyOf(t, t.executions[i]) != KeyOf(t, t.executions[j]) {
      assert s.executions[i] in s.executions && s.executions[j] in s.executions;
    }
  }

  /******* Clients *******/

  ghost predicate ClientInv(s: State) {
    && (forall m | m in s.sent :: FromOp(s, m))
    && (forall v: nat | v < |s.visits| :: s.visits[v].message in s.sent)
    && (forall o: nat | o < |s.ops| :: OpInv(s, o))
    && WaitsFor(s.ops, s.inFlight)
    && forall c | c in s.calls :: Given(s.ops, c)
  }

  /** A client waits for exactly its operations that are not done. */
  ghost predicate WaitsFor(ops: seq<Op>, inFlight: map<(nat, Signature), nat>) {
    && (forall slot | slot in inFlight :: inFlight[slot] < |ops| && Slot(ops[inFlight[slot]]) == slot && !ops[inFlight[slot]].phase.Done?)
    && (forall o: nat | o < |ops| && !ops[o].phase.Done? :: Slot(ops[o]) in inFlight && inFlight[Slot(ops[o])] == o)
  }

  /** A call was given an operation of its own client for an equal write. */
  ghost predicate Given(ops: seq<Op>, c: Caller) {
    c.op < |ops| && Slot(ops[c.op]) == (c.client, SignatureOf(c.request))
  }

  /** A message is an attempt its operation has made, with the operation's key and its request as sent. */
  ghost predicate FromOp(s: State, m: Message) {
    m.op < |s.ops| && m.key == s.ops[m.op].key && m.request == Sent(s.ops[m.op].request) && 1 <= m.attempt <= s.ops[m.op].attempt
  }

  ghost predicate OpInv(s: State, o: nat)
    requires o < |s.ops|
  {
    && 1 <= s.ops[o].attempt <= MaxAttempts(s.ops[o].kind)
    && match s.ops[o].phase
       case Done(Some(response)) => HasAnswer(s, o, response)
       case _ => true
  }

  /** The last attempt of the operation reached the server and was given this answer. */
  ghost predicate HasAnswer(s: State, o: nat, response: Response)
    requires o < |s.ops|
  {
    exists v: nat :: v < |s.visits| && s.visits[v].message.op == o && s.visits[v].message.attempt == s.ops[o].attempt && s.visits[v].phase == Answered(response)
  }

  /** Server steps leave the clients alone and forget no answer. */
  ghost predicate ServerOnly(s: State, t: State) {
    && t.ops == s.ops && t.sent == s.sent && t.calls == s.calls && t.inFlight == s.inFlight && SameMessages(s, t)
    && (forall v: nat | v < |t.visits| :: t.visits[v].message in s.sent)
    && forall v: nat | v < |s.visits| && s.visits[v].phase.Answered? :: t.visits[v] == s.visits[v]
  }

  lemma ServerKeepsClients(s: State, t: State)
    requires ClientInv(s) && ServerOnly(s, t)
    ensures ClientInv(t)
  {
    hide Slot, Given, WaitsFor;
    forall o: nat | o < |t.ops| ensures OpInv(t, o) {
      assert OpInv(s, o);
      if s.ops[o].phase.Done? && s.ops[o].phase.result.Some? {
        var v: nat :| v < |s.visits| && s.visits[v].message.op == o && s.visits[v].message.attempt == s.ops[o].attempt && s.visits[v].phase == Answered(s.ops[o].phase.result.value);
        assert t.visits[v] == s.visits[v];
      }
    }
  }

  /** One visit more, or one visit that is not answered yet moved on. */
  ghost predicate OneVisit(s: State, t: State) {
    && t.ops == s.ops && t.sent == s.sent && t.calls == s.calls && t.inFlight == s.inFlight
    && ((exists x :: t.visits == s.visits + [x] && x.message in s.sent) ||
        (exists v: nat, phase :: v < |s.visits| && !s.visits[v].phase.Answered? && t.visits == s.visits[v := s.visits[v].(phase := phase)]))
  }

  lemma OneVisitOnly(s: State, t: State)
    requires ClientInv(s) && OneVisit(s, t)
    ensures ServerOnly(s, t)
  {
    hide OpInv, WaitsFor, Given, FromOp;
  }

  lemma ServerMoves(s: State, t: State, v: nat, phase: Phase)
    requires t.ops == s.ops && t.sent == s.sent && t.calls == s.calls && t.inFlight == s.inFlight && v < |s.visits| && !s.visits[v].phase.Answered? && t.visits == s.visits[v := s.visits[v].(phase := phase)]
    ensures OneVisit(s, t)
  {}

  lemma ServerStep(s: State, a: Action)
    requires Possible(s, a) && ClientInv(s) && (a.Receive? || a.Enter? || a.Check? || a.Succeed? || a.Fail? || a.Save?)
    ensures ServerOnly(s, Next(s, a))
  {
    OpenVisit(s, a);
    hide Print, ClientInv, ServerOnly, OneVisit, Possible, AfterFailure, AfterResponse, CheckStep, SaveStep, ReceiveStep;
    var t := Next(s, a);
    match a {
    case Receive(m) => OneMoreVisit(s, t, m);
    case Enter(v) => ServerMoves(s, t, v, Entered);
    case Check(v) => CheckMoves(s, v);
    case Succeed(v, data) => ServerMoves(s, t, v, Saving(data));
    case Fail(v, status) => ServerMoves(s, t, v, Answered(Response(status, "")));
    case Save(v, status) => SaveMoves(s, v, status);
    }
    OneVisitOnly(s, t);
  }

  lemma CheckMoves(s: State, v: nat)
    requires v < |s.visits| && !s.visits[v].phase.Answered?
    ensures OneVisit(s, CheckStep(s, v))
  {
    CheckShape(s, v);
    hide OneVisit, CheckStep;
    ServerMoves(s, CheckStep(s, v), v, CheckStep(s, v).visits[v].phase);
  }

  lemma AnswerShape(s: State, v: nat, response: Response)
    requires v < |s.visits|
    ensures Answer(s, v, response) == s.(visits := s.visits[v := s.visits[v].(phase := Answered(response))], locks := Answer(s, v, response).locks)
  {}

  lemma CheckShape(s: State, v: nat)
    requires v < |s.visits|
    ensures var t := CheckStep(s, v);
            |t.visits| == |s.visits| && t == s.(visits := s.visits[v := s.visits[v].(phase := t.visits[v].phase)], locks := t.locks)
  {
    hide Print, Answer;
    var k := Key(s, v);
    if k in s.records {
      AnswerShape(s, v, Response(s.records[k].status, s.records[k].body));
      AnswerShape(s, v, Response(409, "Idempotency key was already used for a different request."));
    }
  }

  /** Server steps leave calls and operations alone. */
  lemma ServerShape(s: State, a: Action)
    requires Possible(s, a) && (a.Receive? || a.Enter? || a.Check? || a.Succeed? || a.Fail? || a.Save?)
    ensures Next(s, a).ops == s.ops && Next(s, a).calls == s.calls
  {
    hide Print, Answer, CheckStep;
    match a
    case Check(v) => CheckShape(s, v);
    case Fail(v, status) => AnswerShape(s, v, Response(status, ""));
    case Save(v, status) =>
      var data, m := s.visits[v].phase.data, s.visits[v].message;
      AnswerShape(s.(records := s.records[m.key := Record(Print(m.request), status, data)]), v, Response(status, data));
    case _ =>
  }

  lemma SaveMoves(s: State, v: nat, status: nat)
    requires v < |s.visits| && s.visits[v].phase.Saving?
    ensures OneVisit(s, SaveStep(s, v, status))
  {
    hide Print, OneVisit;
    ServerMoves(s, SaveStep(s, v, status), v, Answered(Response(status, s.visits[v].phase.data)));
  }

  lemma OpenVisit(s: State, a: Action)
    requires Possible(s, a)
    ensures a.Receive? ==> a.message in s.sent
    ensures a.Enter? || a.Check? || a.Succeed? || a.Fail? || a.Save? ==> a.visit < |s.visits| && !s.visits[a.visit].phase.Answered?
    ensures a.Save? ==> s.visits[a.visit].phase.Saving?
  {}

  lemma OneMoreVisit(s: State, t: State, m: Message)
    requires m in s.sent && t == ReceiveStep(s, m)
    ensures OneVisit(s, t)
  {
    assert t.visits == s.visits + [t.visits[|s.visits|]];
  }

  lemma CallClients(s: State, client: nat, key: string, request: Request)
    requires ClientInv(s)
    ensures ClientInv(CallStep(s, client, key, request))
  {
    hide Slot, Given, WaitsFor;
    CallWaits(s, client, key, request);
    var t := CallStep(s, client, key, request);
    forall o: nat | o < |t.ops| ensures OpInv(t, o) {
      assert o < |s.ops| ==> OpInv(s, o);
    }
    forall m | m in t.sent ensures FromOp(t, m) {
      assert FromOp(s, m);
    }
  }

  lemma CallWaits(s: State, client: nat, key: string, request: Request)
    requires WaitsFor(s.ops, s.inFlight) && forall c | c in s.calls :: Given(s.ops, c)
    ensures var t := CallStep(s, client, key, request); WaitsFor(t.ops, t.inFlight) && forall c | c in t.calls :: Given(t.ops, c)
  {
    hide SignatureOf;
    var t, slot := CallStep(s, client, key, request), (client, SignatureOf(request));
    forall o: nat | o < |t.ops| && !t.ops[o].phase.Done? ensures Slot(t.ops[o]) in t.inFlight && t.inFlight[Slot(t.ops[o])] == o {
      if o < |s.ops| && slot !in s.inFlight {
        assert Slot(s.ops[o]) != slot;
      }
    }
    forall c | c in s.calls ensures Given(t.ops, c) {
      assert Given(s.ops, c);
    }
  }

  /** An operation goes on with the same key and request, in the next attempt at most. */
  ghost predicate GoesOn(op: Op, after: Op) {
    && after.key == op.key && after.request == op.request && after.client == op.client && after.kind == op.kind
    && op.attempt <= after.attempt <= MaxAttempts(op.kind) && !op.phase.Done?
  }

  lemma OpMoved(s: State, t: State, o: nat)
    requires ClientInv(s) && o < |s.ops| == |t.ops| && t == WithOp(s.(sent := t.sent), o, t.ops[o])
    requires GoesOn(s.ops[o], t.ops[o]) && OpInv(t, o) && s.sent <= t.sent && forall m | m in t.sent && m !in s.sent :: FromOp(t, m)
    ensures ClientInv(t)
  {
    hide Slot, Given, WaitsFor;
    OpWaits(s, t, o);
    forall p: nat | p < |t.ops| && p != o ensures OpInv(t, p) {
      assert OpInv(s, p);
    }
    forall m | m in s.sent ensures FromOp(t, m) {
      assert FromOp(s, m);
    }
  }

  lemma OpWaits(s: State, t: State, o: nat)
    requires WaitsFor(s.ops, s.inFlight) && (forall c | c in s.calls :: Given(s.ops, c))
    requires o < |s.ops| == |t.ops| && t == WithOp(s.(sent := t.sent), o, t.ops[o]) && GoesOn(s.ops[o], t.ops[o])
    ensures WaitsFor(t.ops, t.inFlight) && forall c | c in t.calls :: Given(t.ops, c)
  {
    hide SignatureOf;
    assert Slot(t.ops[o]) == Slot(s.ops[o]);
    forall c | c in s.calls ensures Given(t.ops, c) {
      assert Given(s.ops, c);
    }
  }

  lemma OpStep(s: State, a: Action)
    requires ClientInv(s) && Possible(s, a) && (a.Send? || a.Lose? || a.Take?)
    ensures ClientInv(Next(s, a))
  {
    hide Slot, Given, WaitsFor, FromOp;
    var t := Next(s, a);
    assert OpInv(s, a.op);
    match a
    case Send(o) =>
      assert FromOp(t, Message(o, s.ops[o].attempt, s.ops[o].key, Sent(s.ops[o].request))) by { NewMessage(s, t, o); }
      OpMoved(s, t, o);
    case Lose(o) => OpMoved(s, t, o);
    case Take(o, v) => OpMoved(s, t, o);
  }

  lemma NewMessage(s: State, t: State, o: nat)
    requires Possible(s, Send(o)) && t == Next(s, Send(o)) && 1 <= s.ops[o].attempt
    ensures FromOp(t, Message(o, s.ops[o].attempt, s.ops[o].key, Sent(s.ops[o].request)))
  {}

  /******* Every run *******/

  ghost predicate Inv(s: State) {
    LockInv(s) && RecordInv(s) && ClientInv(s)
  }

  lemma InitialInv()
    ensures Inv(INITIAL)
  {}

  lemma ClientsKeepServer(s: State, t: State)
    requires t.visits == s.visits && t.locks == s.locks && t.records == s.records && t.executions == s.executions
    ensures LockInv(s) ==> LockInv(t)
    ensures RecordInv(s) ==> RecordInv(t)
  {
    if LockInv(s) {
      ClientsKeepLocks(s, t);
    }
    if RecordInv(s) {
      hide Print;
      RecordsKept(s, t);
      forall v: nat | v < |t.visits| ensures VisitInv(t, v) {
        assert VisitInv(s, v);
        OtherVisit(s, t, v);
      }
      forall e | e in t.executions ensures Stored(t, e) {
        assert Stored(s, e);
      }
    }
  }

  lemma ClientsKeepLocks(s: State, t: State)
    requires t.visits == s.visits && t.locks == s.locks && LockInv(s)
    ensures LockInv(t)
  {
    forall v: nat | v < |s.visits| ensures Key(t, v) == Key(s, v) && (Released(t, v) <==> Released(s, v)) {}
    forall v: nat | v < |s.visits| ensures AllBefore(s, v) ==> AllBefore(t, v) {}
  }

  lemma ServerLocks(s: State, a: Action)
    requires LockInv(s) && Possible(s, a) && (a.Receive? || a.Enter? || a.Check? || a.Succeed? || a.Fail? || a.Save?)
    ensures LockInv(Next(s, a))
  {
    hide LockInv, Print;
    match a
    case Receive(m) => ReceiveLock(s, m);
    case Enter(v) => EnterReady(s, v); PhaseLock(s, v, Entered);
    case Check(v) => CheckLock(s, v);
    case Succeed(v, data) =>
      PassedLock(s, v);
      PhaseLock(s, v, Saving(data));
      ClientsKeepLocks(WithPhase(s, v, Saving(data)), Next(s, a));
    case Fail(v, status) => AnswerLock(s, v, Response(status, ""));
    case Save(v, status) => SaveLock(s, v, status);
  }

  lemma CheckLock(s: State, v: nat)
    requires LockInv(s) && v < |s.visits| && s.visits[v].phase.Entered?
    ensures LockInv(CheckStep(s, v))
  {
    hide LockInv, Print, Answer;
    PassedLock(s, v);
    if Key(s, v) in s.records {
      AnswerLock(s, v, Response(s.records[Key(s, v)].status, s.records[Key(s, v)].body));
      AnswerLock(s, v, Response(409, "Idempotency key was already used for a different request."));
    } else {
      PhaseLock(s, v, Handling);
    }
  }

  lemma SaveLock(s: State, v: nat, status: nat)
    requires LockInv(s) && v < |s.visits| && s.visits[v].phase.Saving?
    ensures LockInv(SaveStep(s, v, status))
  {
    hide LockInv, Print;
    AnswerLock(s, v, Response(status, s.visits[v].phase.data));
    ClientsKeepLocks(Answer(s, v, Response(status, s.visits[v].phase.data)), SaveStep(s, v, status));
  }

  lemma PassedLock(s: State, v: nat)
    requires LockInv(s) && Inside(s, v)
    ensures AllBefore(s, v)
  {}

  lemma ServerRecords(s: State, a: Action)
    requires LockInv(s) && RecordInv(s) && Possible(s, a) && (a.Receive? || a.Enter? || a.Check? || a.Succeed? || a.Fail? || a.Save?)
    ensures RecordInv(Next(s, a))
  {
    hide LockInv, RecordInv;
    match a
    case Receive(m) => ReceiveRecords(s, m);
    case Enter(v) => EnterRecords(s, v);
    case Check(v) => CheckRecords(s, v);
    case Succeed(v, data) => SucceedRecords(s, v, data);
    case Fail(v, status) => FailRecords(s, v, status);
    case Save(v, status) => SaveRecords(s, v, status);
  }

  lemma NextInv(s: State, a: Action)
    requires Inv(s) && Possible(s, a)
    ensures Inv(Next(s, a))
  {
    hide LockInv, RecordInv, ClientInv, Possible;
    if a.Call? || a.Send? || a.Lose? || a.Take? {
      if a.Call? { CallClients(s, a.client, a.key, a.request); } else { OpStep(s, a); }
      ClientStepShape(s, a);
      ClientsKeepServer(s, Next(s, a));
    } else {
      ServerLocks(s, a);
      ServerRecords(s, a);
      ServerStep(s, a);
      ServerKeepsClients(s, Next(s, a));
    }
  }

  lemma ClientStepShape(s: State, a: Action)
    requires Possible(s, a) && (a.Call? || a.Send? || a.Lose? || a.Take?)
    ensures var t := Next(s, a); t.visits == s.visits && t.locks == s.locks && t.records == s.records && t.executions == s.executions
  {}

  lemma {:induction false} RunInv(actions: seq<Action>)
    ensures Inv(Run(actions))
  {
    hide Inv, Possible;
    if actions == [] {
      InitialInv();
    } else {
      var s, a := Run(actions[..|actions| - 1]), actions[|actions| - 1];
      RunInv(actions[..|actions| - 1]);
      if Possible(s, a) {
        NextInv(s, a);
      }
    }
  }

  /** Whatever the network loses, repeats or delays: the handler succeeds at most once for each key, and an
      operation that ends in success has the result of that one execution, which was of an equal request.
      This holds for any number of clients, also when several send equal writes or use one key at a time. */
  lemma AtMostOnce(actions: seq<Action>)
    ensures var s := Run(actions); OncePerKey(s) && forall o: nat | o < |s.ops| :: TrueSuccess(s, o)
  {
    hide LockInv, Run, Print, Slot, WaitsFor, Given;
    RunInv(actions);
    var s := Run(actions);
    forall o: nat | o < |s.ops| ensures TrueSuccess(s, o) {
      assert OpInv(s, o);
      if s.ops[o].phase.Done? && s.ops[o].phase.result.Some? && IsSuccess(s.ops[o].phase.result.value.status) {
        SuccessIsTrue(s, o);
      }
    }
  }

  /** The execution was under the operation's key, of the request that the operation sends, and gave `body`. */
  ghost predicate ResultOf(s: State, e: Execution, op: Op, body: string) {
    e.visit < |s.visits| && Key(s, e.visit) == op.key && s.visits[e.visit].message.request == Sent(op.request) && e.data == body
  }

  ghost predicate TrueSuccess(s: State, o: nat)
    requires o < |s.ops|
  {
    match s.ops[o].phase
    case Done(Some(response)) =>
      IsSuccess(response.status) ==> exists e :: e in s.executions && ResultOf(s, e, s.ops[o], response.body)
    case _ => true
  }

  lemma SuccessIsTrue(s: State, o: nat)
    requires RecordInv(s) && ClientInv(s) && o < |s.ops| && s.ops[o].phase.Done? && s.ops[o].phase.result.Some? && IsSuccess(s.ops[o].phase.result.value.status)
    ensures TrueSuccess(s, o)
  {
    hide Print, Slot, WaitsFor, Given, OncePerKey;
    var response := s.ops[o].phase.result.value;
    assert OpInv(s, o);
    var v: nat :| v < |s.visits| && s.visits[v].message.op == o && s.visits[v].phase == Answered(response);
    assert FromOp(s, s.visits[v].message) && VisitInv(s, v) && Recorded(s, Key(s, v));
    var e :| e in s.executions && Result(s, e, Key(s, v), s.records[Key(s, v)].fingerprint, s.records[Key(s, v)].body);
    assert FromOp(s, s.visits[e.visit].message);
    SentPrints(s.ops[s.visits[e.visit].message.op].request, s.ops[o].request);
    assert ResultOf(s, e, s.ops[o], response.body);
  }

  /** Once a key has been executed, a visit with another request under that key is never in the handler,
      never stores anything and is never answered with success. */
  lemma ConflictNeverRuns(actions: seq<Action>, e: Execution, v: nat)
    requires var s := Run(actions);
             && e in s.executions && e.visit < |s.visits| && v < |s.visits| && Key(s, v) == Key(s, e.visit)
             && Print(s.visits[v].message.request) != Print(s.visits[e.visit].message.request)
    ensures var s := Run(actions);
            && !s.visits[v].phase.Handling? && !s.visits[v].phase.Saving?
            && (s.visits[v].phase.Answered? ==> !IsSuccess(s.visits[v].phase.response.status))
  {
    hide Run, LockInv, ClientInv;
    RunInv(actions);
    ConflictRefused(Run(actions), e, v);
  }

  lemma ConflictRefused(s: State, e: Execution, v: nat)
    requires RecordInv(s) && e in s.executions && e.visit < |s.visits| && v < |s.visits| && Key(s, v) == Key(s, e.visit)
    requires Print(s.visits[v].message.request) != Print(s.visits[e.visit].message.request)
    ensures !s.visits[v].phase.Handling? && !s.visits[v].phase.Saving?
    ensures s.visits[v].phase.Answered? ==> !IsSuccess(s.visits[v].phase.response.status)
  {
    hide Print;
    assert VisitInv(s, v);
    if s.visits[v].phase.Saving? {
      SameExecution(s, e, Execution(v, s.visits[v].phase.data));
    }
    if s.visits[v].phase.Answered? && IsSuccess(s.visits[v].phase.response.status) {
      assert Recorded(s, Key(s, v));
      var f :| f in s.executions && Result(s, f, Key(s, v), s.records[Key(s, v)].fingerprint, s.records[Key(s, v)].body);
      SameExecution(s, e, f);
    }
  }

  lemma SameExecution(s: State, e: Execution, f: Execution)
    requires OncePerKey(s) && e in s.executions && f in s.executions && KeyOf(s, e) == KeyOf(s, f)
    ensures e == f
  {
    var i :| 0 <= i < |s.executions| && s.executions[i] == e;
    var j :| 0 <= j < |s.executions| && s.executions[j] == f;
    assert i == j;
  }

  lemma CallsGrow(s: State, a: Action)
    requires Possible(s, a)
    ensures s.calls <= Next(s, a).calls
  {
    hide Print, SignatureOf, Answer, CheckStep, SaveStep, ReceiveStep;
    if a.Receive? || a.Enter? || a.Check? || a.Succeed? || a.Fail? || a.Save? {
      ServerShape(s, a);
    }
  }

  lemma {:induction false} CallsKept(actions: seq<Action>, n: nat)
    requires n <= |actions|
    ensures Run(actions[..n]).calls <= Run(actions).calls
    decreases |actions|
  {
    hide Possible, Next;
    if n == |actions| {
      assert actions[..n] == actions;
    } else {
      var m := |actions| - 1;
      assert actions[..m][..n] == actions[..n];
      CallsKept(actions[..m], n);
      if Possible(Run(actions[..m]), actions[m]) {
        CallsGrow(Run(actions[..m]), actions[m]);
      }
    }
  }

  /** When a client repeats a write that it is still waiting for, the two calls have one operation for good:
      one key, one answer and no further message. */
  lemma WritesDeduplicated(actions: seq<Action>, n: nat, i: nat)
    requires n < |actions| && actions[n].Call? && Possible(Run(actions[..n]), actions[n])
    requires var s := Run(actions[..n]);
             && i < |s.calls| && s.calls[i].client == actions[n].client && SignatureOf(s.calls[i].request) == SignatureOf(actions[n].request)
             && s.calls[i].op < |s.ops| && !s.ops[s.calls[i].op].phase.Done?
    ensures var s, t := Run(actions[..n]), Run(actions);
            && |s.calls| < |t.calls| && t.calls[|s.calls|] == Caller(actions[n].client, actions[n].request, s.calls[i].op)
            && t.calls[i] == s.calls[i] && Run(actions[..n + 1]).ops == s.ops
  {
    var s, a := Run(actions[..n]), actions[n];
    RunInv(actions[..n]);
    assert Given(s.ops, s.calls[i]) && WaitsFor(s.ops, s.inFlight);
    assert Next(s, a).calls == s.calls + [Caller(a.client, a.request, s.calls[i].op)] && Next(s, a).ops == s.ops;
    hide Inv, Possible, Next, SignatureOf, Slot;
    assert actions[..n + 1][..n] == actions[..n] && actions[..n + 1][n] == a;
    assert Run(actions[..n + 1]) == Next(s, a);
    CallsKept(actions, n + 1);
  }

  /** A write that equals none this client is still waiting for starts an operation of its own, with the new
      key and at its first attempt, even if an equal one was answered before. */
  lemma WritesApart(actions: seq<Action>, client: nat, key: string, request: Request)
    requires forall o: nat | o < |Run(actions).ops| && Slot(Run(actions).ops[o]) == (client, SignatureOf(request)) :: Run(actions).ops[o].phase.Done?
    ensures var s := Run(actions);
            var t := CallStep(s, client, key, request);
            t.ops == s.ops + [Op(client, key, request, IdempotentWrite, 1, Ready)] && t.calls == s.calls + [Caller(client, request, |s.ops|)]
  {
    hide Run, LockInv, RecordInv, Given, SignatureOf, OpInv, FromOp;
    RunInv(actions);
  }

  /** Every answered call has the answer that the server gave to the last attempt of its operation, and every
      call answered with success the result of the one execution under its operation's key. The executed
      request has the user of the operation and the method, path and body text that the call asked for, and it
      has the body that the call would have sent exactly when the operation was started with an equal one. */
  lemma CallsAnswered(actions: seq<Action>, i: nat)
    requires i < |Run(actions).calls|
    ensures var s := Run(actions);
            var c := s.calls[i];
            && c.op < |s.ops| && SignatureOf(s.ops[c.op].request) == SignatureOf(c.request)
            && (Wire(s.ops[c.op].request.body) == Wire(c.request.body) <==> s.ops[c.op].request.body == c.request.body)
            && match s.ops[c.op].phase
               case Done(Some(response)) =>
                 HasAnswer(s, c.op, response) && (IsSuccess(response.status) ==> exists e :: e in s.executions && ResultOf(s, e, s.ops[c.op], response.body))
               case _ => true
  {
    hide Run, LockInv, RecordInv, WaitsFor, Possible;
    RunInv(actions);
    AtMostOnce(actions);
    var s, c := Run(actions), Run(actions).calls[i];
    assert Given(s.ops, c);
    assert TrueSuccess(s, c.op) && OpInv(s, c.op);
    SameTextSameWireIff(s.ops[c.op].request.body, c.request.body);
  }

  /** Hence a call whose body has no array that is empty or a single `undefined` is always answered for the
      body it would have sent itself. */
  lemma PlainCallsAnswered(actions: seq<Action>, i: nat)
    requires i < |Run(actions).calls| && Plain(Run(actions).calls[i].request.body)
    ensures var s := Run(actions); s.calls[i].op < |s.ops| && s.ops[s.calls[i].op].request.body == s.calls[i].request.body
  {
    hide Run;
    CallsAnswered(actions, i);
    var s := Run(actions);
    StableStringifyIff(s.calls[i].request.body, s.ops[s.calls[i].op].request.body);
    PlainDetermined(s.calls[i].request.body, s.ops[s.calls[i].op].request.body);
  }

  /** For any other body there is one it is mistaken for: a call that repeats the write while the first is
      pending shares its operation, and would have sent something else. */
  lemma OthersMistaken(client: nat, key: string, r: Request)
    requires key != "" && r.verb !in {"GET", "HEAD", "OPTIONS"} && !Plain(r.body)
    ensures var q := r.(body := Flip(r.body));
            var s := Run([Call(client, key, q), Call(client, key, r)]);
            s.calls == [Caller(client, q, 0), Caller(client, r, 0)] && |s.ops| == 1 && s.ops[0].request == q && Sent(q) != Sent(r)
  {
    var q := r.(body := Flip(r.body));
    FlipSqueezes(r.body);
    StableStringifyIff(q.body, r.body);
    SameTextSameWireIff(q.body, r.body);
    hide Flip, Wire, StableStringify;
    assert SignatureOf(q) == SignatureOf(r);
    TwoCalls(client, key, q, r);
  }

  lemma TwoCalls(client: nat, key: string, q: Request, r: Request)
    requires key != "" && q.verb !in {"GET", "HEAD", "OPTIONS"} && r.verb == q.verb && SignatureOf(q) == SignatureOf(r)
    ensures var s := Run([Call(client, key, q), Call(client, key, r)]);
            s.calls == [Caller(client, q, 0), Caller(client, r, 0)] && |s.ops| == 1 && s.ops[0].request == q
  {
    hide SignatureOf;
    var first, second := Call(client, key, q), Call(client, key, r);
    assert [first, second][..1] == [first] && [first][..0] == [];
    assert Run([first]) == CallStep(INITIAL, client, key, q);
  }

  /** Answers of a key never mix: two operations under one key that both end in success sent the same
      request and got the same result. */
  lemma SameKeySameAnswer(actions: seq<Action>, o: nat, p: nat)
    requires var s := Run(actions);
             && o < |s.ops| && p < |s.ops| && s.ops[o].key == s.ops[p].key
             && s.ops[o].phase.Done? && s.ops[o].phase.result.Some? && IsSuccess(s.ops[o].phase.result.value.status)
             && s.ops[p].phase.Done? && s.ops[p].phase.result.Some? && IsSuccess(s.ops[p].phase.result.value.status)
    ensures var s := Run(actions);
            Sent(s.ops[o].request) == Sent(s.ops[p].request) && s.ops[o].phase.result.value.body == s.ops[p].phase.result.value.body
  {
    hide Run, Print, Inv, Possible, Sent;
    AtMostOnce(actions);
    var s := Run(actions);
    assert TrueSuccess(s, o) && TrueSuccess(s, p);
    var e :| e in s.executions && ResultOf(s, e, s.ops[o], s.ops[o].phase.result.value.body);
    var f :| f in s.executions && ResultOf(s, f, s.ops[p], s.ops[p].phase.result.value.body);
    SameExecution(s, e, f);
  }

  /******* Retries end *******/

  /** The client steps of an operation so far: two for each attempt, its send and its outcome. */
  function StepsTaken(op: Op): int {
    match op.phase
    case Ready => 2 * op.attempt - 2
    case Awaiting => 2 * op.attempt - 1
    case Done(_) => 2 * op.attempt
  }

  predicate StepOf(s: State, a: Action, o: nat) {
    (a.Send? || a.Lose? || a.Take?) && a.op == o && Possible(s, a)
  }

  function StepsMade(actions: seq<Action>, o: nat): nat {
    if actions == [] then 0
    else
      var init := actions[..|actions| - 1];
      StepsMade(init, o) + if StepOf(Run(init), actions[|actions| - 1], o) then 1 else 0
  }

  /** An operation makes exactly two steps for each attempt, and so at most twelve, however the network
      behaves. */
  lemma {:induction false} RetriesEnd(actions: seq<Action>, o: nat)
    ensures |Run(actions).ops| <= o ==> StepsMade(actions, o) == 0
    ensures o < |Run(actions).ops| ==> StepsMade(actions, o) == StepsTaken(Run(actions).ops[o]) <= 2 * MaxAttempts(Run(actions).ops[o].kind) <= 12
  {
    hide LockInv, RecordInv;
    if actions != [] {
      var init, a := actions[..|actions| - 1], actions[|actions| - 1];
      var s := Run(init);
      RetriesEnd(init, o);
      RunInv(init);
      if Possible(s, a) {
        StepCounted(s, a, o);
      }
    }
    RunInv(actions);
    assert o < |Run(actions).ops| ==> OpInv(Run(actions), o);
  }

  ghost predicate Counted(s: State, a: Action, o: nat, t: State) {
    && |s.ops| <= |t.ops|
    && (o < |s.ops| ==> StepsTaken(t.ops[o]) == StepsTaken(s.ops[o]) + if StepOf(s, a, o) then 1 else 0)
    && (|s.ops| <= o < |t.ops| ==> StepsTaken(t.ops[o]) == 0 && !StepOf(s, a, o))
    && (|t.ops| <= o ==> !StepOf(s, a, o))
  }

  lemma StepCounted(s: State, a: Action, o: nat)
    requires Possible(s, a)
    ensures Counted(s, a, o, Next(s, a))
  {
    hide Print, SignatureOf, CheckStep, SaveStep, ReceiveStep, Answer;
    if a.Check? || a.Save? || a.Fail? || a.Receive? {
      ServerShape(s, a);
    }
  }

  /** The lock of a key is never lost: as long as a visit is not answered, the earliest unanswered visit of
      its key can go on. */
  lemma LockNotLost(actions: seq<Action>, v: nat)
    requires v < |Run(actions).visits| && !Released(Run(actions), v)
    ensures var s := Run(actions);
            exists w: nat :: w <= v && Key(s, w) == Key(s, v) && !Released(s, w) && GoesOnAt(s, w)
  {
    hide Run, RecordInv, ClientInv;
    RunInv(actions);
    var s := Run(actions);
    hide LockInv, AllBefore, GoesOnAt;
    var w := FirstUnanswered(s, v);
    FirstGoesOn(s, w);
  }

  lemma FirstGoesOn(s: State, w: nat)
    requires LockInv(s) && w < |s.visits| && !Released(s, w) && AllBefore(s, w)
    ensures GoesOnAt(s, w)
  {
    if s.visits[w].phase.Waiting? {
      assert Behind(s, w, s.visits[w].phase.previous);
    }
  }

  /** Some server step of the visit is possible. */
  predicate GoesOnAt(s: State, w: nat) {
    Possible(s, Enter(w)) || Possible(s, Check(w)) || Possible(s, Succeed(w, "")) || Possible(s, Save(w, 200))
  }

  lemma {:induction false} FirstUnanswered(s: State, v: nat) returns (w: nat)
    requires v < |s.visits| && !Released(s, v)
    ensures w <= v && Key(s, w) == Key(s, v) && !Released(s, w) && AllBefore(s, w)
    decreases v
  {
    if AllBefore(s, v) {
      w := v;
    } else {
      var q: nat :| q < v && Key(s, q) == Key(s, v) && !Released(s, q);
      w := FirstUnanswered(s, q);
    }
  }

  /** The retry loop, given how each attempt turns out: a response, or none when the network failed. It
      ends with the first outcome that is not to be retried, or with the last attempt. */
  method RequestLoop(kind: OperationKind, outcomes: seq<Option<Response>>) returns (result: Option<Response>, attempts: nat)
    requires |outcomes| >= MaxAttempts(kind)
    ensures 1 <= attempts <= MaxAttempts(kind) && result == outcomes[attempts - 1]
    ensures forall i | 0 <= i < attempts - 1 :: outcomes[i].None? || IsLanFailure(outcomes[i].value.status)
    ensures attempts < MaxAttempts(kind) ==> result.Some? && !IsLanFailure(result.value.status)
  {
    attempts := 1;
    while true
      invariant 1 <= attempts <= MaxAttempts(kind)
      invariant forall i | 0 <= i < attempts - 1 :: outcomes[i].None? || IsLanFailure(outcomes[i].value.status)
      decreases MaxAttempts(kind) - attempts
    {
      result := outcomes[attempts - 1];
      if result.Some? && !(IsLanFailure(result.value.status) && ShouldRetry(kind, attempts)) { return; }
      if result.None? && !ShouldRetry(kind, attempts) { return; }
      attempts := attempts + 1;
    }
  }

  /******* What a retrying client ends with *******/

  /** How an attempt turned out: a response, or none when the network failed. */
  function AfterAttempt(op: Op, outcome: Option<Response>): Op {
    match outcome
    case None => AfterFailure(op)
    case Some(response) => AfterResponse(op, response)
  }

  /** The operation after its attempts turned out as given, as long as it goes on. */
  function AfterAttempts(op: Op, outcomes: seq<Option<Response>>): Op {
    if outcomes == [] then op
    else
      var before := AfterAttempts(op, outcomes[..|outcomes| - 1]);
      if before.phase.Ready? then AfterAttempt(before.(phase := Awaiting), outcomes[|outcomes| - 1]) else before
  }

  predicate WorthRetrying(outcome: Option<Response>) {
    match outcome
    case None => true
    case Some(response) => response.status == 408 || response.status == 425 || response.status == 429 || response.status == 500 || 502 <= response.status <= 504
  }

  /** Reads and writes with a key have six attempts, other writes one. */
  function Chances(kind: OperationKind): nat {
    if kind.UnsafeWrite? then 1 else 6
  }

  /** An attempt is followed by another one exactly when it is worth retrying and not the last; otherwise its
      outcome is that of the operation. */
  lemma AttemptDecides(op: Op, outcome: Option<Response>)
    ensures var after := AfterAttempt(op, outcome);
            if WorthRetrying(outcome) && op.attempt < Chances(op.kind) then after == op.(attempt := op.attempt + 1, phase := Ready)
            else after == op.(phase := Done(outcome))
  {}

  /** Attempts that are worth retrying are followed by the next; the first that is not, or the last there is,
      decides. So a write whose first five attempts are lost or answered 503 and whose sixth is answered 200
      ends in success. */
  lemma {:induction false} FirstAnswerDecides(op: Op, outcomes: seq<Option<Response>>)
    requires op.phase.Ready? && op.attempt == 1 && 1 <= |outcomes| <= Chances(op.kind)
    requires forall k | 0 <= k < |outcomes| - 1 :: WorthRetrying(outcomes[k])
    ensures var last := outcomes[|outcomes| - 1];
            AfterAttempts(op, outcomes) ==
            if WorthRetrying(last) && |outcomes| < Chances(op.kind) then op.(attempt := |outcomes| + 1)
            else op.(attempt := |outcomes|, phase := Done(last))
    decreases |outcomes|
  {
    hide AfterAttempt, WorthRetrying;
    var init, last := outcomes[..|outcomes| - 1], outcomes[|outcomes| - 1];
    if init == [] {
      assert AfterAttempts(op, init) == op;
      AttemptDecides(op.(phase := Awaiting), last);
    } else {
      FirstAnswerDecides(op, init);
      assert init[|init| - 1] == outcomes[|outcomes| - 2];
      AttemptDecides(AfterAttempts(op, init).(phase := Awaiting), last);
    }
  }
}
