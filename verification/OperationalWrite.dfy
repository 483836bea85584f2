/** Concurrent writes to the in-memory stores (backend/db/operationalWrite.ts): a chain of promises lets
    one outer call run at a time, nested calls run inside it, and a call that throws puts every registered
    store back. */
module OperationalWrite {
  import opened Results

  /** The registered stores, in the order of their registration. */
  type Stores = seq<map<string, string>>

  /** What a callback does between two awaits: change the stores or throw, or call a function that is itself
      wrapped, with or without catching what it throws. */
  datatype Act = Change(apply: Stores -> Option<Stores>) | Nested(body: seq<Act>, caught: bool)

  /** A callback run on its own: the stores it leaves and whether it returned. */
  function RunBody(acts: seq<Act>, s: Stores): (Stores, bool) {
    if acts == [] then (s, true)
    else
      match acts[0]
      case Change(apply) => (match apply(s) case None => (s, false) case Some(t) => RunBody(acts[1..], t))
      case Nested(body, caught) =>
        var inner := RunBody(body, s);
        if inner.1 || caught then RunBody(acts[1..], inner.0) else inner
  }

  function BodyOf(bodies: seq<seq<Act>>, w: nat): seq<Act> {
    if w < |bodies| then bodies[w] else []
  }

  /** The calls one after another; one that throws leaves the stores as they were before it. */
  function Serial(bodies: seq<seq<Act>>, order: seq<nat>, s: Stores): Stores {
    if order == [] then s
    else
      var before := Serial(bodies, order[..|order| - 1], s);
      var result := RunBody(BodyOf(bodies, order[|order| - 1]), before);
      if result.1 then result.0 else before
  }

  /******* The machine *******/

  /** A function that is being executed: what is left of it, and whether its caller catches. */
  datatype Frame = Frame(rest: seq<Act>, caught: bool)

  datatype Status =
    | Idle
    | Waiting(previous: nat)
    | Running(frames: seq<Frame>, snapshot: Stores)
    | Finished(returned: bool)

  /** Promise 0 is resolved from the start; call `w` creates promise w + 1. */
  datatype State = State(calls: seq<Status>, pending: nat, resolved: set<nat>, stores: Stores, arrivals: seq<nat>)

  function Initial(n: nat, s: Stores): State {
    State(seq(n, i => Idle), 0, {0}, s, [])
  }

  /** The frames left after a throw: those below the nearest one whose caller catches. */
  function Unwind(frames: seq<Frame>): Option<seq<Frame>> {
    if frames == [] then None
    else if frames[|frames| - 1].caught then Some(frames[..|frames| - 1])
    else Unwind(frames[..|frames| - 1])
  }

  /** withOperationalWrite by an outer caller: queue behind the pending promise. */
  function Arrive(s: State, w: nat): State
    requires w < |s.calls|
  {
    s.(calls := s.calls[w := Waiting(s.pending)], pending := w + 1, arrivals := s.arrivals + [w])
  }

  /** The awaited promise is resolved: take the snapshots and enter the callback. */
  function Enter(bodies: seq<seq<Act>>, s: State, w: nat): State
    requires w < |s.calls|
  {
    s.(calls := s.calls[w := Running([Frame(BodyOf(bodies, w), false)], s.stores)])
  }

  function Return(s: State, w: nat): State
    requires w < |s.calls|
  {
    s.(calls := s.calls[w := Finished(true)], resolved := s.resolved + {w + 1})
  }

  /** Restore every store and release the lock. */
  function Fail(s: State, w: nat): State
    requires w < |s.calls| && s.calls[w].Running?
  {
    s.(calls := s.calls[w := Finished(false)], stores := s.calls[w].snapshot, resolved := s.resolved + {w + 1})
  }

  /** One step of the running call. A nested call finds the active flag set and runs right here. */
  function Execute(s: State, w: nat): State
    requires w < |s.calls| && s.calls[w].Running?
  {
    var frames, snapshot := s.calls[w].frames, s.calls[w].snapshot;
    if frames == [] then Return(s, w)
    else
      var init, top := frames[..|frames| - 1], frames[|frames| - 1];
      if top.rest == [] then s.(calls := s.calls[w := Running(init, snapshot)])
      else
        match top.rest[0]
        case Nested(body, caught) =>
          s.(calls := s.calls[w := Running(init + [top.(rest := top.rest[1..])] + [Frame(body, caught)], snapshot)])
        case Change(apply) =>
          match apply(s.stores)
          case Some(t) => s.(calls := s.calls[w := Running(init + [top.(rest := top.rest[1..])], snapshot)], stores := t)
          case None =>
            match Unwind(frames)
            case Some(below) => s.(calls := s.calls[w := Running(below, snapshot)])
            case None => Fail(s, w)
  }

  predicate Enabled(s: State, w: nat) {
    w < |s.calls| && (s.calls[w].Waiting? ==> s.calls[w].previous in s.resolved) && !s.calls[w].Finished?
  }

  /** Any call that can go on may be the next to do so. */
  function Step(bodies: seq<seq<Act>>, s: State, w: nat): State
    requires Enabled(s, w)
  {
    match s.calls[w]
    case Idle => Arrive(s, w)
    case Waiting(_) => Enter(bodies, s, w)
    case Running(_, _) => Execute(s, w)
    case Finished(_) => s
  }

  /******* What the frames still have to do *******/

  function RunFrames(frames: seq<Frame>, s: Stores): (Stores, bool)
    decreases |frames|, 1
  {
    if frames == [] then (s, true)
    else
      var top := RunBody(frames[|frames| - 1].rest, s);
      if top.1 then RunFrames(frames[..|frames| - 1], top.0) else AfterThrow(frames, top.0)
  }

  function AfterThrow(frames: seq<Frame>, s: Stores): (Stores, bool)
    decreases |frames|, 0
  {
    if frames == [] then (s, false)
    else if frames[|frames| - 1].caught then RunFrames(frames[..|frames| - 1], s)
    else AfterThrow(frames[..|frames| - 1], s)
  }

  lemma {:induction false} UnwindMeaning(frames: seq<Frame>, s: Stores)
    ensures AfterThrow(frames, s) == match Unwind(frames) case Some(below) => RunFrames(below, s) case None => (s, false)
  {
    if frames != [] {
      UnwindMeaning(frames[..|frames| - 1], s);
    }
  }

  /** A step of the running call leaves its outcome as it is, or is the end of it. */
  lemma ExecuteMeaning(s: State, w: nat)
    requires w < |s.calls| && s.calls[w].Running?
    ensures var after, before := Execute(s, w), s.calls[w];
            && |after.calls| == |s.calls| && (forall k | 0 <= k < |s.calls| && k != w :: after.calls[k] == s.calls[k])
            && after.pending == s.pending && after.arrivals == s.arrivals
            && (after.calls[w].Running? ==> (after.calls[w].snapshot == before.snapshot && after.resolved == s.resolved
                                             && RunFrames(after.calls[w].frames, after.stores) == RunFrames(before.frames, s.stores)))
            && (!after.calls[w].Running? ==> after.resolved == s.resolved + {w + 1})
            && (after.calls[w] == Finished(true) ==> RunFrames(before.frames, s.stores) == (s.stores, true) && after.stores == s.stores)
            && (after.calls[w] == Finished(false) ==> !RunFrames(before.frames, s.stores).1 && after.stores == before.snapshot)
            && (after.calls[w].Running? || after.calls[w].Finished?)
  {
    var frames := s.calls[w].frames;
    if frames != [] {
      var init, top := frames[..|frames| - 1], frames[|frames| - 1];
      if top.rest != [] {
        UnwindMeaning(frames, s.stores);
        match top.rest[0]
        case Nested(body, caught) => NestedMeaning(init, top, s.stores);
        case Change(apply) =>
          if apply(s.stores).Some? {
            var next := init + [top.(rest := top.rest[1..])];
            assert next[..|next| - 1] == init;
            SameBelow(frames, next, apply(s.stores).value);
          }
      }
    }
  }

  /** Frames that differ only in what is left of the top one unwind alike. */
  lemma SameBelow(frames: seq<Frame>, next: seq<Frame>, s: Stores)
    requires |frames| == |next| > 0 && frames[..|frames| - 1] == next[..|next| - 1] && frames[|frames| - 1].caught == next[|next| - 1].caught
    ensures forall t :: AfterThrow(frames, t) == AfterThrow(next, t)
  {}

  lemma NestedMeaning(init: seq<Frame>, top: Frame, s: Stores)
    requires top.rest != [] && top.rest[0].Nested?
    ensures RunFrames(init + [top.(rest := top.rest[1..])] + [Frame(top.rest[0].body, top.rest[0].caught)], s) == RunFrames(init + [top], s)
  {
    var frames, next, callee := init + [top], init + [top.(rest := top.rest[1..])], Frame(top.rest[0].body, top.rest[0].caught);
    assert frames[..|init|] == next[..|init|] == init;
    assert (next + [callee])[..|next|] == next;
    SameBelow(frames, next, s);
    var inner := RunBody(callee.rest, s);
    var rest := RunBody(top.rest[1..], inner.0);
    assert RunFrames(next, inner.0) == if rest.1 then RunFrames(init, rest.0) else AfterThrow(next, rest.0);
    assert AfterThrow(next + [callee], inner.0) == if callee.caught then RunFrames(next, inner.0) else AfterThrow(next, inner.0);
  }

  /******* Every interleaving is a serial run *******/

  /** The first `n` arrivals are over, the next one may be running and the others wait for their
      predecessors. */
  ghost predicate Queued(s: State, n: nat) {
    Listed(s) && n <= |s.arrivals| && Phases(s, n) && Locks(s, n)
  }

  /** Arrivals are listed once each; nobody else has started or holds a promise. */
  ghost predicate Listed(s: State) {
    && (forall k | 0 <= k < |s.arrivals| :: s.arrivals[k] < |s.calls|)
    && (forall j, k | 0 <= j < k < |s.arrivals| :: s.arrivals[j] != s.arrivals[k])
    && (forall w | 0 <= w < |s.calls| && !s.calls[w].Idle? :: w in s.arrivals)
    && (forall p | p in s.resolved :: p == 0 || p - 1 in s.arrivals)
    && s.pending == Promise(s.arrivals, |s.arrivals|)
  }

  function StatusAt(s: State, k: nat): Status {
    if k < |s.arrivals| && s.arrivals[k] < |s.calls| then s.calls[s.arrivals[k]] else Idle
  }

  ghost predicate Phases(s: State, n: nat) {
    && (forall k: nat | k < n && k < |s.arrivals| :: StatusAt(s, k).Finished?)
    && (n < |s.arrivals| ==> StatusAt(s, n).Running? || StatusAt(s, n) == Waiting(Promise(s.arrivals, n)))
    && (forall k: nat | n < k < |s.arrivals| :: StatusAt(s, k) == Waiting(Promise(s.arrivals, k)))
  }

  /** The promises of the finished calls are resolved, no other. */
  ghost predicate Locks(s: State, n: nat) {
    forall k | 0 <= k <= |s.arrivals| :: Promise(s.arrivals, k) in s.resolved <==> k <= n
  }

  /** The stores are those of the serial run of the first `n` arrivals, on the way to its next step, and
      each of them returned or threw as it does in that run. */
  ghost predicate Outcomes(bodies: seq<seq<Act>>, initial: Stores, s: State, n: nat)
    requires n <= |s.arrivals|
  {
    && (forall k | 0 <= k < n :: Returned(s, k) == RunBody(BodyOf(bodies, s.arrivals[k]), Serial(bodies, s.arrivals[..k], initial)).1)
    && if RunningAt(s, n) then InProgress(bodies, Serial(bodies, s.arrivals[..n], initial), s, s.arrivals[n])
       else s.stores == Serial(bodies, s.arrivals[..n], initial)
  }

  predicate RunningAt(s: State, k: nat) {
    k < |s.arrivals| && s.arrivals[k] < |s.calls| && s.calls[s.arrivals[k]].Running?
  }

  predicate Returned(s: State, k: nat) {
    k < |s.arrivals| && s.arrivals[k] < |s.calls| && s.calls[s.arrivals[k]] == Finished(true)
  }

  ghost predicate InvAt(bodies: seq<seq<Act>>, initial: Stores, s: State, n: nat) {
    Queued(s, n) && Outcomes(bodies, initial, s, n)
  }

  /** The promise of the arrival before the k-th. */
  function Promise(arrivals: seq<nat>, k: nat): nat
    requires k <= |arrivals|
  {
    if k == 0 then 0 else arrivals[k - 1] + 1
  }

  ghost predicate InProgress(bodies: seq<seq<Act>>, before: Stores, s: State, w: nat)
    requires w < |s.calls| && s.calls[w].Running?
  {
    s.calls[w].snapshot == before && RunFrames(s.calls[w].frames, s.stores) == RunBody(BodyOf(bodies, w), before)
  }

  ghost predicate Inv(bodies: seq<seq<Act>>, initial: Stores, s: State) {
    exists n :: InvAt(bodies, initial, s, n)
  }

  lemma InitialInv(bodies: seq<seq<Act>>, initial: Stores)
    ensures Inv(bodies, initial, Initial(|bodies|, initial))
  {
    assert InvAt(bodies, initial, Initial(|bodies|, initial), 0);
  }

  lemma SerialNext(bodies: seq<seq<Act>>, order: seq<nat>, n: nat, s: Stores)
    requires n < |order|
    ensures Serial(bodies, order[..n + 1], s)
            == var before := Serial(bodies, order[..n], s); var result := RunBody(BodyOf(bodies, order[n]), before); if result.1 then result.0 else before
  {
    assert order[..n + 1][..n] == order[..n];
  }

  lemma IdleUnlisted(s: State, n: nat, w: nat)
    requires Queued(s, n) && w < |s.calls| && s.calls[w].Idle?
    ensures w !in s.arrivals && w + 1 !in s.resolved
  {
    forall k | 0 <= k < |s.arrivals| ensures s.arrivals[k] != w {
      assert !StatusAt(s, k).Idle?;
    }
  }

  lemma ArriveListed(s: State, w: nat)
    requires Listed(s) && w < |s.calls| && w !in s.arrivals
    ensures Listed(Arrive(s, w))
  {
    var after := Arrive(s, w);
    forall v | 0 <= v < |after.calls| && !after.calls[v].Idle? ensures v in after.arrivals {
      assert v == w || v in s.arrivals;
    }
  }

  lemma ArriveQueued(s: State, n: nat, w: nat)
    requires Queued(s, n) && w < |s.calls| && s.calls[w].Idle?
    ensures Queued(Arrive(s, w), n) && w !in s.arrivals
  {
    IdleUnlisted(s, n, w);
    ArriveListed(s, w);
    var after, m := Arrive(s, w), |s.arrivals|;
    hide Listed;
    PromisesKept(s.arrivals, w);
    assert Locks(after, n);
    ArrivePhases(s, n, w);
  }

  lemma ArrivePhases(s: State, n: nat, w: nat)
    requires n <= |s.arrivals| && Phases(s, n) && w < |s.calls| && w !in s.arrivals && s.pending == Promise(s.arrivals, |s.arrivals|)
    ensures Phases(Arrive(s, w), n)
  {
    var after, m := Arrive(s, w), |s.arrivals|;
    PromisesKept(s.arrivals, w);
    forall k: nat | k < m ensures StatusAt(after, k) == StatusAt(s, k) {
      assert s.arrivals[k] in s.arrivals;
    }
    assert after.arrivals[m] == w;
    assert StatusAt(after, m) == Waiting(Promise(after.arrivals, m));
    hide StatusAt, Promise, Arrive;
  }

  lemma PromisesKept(arrivals: seq<nat>, w: nat)
    ensures forall k | 0 <= k <= |arrivals| :: Promise(arrivals + [w], k) == Promise(arrivals, k)
    ensures Promise(arrivals + [w], |arrivals| + 1) == w + 1
  {}

  lemma ArriveInv(bodies: seq<seq<Act>>, initial: Stores, s: State, n: nat, w: nat)
    requires InvAt(bodies, initial, s, n) && w < |s.calls| && s.calls[w].Idle?
    ensures InvAt(bodies, initial, Arrive(s, w), n)
  {
    hide RunBody, Serial, RunFrames, Listed, Phases, Locks;
    ArriveQueued(s, n, w);
    ArriveOutcomes(bodies, initial, s, n, w);
  }

  lemma ArriveOutcomes(bodies: seq<seq<Act>>, initial: Stores, s: State, n: nat, w: nat)
    requires n <= |s.arrivals| && Outcomes(bodies, initial, s, n) && w < |s.calls| && w !in s.arrivals
    ensures Outcomes(bodies, initial, Arrive(s, w), n)
  {
    hide RunBody, Serial, RunFrames;
    var after := Arrive(s, w);
    forall k | 0 <= k < n ensures Returned(after, k) == Returned(s, k) && after.arrivals[..k] == s.arrivals[..k] && after.arrivals[k] == s.arrivals[k] {
      assert s.arrivals[k] in s.arrivals;
    }
    assert after.arrivals[..n] == s.arrivals[..n];
    assert RunningAt(s, n) ==> s.arrivals[n] in s.arrivals;
  }

  lemma EnterQueued(bodies: seq<seq<Act>>, s: State, n: nat, w: nat)
    requires Queued(s, n) && w < |s.calls| && s.calls[w].Waiting? && s.calls[w].previous in s.resolved
    ensures n < |s.arrivals| && s.arrivals[n] == w && Queued(Enter(bodies, s, w), n)
  {
    var after := Enter(bodies, s, w);
    var k :| 0 <= k < |s.arrivals| && s.arrivals[k] == w;
    assert StatusAt(s, k) == Waiting(Promise(s.arrivals, k)) && k == n;
    EnterListed(bodies, s, n, w);
    hide Listed;
    assert Phases(after, n);
  }

  lemma EnterListed(bodies: seq<seq<Act>>, s: State, n: nat, w: nat)
    requires Listed(s) && w < |s.calls| && s.calls[w].Waiting? && n < |s.arrivals| && s.arrivals[n] == w
    ensures Listed(Enter(bodies, s, w))
    ensures forall j: nat :: StatusAt(Enter(bodies, s, w), j) == if j == n then Enter(bodies, s, w).calls[w] else StatusAt(s, j)
  {}

  lemma EnterInv(bodies: seq<seq<Act>>, initial: Stores, s: State, n: nat, w: nat)
    requires InvAt(bodies, initial, s, n) && w < |s.calls| && s.calls[w].Waiting? && s.calls[w].previous in s.resolved
    ensures InvAt(bodies, initial, Enter(bodies, s, w), n)
  {
    hide Serial;
    EnterQueued(bodies, s, n, w);
    OneFrame(BodyOf(bodies, w), s.stores);
  }

  lemma OneFrame(body: seq<Act>, s: Stores)
    ensures RunFrames([Frame(body, false)], s) == RunBody(body, s)
  {
    var f, r := Frame(body, false), RunBody(body, s);
    assert [f][..|[f]| - 1] == [];
    assert RunFrames([], r.0) == (r.0, true) && AfterThrow([], r.0) == (r.0, false);
  }

  lemma RunningIsNext(s: State, n: nat, w: nat)
    requires Queued(s, n) && w < |s.calls| && s.calls[w].Running?
    ensures n < |s.arrivals| && s.arrivals[n] == w
  {
    var k :| 0 <= k < |s.arrivals| && s.arrivals[k] == w;
    assert StatusAt(s, k).Running?;
  }

  /** Call `w`, the next arrival, goes on running or is over; nothing else changes. */
  ghost predicate Advanced(s: State, after: State, w: nat) {
    && w < |s.calls| == |after.calls| && (forall k | 0 <= k < |s.calls| && k != w :: after.calls[k] == s.calls[k])
    && after.pending == s.pending && after.arrivals == s.arrivals
    && if after.calls[w].Running? then after.resolved == s.resolved else after.calls[w].Finished? && after.resolved == s.resolved + {w + 1}
  }

  lemma ExecuteQueued(s: State, n: nat, w: nat)
    requires Queued(s, n) && w < |s.calls| && s.calls[w].Running?
    ensures n < |s.arrivals| && s.arrivals[n] == w
    ensures Queued(Execute(s, w), if Execute(s, w).calls[w].Running? then n else n + 1)
  {
    hide RunBody, RunFrames, Execute, Listed, Phases, Locks;
    ExecuteMeaning(s, w);
    RunningIsNext(s, n, w);
    AdvancedListed(s, Execute(s, w), n, w);
    AdvancedPhases(s, Execute(s, w), n, w);
    AdvancedLocks(s, Execute(s, w), n, w);
  }

  lemma AdvancedListed(s: State, after: State, n: nat, w: nat)
    requires Listed(s) && n < |s.arrivals| && s.arrivals[n] == w && Advanced(s, after, w)
    ensures Listed(after)
  {
    assert w in s.arrivals;
  }

  lemma AdvancedPhases(s: State, after: State, n: nat, w: nat)
    requires Listed(s) && n < |s.arrivals| && s.arrivals[n] == w && Advanced(s, after, w) && Listed(after) && Phases(s, n)
    ensures Phases(after, if after.calls[w].Running? then n else n + 1)
  {
    forall k | 0 <= k < |s.arrivals| && k != n ensures StatusAt(after, k) == StatusAt(s, k) {}
    assert StatusAt(after, n) == after.calls[w];
  }

  lemma AdvancedLocks(s: State, after: State, n: nat, w: nat)
    requires Listed(s) && n < |s.arrivals| && s.arrivals[n] == w && Advanced(s, after, w) && Locks(s, n)
    ensures Locks(after, if after.calls[w].Running? then n else n + 1)
  {
    forall k | 0 <= k <= |s.arrivals| ensures Promise(s.arrivals, k) == w + 1 <==> k == n + 1 {}
  }

  lemma ExecuteInv(bodies: seq<seq<Act>>, initial: Stores, s: State, n: nat, w: nat)
    requires InvAt(bodies, initial, s, n) && w < |s.calls| && s.calls[w].Running?
    ensures InvAt(bodies, initial, Execute(s, w), if Execute(s, w).calls[w].Running? then n else n + 1)
  {
    hide RunBody, Serial, RunFrames, Execute, Phases, Locks;
    ExecuteQueued(s, n, w);
    ExecuteMeaning(s, w);
    NextWaits(s, Execute(s, w), n, w);
    ExecuteOutcomes(bodies, initial, s, n, w);
  }

  lemma NextWaits(s: State, after: State, n: nat, w: nat)
    requires Queued(s, n) && n < |s.arrivals| && s.arrivals[n] == w && w < |after.calls|
    requires Queued(after, if after.calls[w].Running? then n else n + 1) && after.arrivals == s.arrivals
    requires |after.calls| == |s.calls| && forall k | 0 <= k < |s.calls| && k != w :: after.calls[k] == s.calls[k]
    ensures !after.calls[w].Running? ==> !RunningAt(after, n + 1)
    ensures forall k | 0 <= k < n :: s.arrivals[k] != w
  {
    hide Locks;
    if n + 1 < |s.arrivals| {
      assert StatusAt(s, n + 1).Waiting? && s.arrivals[n + 1] != w;
    }
  }

  lemma ExecuteOutcomes(bodies: seq<seq<Act>>, initial: Stores, s: State, n: nat, w: nat)
    requires n < |s.arrivals| && s.arrivals[n] == w && w < |s.calls| && s.calls[w].Running? && Outcomes(bodies, initial, s, n)
    requires forall k | 0 <= k < n :: s.arrivals[k] != w
    requires !Execute(s, w).calls[w].Running? ==> !RunningAt(Execute(s, w), n + 1)
    ensures Execute(s, w).arrivals == s.arrivals
    ensures Outcomes(bodies, initial, Execute(s, w), if Execute(s, w).calls[w].Running? then n else n + 1)
  {
    hide RunBody, Serial, RunFrames, Execute;
    ExecuteMeaning(s, w);
    SerialNext(bodies, s.arrivals, n, initial);
    forall k | 0 <= k < n ensures Returned(Execute(s, w), k) == Returned(s, k) {}
  }

  lemma StepInv(bodies: seq<seq<Act>>, initial: Stores, s: State, w: nat)
    requires Inv(bodies, initial, s) && Enabled(s, w)
    ensures Inv(bodies, initial, Step(bodies, s, w))
  {
    hide InvAt, Execute;
    var n: nat :| InvAt(bodies, initial, s, n);
    match s.calls[w]
    case Idle => ArriveInv(bodies, initial, s, n, w);
    case Waiting(_) => EnterInv(bodies, initial, s, n, w);
    case Running(_, _) => ExecuteInv(bodies, initial, s, n, w);
    case Finished(_) =>
  }

  /** A run: the scheduler names who goes next; a call that cannot go on is passed over. */
  function Run(bodies: seq<seq<Act>>, s: State, schedule: seq<nat>): State {
    if schedule == [] then s
    else
      var before, w := Run(bodies, s, schedule[..|schedule| - 1]), schedule[|schedule| - 1];
      if Enabled(before, w) then Step(bodies, before, w) else before
  }

  lemma {:induction false} RunInv(bodies: seq<seq<Act>>, initial: Stores, schedule: seq<nat>)
    ensures Inv(bodies, initial, Run(bodies, Initial(|bodies|, initial), schedule))
  {
    hide Inv, Step, Enabled;
    if schedule == [] {
      InitialInv(bodies, initial);
    } else {
      RunInv(bodies, initial, schedule[..|schedule| - 1]);
      var before, w := Run(bodies, Initial(|bodies|, initial), schedule[..|schedule| - 1]), schedule[|schedule| - 1];
      if Enabled(before, w) {
        StepInv(bodies, initial, before, w);
      }
    }
  }

  lemma {:induction false} CallsStay(bodies: seq<seq<Act>>, s: State, schedule: seq<nat>)
    ensures |Run(bodies, s, schedule).calls| == |s.calls|
  {
    hide Enabled;
    if schedule != [] {
      var before, w := Run(bodies, s, schedule[..|schedule| - 1]), schedule[|schedule| - 1];
      CallsStay(bodies, s, schedule[..|schedule| - 1]);
      if Enabled(before, w) { StepStays(bodies, before, w); }
    }
  }

  lemma StepStays(bodies: seq<seq<Act>>, s: State, w: nat)
    requires Enabled(s, w)
    ensures |Step(bodies, s, w).calls| == |s.calls|
  {}

  predicate AllOver(s: State) {
    forall k | 0 <= k < |s.arrivals| :: s.arrivals[k] < |s.calls| && s.calls[s.arrivals[k]].Finished?
  }

  /** Whatever the interleaving: at most one call runs at a time, and once every call that arrived is over,
      the stores are those of running them one after another in the order of arrival, where the calls that
      threw leave no trace; each call returns or throws as it does in that order. */
  lemma WritesSerialised(bodies: seq<seq<Act>>, initial: Stores, schedule: seq<nat>)
    ensures var s := Run(bodies, Initial(|bodies|, initial), schedule);
            && (forall v: nat, w: nat | v < |s.calls| && w < |s.calls| && s.calls[v].Running? && s.calls[w].Running? :: v == w)
            && (AllOver(s) ==>
                  && s.stores == Serial(bodies, s.arrivals, initial)
                  && forall k | 0 <= k < |s.arrivals| ::
                       s.arrivals[k] < |bodies| && Returned(s, k) == RunBody(bodies[s.arrivals[k]], Serial(bodies, s.arrivals[..k], initial)).1)
  {
    hide RunBody, Serial, RunFrames, Run, Locks, Listed, InProgress;
    RunInv(bodies, initial, schedule);
    CallsStay(bodies, Initial(|bodies|, initial), schedule);
    var s := Run(bodies, Initial(|bodies|, initial), schedule);
    var n: nat :| InvAt(bodies, initial, s, n);
    forall v: nat | v < |s.calls| && s.calls[v].Running? ensures n < |s.arrivals| && s.arrivals[n] == v {
      RunningIsNext(s, n, v);
    }
    AllOverCount(s, n);
    assert s.arrivals[..|s.arrivals|] == s.arrivals;
  }

  lemma AllOverCount(s: State, n: nat)
    requires Queued(s, n)
    ensures AllOver(s) ==> n == |s.arrivals|
  {}

  /** The lock is never lost: as long as a call is not over, some call can go on. */
  lemma NoDeadlock(bodies: seq<seq<Act>>, initial: Stores, schedule: seq<nat>, w: nat)
    requires w < |Run(bodies, Initial(|bodies|, initial), schedule).calls|
    requires !Run(bodies, Initial(|bodies|, initial), schedule).calls[w].Finished?
    ensures exists v :: Enabled(Run(bodies, Initial(|bodies|, initial), schedule), v)
  {
    hide Run, Outcomes;
    RunInv(bodies, initial, schedule);
    var s := Run(bodies, Initial(|bodies|, initial), schedule);
    var n: nat :| InvAt(bodies, initial, s, n);
    if s.calls[w].Idle? {
      assert Enabled(s, w);
    } else {
      NextEnabled(s, n, w);
    }
  }

  lemma NextEnabled(s: State, n: nat, w: nat)
    requires Queued(s, n) && w < |s.calls| && !s.calls[w].Finished? && !s.calls[w].Idle?
    ensures n < |s.arrivals| && Enabled(s, s.arrivals[n])
  {
    var k :| 0 <= k < |s.arrivals| && s.arrivals[k] == w;
    assert !StatusAt(s, k).Finished? && k >= n;
    assert StatusAt(s, n) == s.calls[s.arrivals[n]];
    assert Promise(s.arrivals, n) in s.resolved;
  }

  /******* Every call ends *******/

  function Size(acts: seq<Act>): nat {
    if acts == [] then 0
    else (if acts[0].Nested? then 2 + Size(acts[0].body) else 1) + Size(acts[1..])
  }

  function FramesWork(frames: seq<Frame>): nat {
    if frames == [] then 0 else FramesWork(frames[..|frames| - 1]) + 1 + Size(frames[|frames| - 1].rest)
  }

  function CallWork(bodies: seq<seq<Act>>, w: nat, c: Status): nat {
    match c
    case Idle => 4 + Size(BodyOf(bodies, w))
    case Waiting(_) => 3 + Size(BodyOf(bodies, w))
    case Running(frames, _) => 1 + FramesWork(frames)
    case Finished(_) => 0
  }

  /** The steps that are still to come, at most. */
  function Work(bodies: seq<seq<Act>>, calls: seq<Status>): nat {
    if calls == [] then 0 else Work(bodies, calls[..|calls| - 1]) + CallWork(bodies, |calls| - 1, calls[|calls| - 1])
  }

  lemma {:induction false} WorkUpdate(bodies: seq<seq<Act>>, calls: seq<Status>, w: nat, c: Status)
    requires w < |calls|
    ensures Work(bodies, calls[w := c]) == Work(bodies, calls) - CallWork(bodies, w, calls[w]) + CallWork(bodies, w, c)
  {
    hide CallWork;
    var n := |calls| - 1;
    if w < n {
      WorkUpdate(bodies, calls[..n], w, c);
      assert calls[w := c][..n] == calls[..n][w := c];
    } else {
      assert calls[w := c][..n] == calls[..n];
    }
  }

  lemma {:induction false} UnwindWork(frames: seq<Frame>)
    ensures Unwind(frames).Some? ==> FramesWork(Unwind(frames).value) < FramesWork(frames)
  {
    if frames != [] {
      UnwindWork(frames[..|frames| - 1]);
    }
  }

  lemma FramesWorkAppend(frames: seq<Frame>, f: Frame)
    ensures FramesWork(frames + [f]) == FramesWork(frames) + 1 + Size(f.rest)
  {
    assert (frames + [f])[..|frames|] == frames;
  }

  lemma ExecuteWork(bodies: seq<seq<Act>>, s: State, w: nat)
    requires w < |s.calls| && s.calls[w].Running?
    ensures |Execute(s, w).calls| == |s.calls| && Execute(s, w).calls == s.calls[w := Execute(s, w).calls[w]]
    ensures CallWork(bodies, w, Execute(s, w).calls[w]) < CallWork(bodies, w, s.calls[w])
  {
    hide FramesWork, Size, Unwind;
    var frames := s.calls[w].frames;
    UnwindWork(frames);
    if frames != [] {
      var init, top := frames[..|frames| - 1], frames[|frames| - 1];
      LastFrameWork(frames);
      if top.rest != [] {
        var next := top.(rest := top.rest[1..]);
        FirstActSize(top.rest);
        FramesWorkAppend(init, next);
        if top.rest[0].Nested? {
          FramesWorkAppend(init + [next], Frame(top.rest[0].body, top.rest[0].caught));
        }
      }
    }
  }

  lemma LastFrameWork(frames: seq<Frame>)
    requires frames != []
    ensures FramesWork(frames) == FramesWork(frames[..|frames| - 1]) + 1 + Size(frames[|frames| - 1].rest)
  {}

  lemma FirstActSize(acts: seq<Act>)
    requires acts != []
    ensures Size(acts) == (if acts[0].Nested? then 2 + Size(acts[0].body) else 1) + Size(acts[1..])
  {}

  /** Every step brings the end nearer. */
  lemma StepWork(bodies: seq<seq<Act>>, s: State, w: nat)
    requires Enabled(s, w)
    ensures |Step(bodies, s, w).calls| == |s.calls| && Work(bodies, Step(bodies, s, w).calls) < Work(bodies, s.calls)
  {
    hide Execute, Work;
    match s.calls[w]
    case Running(_, _) =>
      ExecuteWork(bodies, s, w);
      WorkUpdate(bodies, s.calls, w, Execute(s, w).calls[w]);
    case Waiting(_) =>
      OneFrameWork(BodyOf(bodies, w));
      WorkUpdate(bodies, s.calls, w, Enter(bodies, s, w).calls[w]);
    case Idle => WorkUpdate(bodies, s.calls, w, Waiting(s.pending));
    case Finished(_) =>
  }

  lemma OneFrameWork(body: seq<Act>)
    ensures FramesWork([Frame(body, false)]) == 1 + Size(body)
  {
    FramesWorkAppend([], Frame(body, false));
    assert [] + [Frame(body, false)] == [Frame(body, false)];
  }

  /** A run in which every named call goes on is no longer than the work there was, so by NoDeadlock every
      call ends and releases the lock. */
  lemma {:induction false} RunsEnd(bodies: seq<seq<Act>>, s: State, schedule: seq<nat>)
    requires forall n | 0 <= n < |schedule| :: Enabled(Run(bodies, s, schedule[..n]), schedule[n])
    ensures |schedule| + Work(bodies, Run(bodies, s, schedule).calls) <= Work(bodies, s.calls)
  {
    hide Step, Enabled, Work;
    if schedule != [] {
      var n := |schedule| - 1;
      forall k | 0 <= k < n ensures Enabled(Run(bodies, s, schedule[..n][..k]), schedule[..n][k]) {
        assert schedule[..n][..k] == schedule[..k];
      }
      RunsEnd(bodies, s, schedule[..n]);
      assert Enabled(Run(bodies, s, schedule[..n]), schedule[n]);
      StepWork(bodies, Run(bodies, s, schedule[..n]), schedule[n]);
    }
  }

  /******* Putting the stores back *******/

  /** The registered rollbacks: every store is emptied and filled again from its copy. */
  method Rollback(now: Stores, snapshots: Stores) returns (stores: Stores)
    requires |now| == |snapshots|
    ensures stores == snapshots
  {
    stores := now;
    for i := 0 to |snapshots|
      invariant |stores| == |snapshots|
      invariant forall k | 0 <= k < i :: stores[k] == snapshots[k]
    {
      var before, store, rest := snapshots[i], map[], snapshots[i].Keys;
      while rest != {}
        invariant rest <= before.Keys && store.Keys == before.Keys - rest
        invariant forall key | key in store :: store[key] == before[key]
        decreases |rest|
      {
        var key :| key in rest;
        store, rest := store[key := before[key]], rest - {key};
      }
      assert store == before;
      stores := stores[i := store];
    }
  }
}
