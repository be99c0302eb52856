/** Any number of appends without a transaction at once, each in its own three
    steps, among writers that do use the transaction: when does the log survive?

    What has been committed are the events up to CURRENT's version. Above it there
    may be one more, placed by a fallback that has not updated CURRENT yet. */
module FallbackRaces {
  import opened Wrappers
  import opened RequestLifecycle
  import opened RequestStore
  import opened Writers
  import opened EventLog
  import opened AppendFallback

  // ----- the committed part of a world

  function VersionOf(w: World, r: RequestId): nat {
    if r in w.store.current then w.store.current[r].stateVersion.GetOr(0) else 0
  }

  function UpTo(log: Log, n: nat): Log {
    map v | v in log && v <= n :: log[v]
  }

  function Core(w: World): World {
    w.(store := w.store.(events := map r | r in w.store.events :: UpTo(w.store.events[r], VersionOf(w, r))))
  }

  /** Nothing lies more than one version ahead of CURRENT. */
  ghost predicate Bounded(w: World) {
    forall r, v :: v in EventsOf(w.store, r) ==> v <= VersionOf(w, r) + 1
  }

  /** The committed log of every request is well-formed. */
  ghost predicate Survives(w: World) {
    Inv(Core(w)) && Bounded(w)
  }

  lemma CoreOf(w: World, r: RequestId)
    ensures EventsOf(Core(w).store, r) == UpTo(EventsOf(w.store, r), VersionOf(w, r))
    ensures PastOf(Core(w), r) == PastOf(w, r) && Core(w).store.current == w.store.current
    ensures KeysAgree(Core(w)) <==> KeysAgree(w)
  {
    assert Core(w).store.events.Keys == w.store.events.Keys;
  }

  /** A well-formed world is its own core. */
  lemma CoreOfInv(w: World)
    requires Inv(w)
    ensures Core(w) == w && Survives(w)
  {
    forall r | r in w.store.events ensures Core(w).store.events[r] == w.store.events[r] {
      assert RequestOk(w, r);
      assert EventsOf(w.store, r) == w.store.events[r];
    }
    assert Core(w).store.events == w.store.events;
    forall r, v | v in EventsOf(w.store, r) ensures v <= VersionOf(w, r) + 1 {
      assert RequestOk(w, r);
    }
  }

  lemma CoreReplaced(w: World, r: RequestId, c: Current, log: Log, p: seq<Current>)
    ensures Core(Replaced(w, r, c, log, p)) == Replaced(Core(w), r, c, UpTo(log, c.stateVersion.GetOr(0)), p)
  {
    var w' := Replaced(w, r, c, log, p);
    var a, b := Core(w'), Replaced(Core(w), r, c, UpTo(log, c.stateVersion.GetOr(0)), p);
    forall q | q in a.store.events ensures q in b.store.events && a.store.events[q] == b.store.events[q] {
      assert q != r ==> VersionOf(w', q) == VersionOf(w, q);
    }
    assert a.store.events == b.store.events;
  }

  /** In a surviving world the events of a request are 1..n, perhaps n + 1. */
  lemma EventsAre(w: World, r: RequestId, v: nat)
    requires Survives(w) && r in w.store.current
    ensures w.store.current[r].stateVersion == Some(VersionOf(w, r)) && VersionOf(w, r) >= 1
    ensures 1 <= v <= VersionOf(w, r) ==> v in EventsOf(w.store, r)
    ensures v in EventsOf(w.store, r) ==> 1 <= v <= VersionOf(w, r) + 1
  {
    CoreOf(w, r);
    assert RequestOk(Core(w), r);
    if v in EventsOf(w.store, r) && v <= VersionOf(w, r) {
      assert v in EventsOf(Core(w).store, r);
    }
    if 1 <= v <= VersionOf(w, r) {
      assert v in EventsOf(Core(w).store, r);
    }
  }

  // ----- transactional writers

  lemma PlanInCore(w: World, r: RequestId, snap: Current, call: Call, f: Fresh)
    requires Survives(w) && r in w.store.current && snap in PastOf(w, r) && ValidCall(call) && f.now != ""
    requires Decide(Some(snap), call, f).Append?
    ensures var Append(ev, up, expected) := Decide(Some(snap), call, f);
            && snap.stateVersion.Some? && snap.stateVersion.value <= VersionOf(w, r)
            && ev.version == snap.stateVersion.value + 1 && expected == snap.stateVersion
            && up.stateVersion == Some(ev.version)
  {
    CoreOf(w, r);
    var _ := SnapshotAt(Core(w), r, snap);
    assert RequestOk(Core(w), r);
    AppendPlan(snap, call, f);
  }

  lemma UpToExtended(log: Log, n: nat, ev: Event)
    requires ev.version == n + 1
    ensures UpTo(log[ev.version := ev], n + 1) == UpTo(log, n)[ev.version := ev]
  {
  }

  lemma UpToPresent(log: Log, n: nat, ev: Event)
    requires ev.version == n + 1 && ev.version in log && log[ev.version] == ev
    ensures UpTo(log, n + 1) == UpTo(log, n)[ev.version := ev]
  {
  }

  /** A committed append, a finished fallback and an update of fields, as the
      replacement of one request's items. */
  lemma AppendIs(w: World, r: RequestId, ev: Event, up: Update, expected: Option<nat>)
    requires r in w.store.current && ev.version !in EventsOf(w.store, r) && Expected(w.store, r, expected)
    ensures Commit(w.store, r, Append(ev, up, expected)).Some?
    ensures var c := Patch(w.store.current[r], up);
            Write(w, r, Append(ev, up, expected))
            == Replaced(w, r, c, EventsOf(w.store, r)[ev.version := ev], PastOf(w, r) + [c])
  {
  }

  lemma UpdatedIs(w: World, r: RequestId, up: Update)
    requires r in w.store.current && KeysAgree(w)
    ensures var c := Patch(w.store.current[r], up);
            Updated(w, r, up) == Replaced(w, r, c, EventsOf(w.store, r), PastOf(w, r) + [c])
  {
    assert w.store.events[r := EventsOf(w.store, r)] == w.store.events;
  }

  lemma FieldsAre(w: World, r: RequestId, up: Update, expected: Option<nat>)
    requires r in w.store.current && KeysAgree(w) && Expected(w.store, r, expected)
    ensures Write(w, r, WriteFields(up, expected)) == Updated(w, r, up)
  {
  }

  lemma CoreAppendIs(w: World, r: RequestId, ev: Event, up: Update, log: Log)
    requires IsNext(w, r, ev) && log == UpTo(EventsOf(w.store, r), VersionOf(w, r))[ev.version := ev]
    ensures var c := Patch(w.store.current[r], up);
            Write(Core(w), r, Append(ev, up, w.store.current[r].stateVersion))
            == Replaced(Core(w), r, c, log, PastOf(w, r) + [c])
  {
    CoreOf(w, r);
    AppendIs(Core(w), r, ev, up, w.store.current[r].stateVersion);
  }

  /** An append of the next version, seen in the core. */
  lemma AppendInCore(w: World, r: RequestId, ev: Event, up: Update)
    requires IsNext(w, r, ev) && KeysAgree(w) && up.stateVersion == Some(ev.version)
    requires ev.version !in EventsOf(w.store, r)
    ensures var d := Append(ev, up, w.store.current[r].stateVersion);
            Commit(Core(w).store, r, d).Some? && Core(Write(w, r, d)) == Write(Core(w), r, d)
  {
    var c', log := Patch(w.store.current[r], up), EventsOf(w.store, r);
    CoreOf(w, r);
    UpToExtended(log, VersionOf(w, r), ev);
    AppendIs(w, r, ev, up, w.store.current[r].stateVersion);
    AppendIs(Core(w), r, ev, up, w.store.current[r].stateVersion);
    CoreReplaced(w, r, c', log[ev.version := ev], PastOf(w, r) + [c']);
  }

  lemma UpdatedCore(w: World, r: RequestId, up: Update, log: Log)
    requires r in w.store.current && KeysAgree(w)
    requires log == UpTo(EventsOf(w.store, r), Patch(w.store.current[r], up).stateVersion.GetOr(0))
    ensures var c := Patch(w.store.current[r], up);
            Core(Updated(w, r, up)) == Replaced(Core(w), r, c, log, PastOf(w, r) + [c])
  {
    var c := Patch(w.store.current[r], up);
    UpdatedIs(w, r, up);
    CoreReplaced(w, r, c, EventsOf(w.store, r), PastOf(w, r) + [c]);
  }

  /** The same for a fallback that finishes. */
  lemma UpdateInCore(w: World, r: RequestId, ev: Event, up: Update)
    requires IsNext(w, r, ev) && KeysAgree(w) && up.stateVersion == Some(ev.version)
    requires ev.version in EventsOf(w.store, r) && EventsOf(w.store, r)[ev.version] == ev
    ensures var d := Append(ev, up, w.store.current[r].stateVersion);
            Core(Updated(w, r, up)) == Write(Core(w), r, d)
  {
    var log := UpTo(EventsOf(w.store, r), ev.version);
    UpToPresent(EventsOf(w.store, r), VersionOf(w, r), ev);
    CoreAppendIs(w, r, ev, up, log);
    UpdatedCore(w, r, up, log);
  }

  lemma FieldsInCore(w: World, r: RequestId, up: Update, expected: Option<nat>)
    requires r in w.store.current && KeysAgree(w) && Expected(w.store, r, expected)
    requires Patch(w.store.current[r], up).stateVersion == w.store.current[r].stateVersion
    ensures Core(Write(w, r, WriteFields(up, expected))) == Write(Core(w), r, WriteFields(up, expected))
  {
    var c' := Patch(w.store.current[r], up);
    CoreOf(w, r);
    FieldsAre(w, r, up, expected);
    FieldsAre(Core(w), r, up, expected);
    UpdatedIs(w, r, up);
    UpdatedIs(Core(w), r, up);
    CoreReplaced(w, r, c', EventsOf(w.store, r), PastOf(w, r) + [c']);
  }

  lemma CreatedIfRead(w: World, r: RequestId, snap: Option<Current>)
    requires KeysAgree(w) && Readable(w, r, snap) && snap.Some?
    ensures r in w.store.current
  {
  }

  lemma WriteInCore(w: World, r: RequestId, snap: Option<Current>, call: Call, f: Fresh)
    requires Survives(w) && Readable(w, r, snap) && ValidCall(call) && f.now != ""
    ensures var d := Decide(snap, call, f);
            Core(Write(w, r, d)) == Core(w) || Core(Write(w, r, d)) == Write(Core(w), r, d)
  {
    var d := Decide(snap, call, f);
    CoreOf(w, r);
    if Commit(w.store, r, d).Some? {
      if d.Append? {
        CreatedIfRead(w, r, snap);
        PlanInCore(w, r, snap.value, call, f);
        AppendInCore(w, r, d.event, d.update);
      } else {
        FieldsPlan(snap, call, f);
        FieldsInCore(w, r, d.update, d.expected);
      }
    }
  }

  /** A transactional step does to the core what it would do there, or nothing. */
  lemma TransactInCore(w: World, a: Act)
    requires Survives(w) && Enabled(w, a) && ClockOk(a)
    ensures Core(Step(w, a)) == Core(w) || Core(Step(w, a)) == Step(Core(w), a)
    ensures Enabled(Core(w), a)
  {
    match a
    case Create(id, incidentId, f) =>
      var c := FirstCurrent(incidentId, f);
      CoreReplaced(w, id, c, map[1 := FirstEvent(f)], [c]);
      assert UpTo(map[1 := FirstEvent(f)], 1) == map[1 := FirstEvent(f)];
    case Do(r, snap, call, f) =>
      CoreOf(w, r);
      WriteInCore(w, r, snap, call, f);
  }

  // ----- the machine

  /** A fallback has placed its event and is about to update CURRENT, or some call
      of it has failed and it is about to delete the event's key. */
  datatype Stage = Waiting | Undoing

  datatype Flight = Flight(r: RequestId, snap: Current, call: Call, f: Fresh, stage: Stage)

  function EventOf(fl: Flight): Event
    requires Decide(Some(fl.snap), fl.call, fl.f).Append?
  {
    Decide(Some(fl.snap), fl.call, fl.f).event
  }

  type FlightId = nat

  datatype State = State(world: World, flights: map<FlightId, Flight>)

  /** The backend may refuse any of the three calls. */
  datatype Move =
    | Transact(act: Act)
    | PutEvent(id: FlightId, r: RequestId, snap: Current, call: Call, f: Fresh, refused: bool)
    | UpdateCurrent(id: FlightId, refused: bool)
    | DeleteEvent(id: FlightId, refused: bool)
    | Die(id: FlightId)

  predicate CanPut(s: State, id: FlightId, r: RequestId, snap: Current, call: Call, f: Fresh) {
    id !in s.flights && snap in PastOf(s.world, r) && ValidCall(call) && f.now != ""
    && Decide(Some(snap), call, f).Append?
  }

  function AfterPut(s: State, id: FlightId, r: RequestId, snap: Current, call: Call, f: Fresh, refused: bool): State
    requires CanPut(s, id, r, snap, call, f)
  {
    var ev := Decide(Some(snap), call, f).event;
    if refused || ev.version in EventsOf(s.world.store, r) then
      s.(flights := s.flights[id := Flight(r, snap, call, f, Undoing)])
    else State(Placed(s.world, r, ev), s.flights[id := Flight(r, snap, call, f, Waiting)])
  }

  predicate Flies(s: State, id: FlightId, stage: Stage) {
    id in s.flights && s.flights[id].stage == stage
    && Decide(Some(s.flights[id].snap), s.flights[id].call, s.flights[id].f).Append?
  }

  function AfterUpdate(s: State, id: FlightId, refused: bool): State
    requires Flies(s, id, Waiting)
  {
    var fl := s.flights[id];
    var Append(ev, up, expected) := Decide(Some(fl.snap), fl.call, fl.f);
    if refused || !Expected(s.world.store, fl.r, expected) then s.(flights := s.flights[id := fl.(stage := Undoing)])
    else State(Updated(s.world, fl.r, up), s.flights - {id})
  }

  function AfterDelete(s: State, id: FlightId, refused: bool): State
    requires Flies(s, id, Undoing)
  {
    var fl := s.flights[id];
    State(if refused then s.world else Deleted(s.world, fl.r, EventOf(fl).version), s.flights - {id})
  }

  function AfterTransact(s: State, a: Act): State {
    if Enabled(s.world, a) && ClockOk(a) then s.(world := Step(s.world, a)) else s
  }

  function Apply(s: State, m: Move): State {
    match m
    case Transact(a) => AfterTransact(s, a)
    case PutEvent(id, r, snap, call, f, refused) =>
      if CanPut(s, id, r, snap, call, f) then AfterPut(s, id, r, snap, call, f, refused) else s
    case UpdateCurrent(id, refused) => if Flies(s, id, Waiting) then AfterUpdate(s, id, refused) else s
    case DeleteEvent(id, refused) => if Flies(s, id, Undoing) then AfterDelete(s, id, refused) else s
    case Die(id) => s.(flights := s.flights - {id})
  }

  function ApplyAll(s: State, moves: seq<Move>): State
    decreases |moves|
  {
    if moves == [] then s else ApplyAll(Apply(s, moves[0]), moves[1..])
  }

  // ----- the invariant

  ghost predicate Holds(w: World, r: RequestId, ev: Event) {
    IsNext(w, r, ev) && ev.version in EventsOf(w.store, r) && EventsOf(w.store, r)[ev.version] == ev
  }

  /** A waiting fallback's event is there, and is the next one. */
  ghost predicate FlightOk(s: State, id: FlightId)
    requires id in s.flights
  {
    var fl := s.flights[id];
    && fl.snap in PastOf(s.world, fl.r) && ValidCall(fl.call) && fl.f.now != ""
    && Decide(Some(fl.snap), fl.call, fl.f).Append?
    && (fl.stage == Waiting ==> Holds(s.world, fl.r, EventOf(fl)))
  }

  predicate Rivals(s: State, id: FlightId, other: FlightId) {
    && id in s.flights && other in s.flights && id != other
    && s.flights[id].stage == Waiting && s.flights[other].stage == Waiting && s.flights[id].r == s.flights[other].r
  }

  ghost predicate Sound(s: State) {
    && Survives(s.world)
    && (forall id :: id in s.flights ==> FlightOk(s, id))
    && (forall id, other :: !Rivals(s, id, other))
  }

  /** The delete of a failed fallback hits an event that is committed, or whose own
      fallback is still going to update CURRENT. */
  predicate Harmful(s: State, m: Move) {
    m.DeleteEvent? && !m.refused && Flies(s, m.id, Undoing)
    && var fl := s.flights[m.id];
       && EventOf(fl).version in EventsOf(s.world.store, fl.r)
       && (EventOf(fl).version <= VersionOf(s.world, fl.r)
           || exists id :: id in s.flights && s.flights[id].stage == Waiting && s.flights[id].r == fl.r)
  }

  lemma ReadIsCreated(s: State, id: FlightId)
    requires Sound(s) && id in s.flights
    ensures s.flights[id].r in s.world.store.current
  {
    assert FlightOk(s, id);
    CoreOf(s.world, s.flights[id].r);
    CreatedIfRead(s.world, s.flights[id].r, Some(s.flights[id].snap));
  }

  // ----- each kind of move

  /** What a move of the world must leave to a fallback in flight. */
  ghost predicate Leaves(w: World, w': World, fl: Flight) {
    && PastOf(w, fl.r) <= PastOf(w', fl.r)
    && (fl.stage == Waiting && Decide(Some(fl.snap), fl.call, fl.f).Append? && Holds(w, fl.r, EventOf(fl)) ==>
          Holds(w', fl.r, EventOf(fl)))
  }

  lemma OkLeft(s: State, id: FlightId, s': State)
    requires id in s.flights && FlightOk(s, id) && id in s'.flights && s'.flights[id] == s.flights[id]
    requires Leaves(s.world, s'.world, s.flights[id])
    ensures FlightOk(s', id)
  {
  }

  lemma FlightsStay(s: State, w': World)
    requires Sound(s) && Survives(w') && forall id :: id in s.flights ==> Leaves(s.world, w', s.flights[id])
    ensures Sound(s.(world := w'))
  {
    var s' := s.(world := w');
    forall id | id in s'.flights ensures FlightOk(s', id) {
      OkLeft(s, id, s');
    }
    forall id, other ensures !Rivals(s', id, other) {
      assert !Rivals(s, id, other);
    }
  }

  lemma FlightLeaves(s: State, id: FlightId, w': World)
    requires Sound(s) && Survives(w')
    requires forall q :: q in s.flights && q != id ==> Leaves(s.world, w', s.flights[q])
    ensures Sound(State(w', s.flights - {id}))
  {
    var s' := State(w', s.flights - {id});
    forall q | q in s'.flights ensures FlightOk(s', q) {
      OkLeft(s, q, s');
    }
    forall q, other ensures !Rivals(s', q, other) {
      assert !Rivals(s, q, other);
    }
  }

  predicate NobodyWaits(s: State, r: RequestId, except: FlightId) {
    forall q :: q in s.flights && q != except && s.flights[q].stage == Waiting ==> s.flights[q].r != r
  }

  lemma FlightJoins(s: State, id: FlightId, fl: Flight, w': World)
    requires Sound(s) && Survives(w')
    requires forall q :: q in s.flights && q != id ==> Leaves(s.world, w', s.flights[q])
    requires FlightOk(State(w', s.flights[id := fl]), id) && (fl.stage == Waiting ==> NobodyWaits(s, fl.r, id))
    ensures Sound(State(w', s.flights[id := fl]))
  {
    var s' := State(w', s.flights[id := fl]);
    forall q | q in s'.flights ensures FlightOk(s', q) {
      if q != id {
        OkLeft(s, q, s');
      }
    }
    forall q, other ensures !Rivals(s', q, other) {
      assert !Rivals(s, q, other);
    }
  }

  // transactional moves

  /** What a committed write replaces. */
  lemma WriteReplaces(w: World, r: RequestId, snap: Option<Current>, call: Call, f: Fresh)
    returns (c: Current, log: Log)
    requires Survives(w) && Readable(w, r, snap) && ValidCall(call) && f.now != ""
    requires r in w.store.current && Commit(w.store, r, Decide(snap, call, f)).Some?
    ensures var d := Decide(snap, call, f);
            && Write(w, r, d) == Replaced(w, r, c, log, PastOf(w, r) + [c])
            && (d.Append? ==>
                  && IsNext(w, r, d.event) && d.event.version !in EventsOf(w.store, r)
                  && c.stateVersion == Some(d.event.version) && log == EventsOf(w.store, r)[d.event.version := d.event])
            && (!d.Append? ==> c.stateVersion == w.store.current[r].stateVersion && log == EventsOf(w.store, r))
  {
    var d := Decide(snap, call, f);
    if d.Append? {
      PlanInCore(w, r, snap.value, call, f);
      AppendIs(w, r, d.event, d.update, d.expected);
      c, log := Patch(w.store.current[r], d.update), EventsOf(w.store, r)[d.event.version := d.event];
    } else {
      FieldsPlan(snap, call, f);
      FieldsAre(w, r, d.update, d.expected);
      UpdatedIs(w, r, d.update);
      c, log := Patch(w.store.current[r], d.update), EventsOf(w.store, r);
    }
  }

  lemma ReplacedBounded(w: World, r: RequestId, c: Current, log: Log, p: seq<Current>)
    requires Bounded(w) && forall v :: v in log ==> v <= c.stateVersion.GetOr(0) + 1
    ensures Bounded(Replaced(w, r, c, log, p))
  {
    var w' := Replaced(w, r, c, log, p);
    forall q, v | v in EventsOf(w'.store, q) ensures v <= VersionOf(w', q) + 1 {
      if q != r {
        assert EventsOf(w'.store, q) == EventsOf(w.store, q);
      }
    }
  }

  lemma WriteBounded(w: World, r: RequestId, snap: Option<Current>, call: Call, f: Fresh)
    requires Survives(w) && Readable(w, r, snap) && ValidCall(call) && f.now != ""
    requires r in w.store.current && Commit(w.store, r, Decide(snap, call, f)).Some?
    ensures Bounded(Write(w, r, Decide(snap, call, f)))
  {
    var c, log := WriteReplaces(w, r, snap, call, f);
    ReplacedBounded(w, r, c, log, PastOf(w, r) + [c]);
  }

  /** A fallback waiting with the next event is in the way of any append. */
  lemma ReplacedLeaves(w: World, r: RequestId, c: Current, log: Log, fl: Flight)
    requires fl.r in w.store.current && r in w.store.current
    requires (log == EventsOf(w.store, r) && c.stateVersion == w.store.current[r].stateVersion)
             || forall ev :: !Holds(w, r, ev)
    ensures Leaves(w, Replaced(w, r, c, log, PastOf(w, r) + [c]), fl)
  {
  }

  lemma WriteLeaves(w: World, r: RequestId, snap: Option<Current>, call: Call, f: Fresh, fl: Flight)
    requires Survives(w) && Readable(w, r, snap) && ValidCall(call) && f.now != ""
    requires r in w.store.current && Commit(w.store, r, Decide(snap, call, f)).Some? && fl.r in w.store.current
    ensures Leaves(w, Write(w, r, Decide(snap, call, f)), fl)
  {
    var c, log := WriteReplaces(w, r, snap, call, f);
    ReplacedLeaves(w, r, c, log, fl);
  }

  lemma WrittenIsCreated(w: World, a: Act)
    requires Survives(w) && a.Do? && Enabled(w, a) && Commit(w.store, a.r, Decide(a.snap, a.call, a.f)).Some?
    ensures a.r in w.store.current
  {
    CoreOf(w, a.r);
    if a.snap.Some? {
      CreatedIfRead(w, a.r, a.snap);
    }
  }

  lemma WriteKeepsSound(s: State, a: Act)
    requires Sound(s) && a.Do? && Enabled(s.world, a) && ClockOk(a)
    ensures Sound(s.(world := Step(s.world, a)))
  {
    var w, d := s.world, Decide(a.snap, a.call, a.f);
    if Commit(w.store, a.r, d).Some? {
      WrittenIsCreated(w, a);
      TransactInCore(w, a);
      if Core(Step(w, a)) == Step(Core(w), a) {
        StepKeepsInv(Core(w), a);
      }
      WriteBounded(w, a.r, a.snap, a.call, a.f);
      forall id | id in s.flights ensures Leaves(w, Step(w, a), s.flights[id]) {
        ReadIsCreated(s, id);
        WriteLeaves(w, a.r, a.snap, a.call, a.f, s.flights[id]);
      }
      FlightsStay(s, Step(w, a));
    }
  }

  lemma CreateKeepsSound(s: State, a: Act)
    requires Sound(s) && a.Create? && Enabled(s.world, a) && ClockOk(a)
    ensures Sound(s.(world := Step(s.world, a)))
  {
    var w, w' := s.world, Step(s.world, a);
    var c := FirstCurrent(a.incidentId, a.drawn);
    CoreOf(w, a.id);
    TransactInCore(w, a);
    if Core(w') == Step(Core(w), a) {
      StepKeepsInv(Core(w), a);
    }
    ReplacedTouchesOnly(w, a.id, c, map[1 := FirstEvent(a.drawn)], [c]);
    forall q, v | v in EventsOf(w'.store, q) ensures v <= VersionOf(w', q) + 1 {
      assert q != a.id && q in w.store.current ==> SameAt(w, w', q);
    }
    forall id | id in s.flights ensures Leaves(w, w', s.flights[id]) {
      ReadIsCreated(s, id);
      assert SameAt(w, w', s.flights[id].r);
    }
    FlightsStay(s, w');
  }

  // putting the event

  lemma FreeIsNext(w: World, r: RequestId, snap: Current, call: Call, f: Fresh)
    requires Survives(w) && snap in PastOf(w, r) && ValidCall(call) && f.now != ""
    requires Decide(Some(snap), call, f).Append?
    requires Decide(Some(snap), call, f).event.version !in EventsOf(w.store, r)
    ensures IsNext(w, r, Decide(Some(snap), call, f).event)
  {
    CoreOf(w, r);
    CreatedIfRead(w, r, Some(snap));
    PlanInCore(w, r, snap, call, f);
    EventsAre(w, r, Decide(Some(snap), call, f).event.version);
  }

  lemma PlacedCore(w: World, r: RequestId, ev: Event)
    requires IsNext(w, r, ev) && r in w.store.events
    ensures Core(Placed(w, r, ev)) == Core(w)
  {
    var w', log := Placed(w, r, ev), EventsOf(w.store, r);
    assert UpTo(log[ev.version := ev], VersionOf(w, r)) == UpTo(log, VersionOf(w, r));
    assert Core(w').store.events == Core(w).store.events;
  }

  lemma PlacedSurvives(w: World, r: RequestId, ev: Event)
    requires Survives(w) && IsNext(w, r, ev) && ev.version !in EventsOf(w.store, r)
    ensures Core(Placed(w, r, ev)) == Core(w) && Survives(Placed(w, r, ev))
  {
    var w' := Placed(w, r, ev);
    CoreOf(w, r);
    PlacedCore(w, r, ev);
    forall q, v | v in EventsOf(w'.store, q) ensures v <= VersionOf(w', q) + 1 {
      assert q != r ==> EventsOf(w'.store, q) == EventsOf(w.store, q);
    }
  }

  lemma PlacedElsewhere(w: World, r: RequestId, ev: Event, fl: Flight)
    requires fl.stage == Waiting ==> fl.r != r
    ensures Leaves(w, Placed(w, r, ev), fl)
  {
    assert fl.r != r ==> EventsOf(Placed(w, r, ev).store, fl.r) == EventsOf(w.store, fl.r);
  }

  /** Nobody waits where the next key is still free. */
  lemma WaitsElsewhere(s: State, r: RequestId, ev: Event, q: FlightId)
    requires q in s.flights && FlightOk(s, q) && IsNext(s.world, r, ev) && ev.version !in EventsOf(s.world.store, r)
    ensures s.flights[q].stage == Waiting ==> s.flights[q].r != r
  {
  }

  lemma PlacingKeepsSound(s: State, id: FlightId, fl: Flight)
    requires Sound(s) && CanPut(s, id, fl.r, fl.snap, fl.call, fl.f) && fl.stage == Waiting
    requires EventOf(fl).version !in EventsOf(s.world.store, fl.r)
    ensures Sound(State(Placed(s.world, fl.r, EventOf(fl)), s.flights[id := fl]))
  {
    var w, ev := s.world, EventOf(fl);
    FreeIsNext(w, fl.r, fl.snap, fl.call, fl.f);
    PlacedSurvives(w, fl.r, ev);
    forall q | q in s.flights
      ensures Leaves(w, Placed(w, fl.r, ev), s.flights[q]) && (s.flights[q].stage == Waiting ==> s.flights[q].r != fl.r)
    {
      WaitsElsewhere(s, fl.r, ev, q);
      PlacedElsewhere(w, fl.r, ev, s.flights[q]);
    }
    assert FlightOk(State(Placed(w, fl.r, ev), s.flights[id := fl]), id);
    FlightJoins(s, id, fl, Placed(w, fl.r, ev));
  }

  lemma PutKeepsSound(s: State, id: FlightId, r: RequestId, snap: Current, call: Call, f: Fresh, refused: bool)
    requires Sound(s) && CanPut(s, id, r, snap, call, f)
    ensures Sound(AfterPut(s, id, r, snap, call, f, refused))
  {
    if refused || Decide(Some(snap), call, f).event.version in EventsOf(s.world.store, r) {
      FlightJoins(s, id, Flight(r, snap, call, f, Undoing), s.world);
    } else {
      PlacingKeepsSound(s, id, Flight(r, snap, call, f, Waiting));
    }
  }

  // updating CURRENT

  lemma UpdatedBounded(w: World, r: RequestId, ev: Event, up: Update)
    requires Bounded(w) && IsNext(w, r, ev) && up.stateVersion == Some(ev.version)
    ensures Bounded(Updated(w, r, up))
  {
    var w' := Updated(w, r, up);
    forall q, v | v in EventsOf(w'.store, q) ensures v <= VersionOf(w', q) + 1 {
      assert EventsOf(w'.store, q) == EventsOf(w.store, q);
    }
  }

  lemma PlanOfNext(w: World, r: RequestId, snap: Current, call: Call, f: Fresh)
    requires Survives(w) && snap in PastOf(w, r) && ValidCall(call) && f.now != ""
    requires Decide(Some(snap), call, f).Append? && IsNext(w, r, Decide(Some(snap), call, f).event)
    ensures var Append(ev, up, expected) := Decide(Some(snap), call, f);
            up.stateVersion == Some(ev.version) && expected == w.store.current[r].stateVersion
  {
    PlanInCore(w, r, snap, call, f);
  }

  lemma EnabledInCore(w: World, r: RequestId, snap: Current, call: Call, f: Fresh)
    requires snap in PastOf(w, r) && ValidCall(call)
    ensures Enabled(Core(w), Do(r, Some(snap), call, f))
  {
    CoreOf(w, r);
  }

  lemma WaitingPlan(s: State, id: FlightId)
    requires Sound(s) && Flies(s, id, Waiting)
    ensures var fl := s.flights[id];
            var Append(ev, up, expected) := Decide(Some(fl.snap), fl.call, fl.f);
            && Holds(s.world, fl.r, ev) && up.stateVersion == Some(ev.version)
            && expected == s.world.store.current[fl.r].stateVersion
            && Enabled(Core(s.world), Do(fl.r, Some(fl.snap), fl.call, fl.f)) && fl.f.now != ""
  {
    var fl := s.flights[id];
    assert FlightOk(s, id);
    PlanOfNext(s.world, fl.r, fl.snap, fl.call, fl.f);
    EnabledInCore(s.world, fl.r, fl.snap, fl.call, fl.f);
  }

  /** A waiting fallback's update meets its condition, and appends its event to
      the committed log. */
  lemma UpdateAppends(s: State, id: FlightId)
    requires Sound(s) && Flies(s, id, Waiting)
    ensures var fl := s.flights[id];
            var Append(ev, up, expected) := Decide(Some(fl.snap), fl.call, fl.f);
            var a := Do(fl.r, Some(fl.snap), fl.call, fl.f);
            && Expected(s.world.store, fl.r, expected)
            && Enabled(Core(s.world), a) && ClockOk(a)
            && Core(Updated(s.world, fl.r, up)) == Step(Core(s.world), a)
            && Survives(Updated(s.world, fl.r, up))
  {
    var w, fl := s.world, s.flights[id];
    var Append(ev, up, expected) := Decide(Some(fl.snap), fl.call, fl.f);
    WaitingPlan(s, id);
    UpdateInCore(w, fl.r, ev, up);
    assert Step(Core(w), Do(fl.r, Some(fl.snap), fl.call, fl.f)) == Write(Core(w), fl.r, Append(ev, up, expected));
    StepKeepsInv(Core(w), Do(fl.r, Some(fl.snap), fl.call, fl.f));
    UpdatedBounded(w, fl.r, ev, up);
  }

  lemma UpdatedElsewhere(w: World, r: RequestId, up: Update, fl: Flight)
    requires fl.stage == Waiting ==> fl.r != r
    ensures Leaves(w, Updated(w, r, up), fl)
  {
  }

  lemma UpdateKeepsSound(s: State, id: FlightId, refused: bool)
    requires Sound(s) && Flies(s, id, Waiting)
    ensures Sound(AfterUpdate(s, id, refused))
  {
    var w, fl := s.world, s.flights[id];
    UpdateAppends(s, id);
    if refused {
      assert FlightOk(s, id);
      FlightJoins(s, id, fl.(stage := Undoing), w);
    } else {
      var up := Decide(Some(fl.snap), fl.call, fl.f).update;
      forall q | q in s.flights && q != id ensures Leaves(w, Updated(w, fl.r, up), s.flights[q]) {
        assert !Rivals(s, id, q);
        UpdatedElsewhere(w, fl.r, up, s.flights[q]);
      }
      FlightLeaves(s, id, Updated(w, fl.r, up));
    }
  }

  // deleting the event

  lemma DeletedAhead(w: World, r: RequestId, v: nat)
    requires Survives(w) && r in w.store.current && v == VersionOf(w, r) + 1
    ensures Core(Deleted(w, r, v)) == Core(w) && Survives(Deleted(w, r, v))
  {
    var w', log := Deleted(w, r, v), EventsOf(w.store, r);
    CoreOf(w, r);
    assert UpTo(log - {v}, VersionOf(w, r)) == UpTo(log, VersionOf(w, r));
    assert Core(w').store.events == Core(w).store.events;
    forall q, u | u in EventsOf(w'.store, q) ensures u <= VersionOf(w', q) + 1 {
      assert u in EventsOf(w.store, q);
    }
  }

  lemma DeletedNothing(w: World, r: RequestId, v: nat)
    requires KeysAgree(w) && r in w.store.current && v !in EventsOf(w.store, r)
    ensures Deleted(w, r, v) == w
  {
    assert EventsOf(w.store, r) - {v} == EventsOf(w.store, r);
    assert w.store.events[r := EventsOf(w.store, r)] == w.store.events;
  }

  lemma DeletedCommitted(w: World, r: RequestId, v: nat)
    requires Survives(w) && r in w.store.current && 1 <= v <= VersionOf(w, r)
    ensures !Inv(Core(Deleted(w, r, v)))
  {
    var w' := Deleted(w, r, v);
    EventsAre(w, r, v);
    CoreOf(w', r);
    assert v !in EventsOf(Core(w').store, r);
    assert Inv(Core(w')) ==> RequestOk(Core(w'), r);
  }

  lemma DeletedLeaves(w: World, r: RequestId, v: nat, fl: Flight)
    requires fl.stage == Waiting ==> fl.r != r
    ensures Leaves(w, Deleted(w, r, v), fl)
  {
    assert fl.r != r ==> EventsOf(Deleted(w, r, v).store, fl.r) == EventsOf(w.store, fl.r);
  }

  /** What a delete hits. */
  lemma DeleteHits(s: State, id: FlightId)
    requires Sound(s) && Flies(s, id, Undoing)
    ensures var fl := s.flights[id];
            && fl.r in s.world.store.current && EventOf(fl).version >= 1
            && (EventOf(fl).version in EventsOf(s.world.store, fl.r) ==>
                  EventOf(fl).version <= VersionOf(s.world, fl.r) + 1)
  {
    var fl := s.flights[id];
    assert FlightOk(s, id);
    ReadIsCreated(s, id);
    PlanInCore(s.world, fl.r, fl.snap, fl.call, fl.f);
    EventsAre(s.world, fl.r, EventOf(fl).version);
  }

  lemma HarmlessDeleteKeepsSound(s: State, id: FlightId)
    requires Sound(s) && Flies(s, id, Undoing) && !Harmful(s, DeleteEvent(id, false))
    ensures Sound(AfterDelete(s, id, false))
    ensures Core(AfterDelete(s, id, false).world) == Core(s.world)
  {
    var w, fl := s.world, s.flights[id];
    var v := EventOf(fl).version;
    DeleteHits(s, id);
    if v !in EventsOf(w.store, fl.r) {
      DeletedNothing(w, fl.r, v);
      FlightLeaves(s, id, w);
    } else {
      DeletedAhead(w, fl.r, v);
      forall q | q in s.flights && q != id ensures Leaves(w, Deleted(w, fl.r, v), s.flights[q]) {
        DeletedLeaves(w, fl.r, v, s.flights[q]);
      }
      FlightLeaves(s, id, Deleted(w, fl.r, v));
    }
  }

  /** CURRENT would stand for an event that is not there. */
  lemma MissingEvent(w: World, r: RequestId, ev: Event, up: Update)
    requires IsNext(w, r, ev) && up.stateVersion == Some(ev.version) && ev.version !in EventsOf(w.store, r)
    ensures !Inv(Core(Updated(w, r, up)))
  {
    var w' := Updated(w, r, up);
    CoreOf(w', r);
    assert EventsOf(w'.store, r) == EventsOf(w.store, r);
    assert Inv(Core(w')) ==> RequestOk(Core(w'), r);
  }

  lemma DeletedLeavesNext(w: World, r: RequestId, ev: Event, expected: Option<nat>)
    requires IsNext(w, r, ev) && expected == w.store.current[r].stateVersion
    ensures var w' := Deleted(w, r, ev.version);
            IsNext(w', r, ev) && ev.version !in EventsOf(w'.store, r) && Expected(w'.store, r, expected)
  {
  }

  lemma SameVersion(s: State, id: FlightId, victim: FlightId)
    requires Sound(s) && Flies(s, id, Undoing) && Flies(s, victim, Waiting) && s.flights[victim].r == s.flights[id].r
    requires EventOf(s.flights[id]).version in EventsOf(s.world.store, s.flights[id].r)
    requires EventOf(s.flights[id]).version > VersionOf(s.world, s.flights[id].r)
    ensures EventOf(s.flights[id]).version == EventOf(s.flights[victim]).version
  {
    DeleteHits(s, id);
    assert FlightOk(s, victim);
  }

  /** A victim's event is gone, but the victim does not know. */
  lemma VictimStranded(s: State, id: FlightId, victim: FlightId)
    requires Sound(s) && Flies(s, id, Undoing) && Flies(s, victim, Waiting) && s.flights[victim].r == s.flights[id].r
    requires EventOf(s.flights[id]).version in EventsOf(s.world.store, s.flights[id].r)
    requires EventOf(s.flights[id]).version > VersionOf(s.world, s.flights[id].r)
    ensures var s' := AfterDelete(s, id, false);
            && Flies(s', victim, Waiting) && !FlightOk(s', victim)
            && !Inv(Core(AfterUpdate(s', victim, false).world))
  {
    var fl := s.flights[victim];
    var Append(ev, up, expected) := Decide(Some(fl.snap), fl.call, fl.f);
    SameVersion(s, id, victim);
    WaitingPlan(s, victim);
    DeletedLeavesNext(s.world, fl.r, ev, expected);
    MissingEvent(Deleted(s.world, fl.r, ev.version), fl.r, ev, up);
  }

  /** A delete is harmful exactly when it breaks the log, or leaves it to be broken
      by the update of a fallback that still waits. */
  lemma DeleteKeepsSoundIff(s: State, id: FlightId, refused: bool)
    requires Sound(s) && Flies(s, id, Undoing)
    ensures Sound(AfterDelete(s, id, refused)) <==> !Harmful(s, DeleteEvent(id, refused))
    ensures Harmful(s, DeleteEvent(id, refused)) ==>
              var s' := AfterDelete(s, id, refused);
              !Inv(Core(s'.world))
              || exists q :: Flies(s', q, Waiting) && !Inv(Core(AfterUpdate(s', q, false).world))
  {
    var w, fl := s.world, s.flights[id];
    if refused {
      FlightLeaves(s, id, w);
    } else if !Harmful(s, DeleteEvent(id, refused)) {
      HarmlessDeleteKeepsSound(s, id);
    } else {
      DeleteHits(s, id);
      if EventOf(fl).version <= VersionOf(w, fl.r) {
        DeletedCommitted(w, fl.r, EventOf(fl).version);
      } else {
        var q :| q in s.flights && s.flights[q].stage == Waiting && s.flights[q].r == fl.r;
        assert FlightOk(s, q);
        VictimStranded(s, id, q);
      }
    }
  }

  // ----- every run

  /** Only a harmful delete can end soundness. */
  lemma MoveKeepsSoundIff(s: State, m: Move)
    requires Sound(s)
    ensures Sound(Apply(s, m)) <==> !Harmful(s, m)
  {
    match m
    case Transact(a) =>
      if Enabled(s.world, a) && ClockOk(a) {
        if a.Create? {
          CreateKeepsSound(s, a);
        } else {
          WriteKeepsSound(s, a);
        }
      }
    case PutEvent(id, r, snap, call, f, refused) =>
      if CanPut(s, id, r, snap, call, f) {
        PutKeepsSound(s, id, r, snap, call, f, refused);
      }
    case UpdateCurrent(id, refused) =>
      if Flies(s, id, Waiting) {
        UpdateKeepsSound(s, id, refused);
      }
    case DeleteEvent(id, refused) =>
      if Flies(s, id, Undoing) {
        DeleteKeepsSoundIff(s, id, refused);
      }
    case Die(id) => FlightLeaves(s, id, s.world);
  }

  predicate Harmless(s: State, moves: seq<Move>)
    decreases |moves|
  {
    moves != [] ==> !Harmful(s, moves[0]) && Harmless(Apply(s, moves[0]), moves[1..])
  }

  ghost predicate StaysSound(s: State, moves: seq<Move>)
    decreases |moves|
  {
    Sound(s) && (moves != [] ==> StaysSound(Apply(s, moves[0]), moves[1..]))
  }

  /** With any number of fallbacks and transactional writers interleaved step by
      step: the log of every request stays well-formed, and the event of every
      fallback under way stays in place, exactly while no failed fallback deletes
      an event that is committed or still waited for. */
  lemma {:induction false} LogSurvivesIff(s: State, moves: seq<Move>)
    requires Sound(s)
    ensures StaysSound(s, moves) <==> Harmless(s, moves)
    decreases |moves|
  {
    if moves != [] {
      MoveKeepsSoundIff(s, moves[0]);
      if !Harmful(s, moves[0]) {
        LogSurvivesIff(Apply(s, moves[0]), moves[1..]);
      } else {
        assert !StaysSound(Apply(s, moves[0]), moves[1..]);
      }
    }
  }

  lemma PutLeavesCore(s: State, id: FlightId, r: RequestId, snap: Current, call: Call, f: Fresh, refused: bool)
    requires Sound(s) && CanPut(s, id, r, snap, call, f)
    ensures Core(AfterPut(s, id, r, snap, call, f, refused).world) == Core(s.world)
  {
    var ev := Decide(Some(snap), call, f).event;
    if !refused && ev.version !in EventsOf(s.world.store, r) {
      FreeIsNext(s.world, r, snap, call, f);
      PlacedSurvives(s.world, r, ev);
    }
  }

  lemma DeleteLeavesCore(s: State, id: FlightId, refused: bool)
    requires Sound(s) && Flies(s, id, Undoing) && !Harmful(s, DeleteEvent(id, refused))
    ensures Core(AfterDelete(s, id, refused).world) == Core(s.world)
  {
    if !refused {
      HarmlessDeleteKeepsSound(s, id);
    }
  }

  /** The transactional step that a move amounts to, if any. */
  function Serial(s: State, m: Move): Option<Act> {
    match m
    case Transact(a) => Some(a)
    case UpdateCurrent(id, false) =>
      if Flies(s, id, Waiting) then
        Some(Do(s.flights[id].r, Some(s.flights[id].snap), s.flights[id].call, s.flights[id].f))
      else None
    case _ => None
  }

  lemma UpdateIsSerial(s: State, id: FlightId, refused: bool)
    requires Sound(s) && Flies(s, id, Waiting)
    ensures refused ==> AfterUpdate(s, id, refused).world == s.world
    ensures !refused ==>
              var fl := s.flights[id];
              var a := Do(fl.r, Some(fl.snap), fl.call, fl.f);
              Enabled(Core(s.world), a) && ClockOk(a)
              && Core(AfterUpdate(s, id, refused).world) == Step(Core(s.world), a)
  {
    UpdateAppends(s, id);
  }

  /** To the committed log the move was nothing, or this one step. */
  predicate Amounts(w: World, w': World, a: Option<Act>) {
    Core(w') == Core(w)
    || (a.Some? && Enabled(Core(w), a.value) && ClockOk(a.value) && Core(w') == Step(Core(w), a.value))
  }

  lemma TransactAmounts(s: State, a: Act)
    requires Sound(s)
    ensures Amounts(s.world, AfterTransact(s, a).world, Some(a))
  {
    if Enabled(s.world, a) && ClockOk(a) {
      TransactInCore(s.world, a);
    }
  }

  lemma MoveIsSerial(s: State, m: Move)
    requires Sound(s) && !Harmful(s, m)
    ensures Amounts(s.world, Apply(s, m).world, Serial(s, m))
  {
    match m
    case Transact(a) => TransactAmounts(s, a);
    case PutEvent(id, r, snap, call, f, refused) =>
      if CanPut(s, id, r, snap, call, f) {
        PutLeavesCore(s, id, r, snap, call, f, refused);
      }
    case UpdateCurrent(id, refused) =>
      if Flies(s, id, Waiting) {
        UpdateIsSerial(s, id, refused);
      }
    case DeleteEvent(id, refused) =>
      if Flies(s, id, Undoing) {
        DeleteLeavesCore(s, id, refused);
      }
    case Die(id) =>
  }

  /** Serializability: what a harmless run has committed is what some run of
      transactional writers alone commits. */
  lemma {:induction false} HarmlessRunsSerialize(s: State, moves: seq<Move>) returns (acts: seq<Act>)
    requires Sound(s) && Harmless(s, moves)
    ensures Runs(Core(s.world), acts) && (forall a :: a in acts ==> ClockOk(a))
    ensures Run(Core(s.world), acts) == Core(ApplyAll(s, moves).world) && Survives(ApplyAll(s, moves).world)
    decreases |moves|
  {
    acts := [];
    if moves != [] {
      var s1 := Apply(s, moves[0]);
      MoveKeepsSoundIff(s, moves[0]);
      MoveIsSerial(s, moves[0]);
      acts := HarmlessRunsSerialize(s1, moves[1..]);
      if Core(s1.world) != Core(s.world) {
        assert ([Serial(s, moves[0]).value] + acts)[1..] == acts;
        acts := [Serial(s, moves[0]).value] + acts;
      }
    }
  }

  /** A well-formed world with no fallback under way. */
  lemma BeginsSound(w: World)
    requires Inv(w)
    ensures Sound(State(w, map[])) && Core(w) == w
  {
    CoreOfInv(w);
  }

  /** From a well-formed world, in the world's own terms. */
  lemma HarmlessRunsFromInv(w: World, moves: seq<Move>) returns (acts: seq<Act>)
    requires Inv(w) && Harmless(State(w, map[]), moves)
    ensures Runs(w, acts) && (forall a :: a in acts ==> ClockOk(a))
    ensures Core(ApplyAll(State(w, map[]), moves).world) == Run(w, acts)
  {
    BeginsSound(w);
    acts := HarmlessRunsSerialize(State(w, map[]), moves);
  }

  // ----- two fallbacks

  /** An append decided on the present version brings the next event. */
  lemma DecidedIsNext(w: World, r: RequestId, snap: Current, call: Call, f: Fresh)
    requires Inv(w) && r in w.store.current && snap in PastOf(w, r) && ValidCall(call) && f.now != ""
    requires Decide(Some(snap), call, f).Append? && snap.stateVersion == w.store.current[r].stateVersion
    ensures IsNext(w, r, Decide(Some(snap), call, f).event)
    ensures Decide(Some(snap), call, f).event.version !in EventsOf(w.store, r)
  {
    CoreOfInv(w);
    PlanInCore(w, r, snap, call, f);
    NextIsFree(w, r, Decide(Some(snap), call, f).event);
  }

  /** The second put meets the first one's event. */
  lemma RaceBegins(w: World, a: Flight, b: Flight)
    requires Inv(w) && a.r == b.r && a.r in w.store.current
    requires CanPut(State(w, map[]), 0, a.r, a.snap, a.call, a.f)
    requires CanPut(State(w, map[]), 1, b.r, b.snap, b.call, b.f)
    requires a.snap.stateVersion == b.snap.stateVersion == w.store.current[a.r].stateVersion
    requires a.stage == Waiting && b.stage == Undoing
    ensures var s1 := AfterPut(State(w, map[]), 0, a.r, a.snap, a.call, a.f, false);
            && s1 == State(Placed(w, a.r, EventOf(a)), map[0 := a])
            && CanPut(s1, 1, b.r, b.snap, b.call, b.f)
            && AfterPut(s1, 1, b.r, b.snap, b.call, b.f, false) == State(s1.world, map[0 := a, 1 := b])
            && EventOf(a).version == EventOf(b).version
  {
    DecidedIsNext(w, a.r, a.snap, a.call, a.f);
    DecidedIsNext(w, b.r, b.snap, b.call, b.f);
  }

  lemma RaceEnds(s: State, refused: bool)
    requires Sound(s) && Flies(s, 0, Waiting) && Flies(s, 1, Undoing) && s.flights[0].r == s.flights[1].r
    requires EventOf(s.flights[0]).version == EventOf(s.flights[1]).version
    ensures Flies(AfterDelete(s, 1, refused), 0, Waiting)
    ensures Inv(Core(AfterUpdate(AfterDelete(s, 1, refused), 0, false).world)) <==> refused
  {
    if refused {
      FlightLeaves(s, 1, s.world);
      UpdateKeepsSound(AfterDelete(s, 1, true), 0, false);
    } else {
      WaitingPlan(s, 0);
      VictimStranded(s, 1, 0);
    }
  }

  /** Neither caller is stale, and the first finds its key free: the second, whose
      put fails, deletes the first's event, and the first then moves CURRENT to an
      event that is not there. The log survives exactly if that delete fails. */
  lemma TwoFallbacksRace(w: World, a: Flight, b: Flight, refused: bool)
    requires Inv(w) && a.r == b.r && a.r in w.store.current
    requires CanPut(State(w, map[]), 0, a.r, a.snap, a.call, a.f)
    requires CanPut(State(w, map[]), 1, b.r, b.snap, b.call, b.f)
    requires a.snap.stateVersion == b.snap.stateVersion == w.store.current[a.r].stateVersion
    requires a.stage == Waiting && b.stage == Undoing
    ensures var s1 := AfterPut(State(w, map[]), 0, a.r, a.snap, a.call, a.f, false);
            CanPut(s1, 1, b.r, b.snap, b.call, b.f)
            && var s2 := AfterPut(s1, 1, b.r, b.snap, b.call, b.f, false);
               Flies(s2, 1, Undoing) && Flies(AfterDelete(s2, 1, refused), 0, Waiting)
               && (Inv(Core(AfterUpdate(AfterDelete(s2, 1, refused), 0, false).world)) <==> refused)
  {
    var s0 := State(w, map[]);
    BeginsSound(w);
    RaceBegins(w, a, b);
    var s1 := AfterPut(s0, 0, a.r, a.snap, a.call, a.f, false);
    PutKeepsSound(s0, 0, a.r, a.snap, a.call, a.f, false);
    PutKeepsSound(s1, 1, b.r, b.snap, b.call, b.f, false);
    RaceEnds(State(s1.world, map[0 := a, 1 := b]), refused);
  }

  // ----- one fallback on its own, whatever others have left behind

  lemma FreeFallbackAppends(w: World, r: RequestId, snap: Current, call: Call, f: Fresh)
    requires Survives(w) && r in w.store.current && snap in PastOf(w, r) && ValidCall(call) && f.now != ""
    requires Decide(Some(snap), call, f).Append? && IsNext(w, r, Decide(Some(snap), call, f).event)
    requires Decide(Some(snap), call, f).event.version !in EventsOf(w.store, r)
    ensures var Append(ev, up, expected) := Decide(Some(snap), call, f);
            var w' := Updated(Placed(w, r, ev), r, up);
            && Expected(w.store, r, expected) && Survives(w') && Core(w') == Step(Core(w), Do(r, Some(snap), call, f))
  {
    var Append(ev, up, expected) := Decide(Some(snap), call, f);
    var placed := Placed(w, r, ev);
    PlacedSurvives(w, r, ev);
    PlanOfNext(w, r, snap, call, f);
    EnabledInCore(w, r, snap, call, f);
    UpdateInCore(placed, r, ev, up);
    StepKeepsInv(Core(w), Do(r, Some(snap), call, f));
    UpdatedBounded(placed, r, ev, up);
  }

  /** On any store whose committed log is well-formed, the fallback of a decided
      append answers success exactly if its key is free, and keeps the committed
      log well-formed exactly if the version it read is still the current one;
      whenever it fails it takes away what lies under its key. */
  lemma KeepsCommittedLogIff(w: World, r: RequestId, snap: Current, call: Call, f: Fresh)
    requires Survives(w) && r in w.store.current && snap in PastOf(w, r) && ValidCall(call) && f.now != ""
    requires Decide(Some(snap), call, f).Append?
    ensures var Append(ev, up, expected) := Decide(Some(snap), call, f);
            var (w', answer) := Fallback(w, r, ev, up, expected, NO_FAULTS);
            && (answer.Done? <==> ev.version !in EventsOf(w.store, r))
            && (Survives(w') <==> snap.stateVersion == w.store.current[r].stateVersion)
            && (answer.Done? ==> Core(w') == Step(Core(w), Do(r, Some(snap), call, f)))
            && (!answer.Done? ==> ev.version !in EventsOf(w'.store, r))
  {
    var Append(ev, up, expected) := Decide(Some(snap), call, f);
    PlanInCore(w, r, snap, call, f);
    EventsAre(w, r, ev.version);
    if ev.version !in EventsOf(w.store, r) {
      FreeIsNext(w, r, snap, call, f);
      FreeFallbackAppends(w, r, snap, call, f);
    } else if ev.version <= VersionOf(w, r) {
      DeletedCommitted(w, r, ev.version);
    } else {
      DeletedAhead(w, r, ev.version);
    }
  }

  // ----- what is left behind

  /** An event lies ahead of CURRENT. */
  predicate Ahead(w: World, r: RequestId) {
    r in w.store.current && VersionOf(w, r) + 1 in EventsOf(w.store, r)
  }

  predicate NobodyWaitsAt(flights: map<FlightId, Flight>, r: RequestId) {
    forall q :: q in flights && flights[q].stage == Waiting ==> flights[q].r != r
  }

  /** And no fallback is waiting with it. */
  predicate Leftover(s: State, r: RequestId) {
    Ahead(s.world, r) && NobodyWaitsAt(s.flights, r)
  }

  /** A failed fallback deletes just that event. */
  predicate Unblocks(s: State, m: Move, r: RequestId) {
    m.DeleteEvent? && !m.refused && Flies(s, m.id, Undoing) && s.flights[m.id].r == r
    && EventOf(s.flights[m.id]).version == VersionOf(s.world, r) + 1
  }

  /** A change to another request's items, or to this one's fields. */
  lemma ReplacedAhead(w: World, q: RequestId, c: Current, log: Log, p: seq<Current>, r: RequestId)
    requires Ahead(w, r)
    requires q == r ==> log == EventsOf(w.store, r) && c.stateVersion == w.store.current[r].stateVersion
    ensures var w' := Replaced(w, q, c, log, p);
            Ahead(w', r) && VersionOf(w', r) == VersionOf(w, r)
  {
  }

  lemma TransactLeavesLeftover(s: State, a: Act, r: RequestId)
    requires Sound(s) && Leftover(s, r)
    ensures Leftover(AfterTransact(s, a), r) && VersionOf(AfterTransact(s, a).world, r) == VersionOf(s.world, r)
  {
    var w := s.world;
    if Enabled(w, a) && ClockOk(a) {
      if a.Create? {
        var c := FirstCurrent(a.incidentId, a.drawn);
        ReplacedAhead(w, a.id, c, map[1 := FirstEvent(a.drawn)], [c], r);
      } else if Commit(w.store, a.r, Decide(a.snap, a.call, a.f)).Some? {
        WrittenIsCreated(w, a);
        var c, log := WriteReplaces(w, a.r, a.snap, a.call, a.f);
        ReplacedAhead(w, a.r, c, log, PastOf(w, a.r) + [c], r);
      }
    }
  }

  lemma DeletedAheadIff(w: World, q: RequestId, v: nat, r: RequestId)
    requires Ahead(w, r)
    ensures VersionOf(Deleted(w, q, v), r) == VersionOf(w, r)
    ensures Ahead(Deleted(w, q, v), r) <==> !(q == r && v == VersionOf(w, r) + 1)
  {
    assert q != r ==> EventsOf(Deleted(w, q, v).store, r) == EventsOf(w.store, r);
  }

  lemma DeleteOfLeftover(s: State, id: FlightId, refused: bool, r: RequestId)
    requires Leftover(s, r) && Flies(s, id, Undoing)
    ensures var s' := AfterDelete(s, id, refused);
            && VersionOf(s'.world, r) == VersionOf(s.world, r)
            && (Leftover(s', r) <==> !Unblocks(s, DeleteEvent(id, refused), r))
  {
    var fl := s.flights[id];
    DeletedAheadIff(s.world, fl.r, EventOf(fl).version, r);
    assert NobodyWaitsAt(s.flights - {id}, r);
  }

  lemma PlacedAhead(w: World, q: RequestId, ev: Event, r: RequestId)
    requires Ahead(w, r) && IsNext(w, q, ev) && ev.version !in EventsOf(w.store, q)
    ensures q != r && Ahead(Placed(w, q, ev), r) && VersionOf(Placed(w, q, ev), r) == VersionOf(w, r)
  {
    assert q != r ==> EventsOf(Placed(w, q, ev).store, r) == EventsOf(w.store, r);
  }

  lemma JoiningElsewhere(flights: map<FlightId, Flight>, id: FlightId, fl: Flight, r: RequestId)
    requires NobodyWaitsAt(flights, r) && (fl.stage == Waiting ==> fl.r != r)
    ensures NobodyWaitsAt(flights[id := fl], r)
  {
  }

  lemma PutLeavesLeftover(s: State, id: FlightId, q: RequestId, snap: Current, call: Call, f: Fresh, refused: bool,
                          r: RequestId)
    requires Survives(s.world) && Leftover(s, r) && CanPut(s, id, q, snap, call, f)
    ensures var s' := AfterPut(s, id, q, snap, call, f, refused);
            Leftover(s', r) && VersionOf(s'.world, r) == VersionOf(s.world, r)
  {
    var ev := Decide(Some(snap), call, f).event;
    if refused || ev.version in EventsOf(s.world.store, q) {
      JoiningElsewhere(s.flights, id, Flight(q, snap, call, f, Undoing), r);
    } else {
      FreeIsNext(s.world, q, snap, call, f);
      PlacedAhead(s.world, q, ev, r);
      JoiningElsewhere(s.flights, id, Flight(q, snap, call, f, Waiting), r);
    }
  }

  lemma UpdateLeavesLeftover(s: State, id: FlightId, refused: bool, r: RequestId)
    requires Leftover(s, r) && Flies(s, id, Waiting)
    ensures var s' := AfterUpdate(s, id, refused);
            Leftover(s', r) && VersionOf(s'.world, r) == VersionOf(s.world, r)
  {
    var q := s.flights[id].r;
    assert q != r;
    assert NobodyWaitsAt(s.flights - {id}, r);
  }

  /** Nothing moves the version of such a request, and nothing but such a delete
      ends its being stuck. */
  lemma MoveKeepsLeftoverIff(s: State, m: Move, r: RequestId)
    requires Sound(s) && Leftover(s, r)
    ensures VersionOf(Apply(s, m).world, r) == VersionOf(s.world, r)
    ensures Leftover(Apply(s, m), r) <==> !Unblocks(s, m, r)
  {
    match m
    case Transact(a) => TransactLeavesLeftover(s, a, r);
    case PutEvent(id, q, snap, call, f, refused) =>
      if CanPut(s, id, q, snap, call, f) {
        PutLeavesLeftover(s, id, q, snap, call, f, refused, r);
      }
    case UpdateCurrent(id, refused) =>
      if Flies(s, id, Waiting) {
        UpdateLeavesLeftover(s, id, refused, r);
      }
    case DeleteEvent(id, refused) =>
      if Flies(s, id, Undoing) {
        DeleteOfLeftover(s, id, refused, r);
      }
    case Die(id) => assert NobodyWaitsAt(s.flights - {id}, r);
  }

  predicate NeverUnblocked(s: State, moves: seq<Move>, r: RequestId)
    decreases |moves|
  {
    moves != [] ==> !Unblocks(s, moves[0], r) && NeverUnblocked(Apply(s, moves[0]), moves[1..], r)
  }

  /** An event left behind blocks its request, whoever tries, until a failed
      fallback deletes it. */
  lemma {:induction false} LeftoverBlocksUntilDeleted(s: State, moves: seq<Move>, r: RequestId)
    requires Sound(s) && Leftover(s, r) && Harmless(s, moves) && NeverUnblocked(s, moves, r)
    ensures Leftover(ApplyAll(s, moves), r)
    ensures VersionOf(ApplyAll(s, moves).world, r) == VersionOf(s.world, r)
    decreases |moves|
  {
    if moves != [] {
      MoveKeepsSoundIff(s, moves[0]);
      MoveKeepsLeftoverIff(s, moves[0], r);
      LeftoverBlocksUntilDeleted(Apply(s, moves[0]), moves[1..], r);
    }
  }
}
