/** The append without a transaction: put the event if its key is free, update
    CURRENT under its condition, and delete the event key if anything failed. */
module AppendFallback {
  import opened Wrappers
  import opened RequestLifecycle
  import opened RequestStore
  import opened Writers
  import opened EventLog

  /** Which of the three calls the backend refuses of its own accord. */
  datatype Faults = Faults(put: bool, update: bool, delete: bool)

  const NO_FAULTS := Faults(false, false, false)

  datatype Answer = Done | ConflictError | ClientError

  function PlacedStore(st: Store, r: RequestId, ev: Event): Store {
    st.(events := st.events[r := EventsOf(st, r)[ev.version := ev]])
  }

  /** The event is stored, CURRENT is not updated yet. */
  function Placed(w: World, r: RequestId, ev: Event): World {
    w.(store := PlacedStore(w.store, r, ev))
  }

  function Updated(w: World, r: RequestId, up: Update): World {
    var c := Patch(Get(w.store.current, r).GetOr(BLANK), up);
    World(w.store.(current := w.store.current[r := c]), w.past[r := PastOf(w, r) + [c]])
  }

  function Deleted(w: World, r: RequestId, version: nat): World {
    w.(store := w.store.(events := w.store.events[r := EventsOf(w.store, r) - {version}]))
  }

  predicate Expected(st: Store, r: RequestId, expected: Option<nat>) {
    expected.Some? ==> VersionIs(st, r, expected.value)
  }

  /** What the three calls amount to when nobody acts in between. */
  function Fallback(w: World, r: RequestId, ev: Event, up: Update, expected: Option<nat>, faults: Faults)
    : (World, Answer)
  {
    var undo := (w: World) => if faults.delete then w else Deleted(w, r, ev.version);
    if faults.put then (undo(w), ClientError)
    else if ev.version in EventsOf(w.store, r) then (undo(w), ConflictError)
    else if faults.update then (undo(Placed(w, r, ev)), ClientError)
    else if !Expected(w.store, r, expected) then (undo(Placed(w, r, ev)), ConflictError)
    else (Updated(Placed(w, r, ev), r, up), Done)
  }

  method FallbackAppend(repo: Repository, r: RequestId, ev: Event, up: Update, expected: Option<nat>, faults: Faults)
    returns (answer: Answer)
    modifies repo
    ensures (repo.View(), answer) == Fallback(old(repo.View()), r, ev, up, expected, faults)
  {
    var log := if r in repo.events then repo.events[r] else map[];
    if faults.put {
      answer := ClientError;
    } else if ev.version in log {
      answer := ConflictError;
    } else {
      log := log[ev.version := ev];
      repo.events := repo.events[r := log];
      if faults.update {
        answer := ClientError;
      } else if expected.Some? && (r !in repo.current || repo.current[r].stateVersion != expected) {
        answer := ConflictError;
      } else {
        var item := if r in repo.current then repo.current[r] else BLANK;
        repo.current := repo.current[r := Patch(item, up)];
        repo.past := repo.past[r := (if r in repo.past then repo.past[r] else []) + [repo.current[r]]];
        return Done;
      }
    }
    if !faults.delete {
      repo.events := repo.events[r := log - {ev.version}];
    }
  }

  /** What an answer tells: a conflict means a taken key or a version that is not
      the expected one, and every other failure is the backend's own. */
  lemma AnswersTell(w: World, r: RequestId, ev: Event, up: Update, expected: Option<nat>, faults: Faults)
    ensures var answer := Fallback(w, r, ev, up, expected, faults).1;
            var taken := ev.version in EventsOf(w.store, r);
            var moved := expected.Some? && !(r in w.store.current && w.store.current[r].stateVersion == expected);
            && (answer.ConflictError? <==> !faults.put && (taken || (!faults.update && moved)))
            && (answer.ClientError? <==> faults.put || (!taken && faults.update))
            && (answer.Done? <==> !faults.put && !taken && !faults.update && !moved)
  {
  }

  /** Same items in the table: a request without events is one without a log. */
  ghost predicate SameItems(w: World, w': World) {
    && w.store.current == w'.store.current && w.past == w'.past
    && forall q :: EventsOf(w.store, q) == EventsOf(w'.store, q)
  }

  // ----- undisturbed

  lemma DeletingUndoes(w: World, r: RequestId, ev: Event)
    requires ev.version !in EventsOf(w.store, r)
    ensures SameItems(Deleted(Placed(w, r, ev), r, ev.version), w) && SameItems(Deleted(w, r, ev.version), w)
  {
    var log := EventsOf(w.store, r);
    assert log[ev.version := ev] - {ev.version} == log == log - {ev.version};
  }

  lemma FinishedIsAppended(w: World, r: RequestId, ev: Event, up: Update, expected: Option<nat>)
    requires ev.version !in EventsOf(w.store, r) && Expected(w.store, r, expected)
    ensures Updated(Placed(w, r, ev), r, up) == Write(w, r, Append(ev, up, expected))
  {
  }

  /** With nobody in between, the fallback ends in the same state and with the
      same answer as the transaction exactly when the event key was free. */
  lemma AgreesWithTransactionIffKeyFree(w: World, r: RequestId, ev: Event, up: Update, expected: Option<nat>)
    ensures var (w', answer) := Fallback(w, r, ev, up, expected, NO_FAULTS);
            SameItems(w', Write(w, r, Append(ev, up, expected)))
            && (answer.Done? <==> AppendTransaction(w.store, r, ev, up, expected).Some?)
            <==> ev.version !in EventsOf(w.store, r)
  {
    if ev.version in EventsOf(w.store, r) {
      assert ev.version !in EventsOf(Deleted(w, r, ev.version).store, r);
    } else if Expected(w.store, r, expected) {
      FinishedIsAppended(w, r, ev, up, expected);
    } else {
      DeletingUndoes(w, r, ev);
    }
  }

  /** Given a free key, the fallback is all or nothing exactly when its put failed,
      its delete works, or its update goes through; and all is what the
      transaction would have done. */
  lemma AllOrNothing(w: World, r: RequestId, ev: Event, up: Update, expected: Option<nat>, faults: Faults)
    requires ev.version !in EventsOf(w.store, r)
    ensures var (w', answer) := Fallback(w, r, ev, up, expected, faults);
            && (answer.Done? ==> w' == Write(w, r, Append(ev, up, expected)))
            && (answer.Done? || SameItems(w', w)
                <==> faults.put || !faults.delete || (!faults.update && Expected(w.store, r, expected)))
  {
    DeletingUndoes(w, r, ev);
    if Expected(w.store, r, expected) {
      FinishedIsAppended(w, r, ev, up, expected);
    }
    assert ev.version in EventsOf(Placed(w, r, ev).store, r);
  }

  lemma EventErased(w: World, w': World, r: RequestId, version: nat)
    requires Inv(w) && r in w.store.current && w' == Deleted(w, r, version)
    requires version in EventsOf(w.store, r)
    ensures !Inv(w')
  {
    assert RequestOk(w, r);
    assert version !in EventsOf(w'.store, r);
    assert w'.store.current == w.store.current;
    assert Inv(w') ==> RequestOk(w', r);
  }

  /** On a well-formed store the fallback of a decided append keeps the log
      well-formed exactly when the version it read is still the current one.
      A stale caller erases an event that somebody else has committed. */
  lemma KeepsLogIffReadWasCurrent(w: World, r: RequestId, snap: Current, call: Call, f: Fresh)
    requires Inv(w) && r in w.store.current && snap in PastOf(w, r) && ValidCall(call) && f.now != ""
    requires Decide(Some(snap), call, f).Append?
    ensures var Append(ev, up, expected) := Decide(Some(snap), call, f);
            var (w', answer) := Fallback(w, r, ev, up, expected, NO_FAULTS);
            && (Inv(w') <==> snap.stateVersion == w.store.current[r].stateVersion)
            && (Inv(w') <==> answer.Done?)
            && (!Inv(w') ==> ev.version in EventsOf(w.store, r) && ev.version !in EventsOf(w'.store, r))
  {
    var Append(ev, up, expected) := Decide(Some(snap), call, f);
    var (w', answer) := Fallback(w, r, ev, up, expected, NO_FAULTS);
    var _ := SnapshotAt(w, r, snap);
    AppendPlan(snap, call, f);
    assert RequestOk(w, r);
    var n := w.store.current[r].stateVersion.value;
    if snap.stateVersion.value == n {
      AllOrNothing(w, r, ev, up, expected, NO_FAULTS);
      StepKeepsInv(w, Do(r, Some(snap), call, f));
    } else {
      EventErased(w, w', r, ev.version);
    }
  }

  // ----- others in between

  /** The event is the one that comes after CURRENT's version. */
  predicate IsNext(w: World, r: RequestId, ev: Event) {
    && r in w.store.current && w.store.current[r].stateVersion.Some?
    && ev.version == w.store.current[r].stateVersion.value + 1
  }

  /** Setting two different keys of a map. */
  lemma EventsAround(m: map<RequestId, Log>, r: RequestId, x: Log, q: RequestId, y: Log)
    requires q != r
    ensures m[r := x][q := y] == m[q := y][r := x]
  {
  }

  lemma CreateAround(w: World, r: RequestId, ev: Event, a: Act)
    requires Inv(w) && IsNext(w, r, ev)
    requires a.Create? && Enabled(w, a)
    ensures Step(Placed(w, r, ev), a) == Placed(Step(w, a), r, ev)
    ensures IsNext(Step(w, a), r, ev)
  {
    EventsAround(w.store.events, r, EventsOf(w.store, r)[ev.version := ev], a.id, map[1 := FirstEvent(a.drawn)]);
  }

  lemma CommitAround(st: Store, r: RequestId, ev: Event, q: RequestId, d: Decision)
    requires q != r
    ensures var after := Commit(st, q, d);
            Commit(PlacedStore(st, r, ev), q, d)
            == if after.Some? then Some(PlacedStore(after.value, r, ev)) else None
  {
    assert EventsOf(PlacedStore(st, r, ev), q) == EventsOf(st, q);
    if d.Append? {
      EventsAround(st.events, r, EventsOf(st, r)[ev.version := ev], q, EventsOf(st, q)[d.event.version := d.event]);
    }
  }

  lemma OtherAround(w: World, r: RequestId, ev: Event, q: RequestId, d: Decision)
    requires IsNext(w, r, ev) && q != r
    ensures Write(Placed(w, r, ev), q, d) == Placed(Write(w, q, d), r, ev)
    ensures IsNext(Write(w, q, d), r, ev)
  {
    CommitAround(w.store, r, ev, q, d);
  }

  lemma AppendBlocked(w: World, r: RequestId, ev: Event, d: Decision)
    requires IsNext(w, r, ev) && d.Append? && d.expected.Some? && d.event.version == d.expected.value + 1
    ensures Write(Placed(w, r, ev), r, d) == Placed(w, r, ev)
  {
  }

  lemma FieldsAround(w: World, r: RequestId, ev: Event, d: Decision)
    requires IsNext(w, r, ev) && d.WriteFields?
    requires forall c :: Patch(c, d.update).stateVersion == c.stateVersion
    ensures Write(Placed(w, r, ev), r, d) == Placed(Write(w, r, d), r, ev) && IsNext(Write(w, r, d), r, ev)
  {
  }

  lemma OwnAround(w: World, r: RequestId, ev: Event, a: Act)
    requires Inv(w) && IsNext(w, r, ev)
    requires a.Do? && a.r == r && Enabled(w, a) && ClockOk(a)
    ensures Step(Placed(w, r, ev), a) == Placed(w, r, ev)
            || (Step(Placed(w, r, ev), a) == Placed(Step(w, a), r, ev) && IsNext(Step(w, a), r, ev))
  {
    var d := Decide(a.snap, a.call, a.f);
    if d.Append? {
      var _ := SnapshotAt(w, r, a.snap.value);
      AppendPlan(a.snap.value, a.call, a.f);
      AppendBlocked(w, r, ev, d);
    } else if d.WriteFields? {
      FieldsPlan(a.snap, a.call, a.f);
      FieldsAround(w, r, ev, d);
    }
  }

  /** While the event is placed, every step of a transactional writer either
      comes to nothing or does what it would have done without that event, and
      none of them moves the version. */
  lemma StepAround(w: World, r: RequestId, ev: Event, a: Act)
    requires Inv(w) && IsNext(w, r, ev)
    requires Enabled(Placed(w, r, ev), a) && ClockOk(a)
    ensures Step(Placed(w, r, ev), a) == Placed(w, r, ev)
            || (Enabled(w, a) && Step(Placed(w, r, ev), a) == Placed(Step(w, a), r, ev)
                && IsNext(Step(w, a), r, ev))
  {
    match a
    case Create(id, _, _) =>
      CreateAround(w, r, ev, a);
    case Do(q, snap, call, f) =>
      if q == r {
        OwnAround(w, r, ev, a);
      } else {
        OtherAround(w, r, ev, q, Decide(snap, call, f));
      }
  }

  /** So a run around the placed event is a run without it. */
  lemma {:induction false} RunAround(w: World, r: RequestId, ev: Event, acts: seq<Act>) returns (kept: seq<Act>)
    requires Inv(w) && IsNext(w, r, ev)
    requires Runs(Placed(w, r, ev), acts) && forall a :: a in acts ==> ClockOk(a)
    ensures Runs(w, kept) && forall a :: a in kept ==> a in acts
    ensures Run(Placed(w, r, ev), acts) == Placed(Run(w, kept), r, ev)
    ensures IsNext(Run(w, kept), r, ev)
    decreases |acts|
  {
    kept := [];
    if acts != [] {
      var a := acts[0];
      StepAround(w, r, ev, a);
      if Step(Placed(w, r, ev), a) == Placed(w, r, ev) {
        kept := RunAround(w, r, ev, acts[1..]);
      } else {
        StepKeepsInv(w, a);
        kept := RunAround(Step(w, a), r, ev, acts[1..]);
        kept := [a] + kept;
      }
    }
  }

  lemma {:induction false} RunThen(w: World, acts: seq<Act>, a: Act)
    requires Runs(w, acts) && Enabled(Run(w, acts), a)
    ensures Runs(w, acts + [a]) && Run(w, acts + [a]) == Step(Run(w, acts), a)
    decreases |acts|
  {
    if acts == [] {
      assert Run(Step(w, a), []) == Step(w, a);
      assert acts + [a] == [a];
    } else {
      assert (acts + [a])[1..] == acts[1..] + [a];
      RunThen(Step(w, acts[0]), acts[1..], a);
    }
  }

  lemma {:induction false} PastStays(w: World, acts: seq<Act>, r: RequestId, snap: Current)
    requires Inv(w) && Runs(w, acts) && r in w.store.current && snap in PastOf(w, r)
    requires forall a :: a in acts ==> ClockOk(a)
    ensures r in Run(w, acts).store.current && snap in PastOf(Run(w, acts), r)
  {
    RunGrows(w, acts);
    assert GrowsAt(w, Run(w, acts), r);
  }

  /** The event of an append that finds its key free comes next. */
  lemma FreeKeyIsNext(w: World, r: RequestId, snap: Current, call: Call, f: Fresh)
    requires Inv(w) && r in w.store.current && snap in PastOf(w, r) && ValidCall(call) && f.now != ""
    requires Decide(Some(snap), call, f).Append?
    requires Decide(Some(snap), call, f).event.version !in EventsOf(w.store, r)
    ensures var Append(ev, up, expected) := Decide(Some(snap), call, f);
            IsNext(w, r, ev) && expected == w.store.current[r].stateVersion == snap.stateVersion
  {
    var _ := SnapshotAt(w, r, snap);
    AppendPlan(snap, call, f);
    assert RequestOk(w, r);
  }

  lemma NextIsFree(w: World, r: RequestId, ev: Event)
    requires Inv(w) && IsNext(w, r, ev)
    ensures ev.version !in EventsOf(w.store, r)
  {
    assert RequestOk(w, r);
  }

  lemma StillNext(w: World, r: RequestId, ev: Event, between: seq<Act>) returns (kept: seq<Act>)
    requires Inv(w) && IsNext(w, r, ev) && Runs(Placed(w, r, ev), between)
    requires forall a :: a in between ==> ClockOk(a)
    ensures Runs(w, kept) && forall a :: a in kept ==> a in between
    ensures Run(Placed(w, r, ev), between) == Placed(Run(w, kept), r, ev)
    ensures Inv(Run(w, kept)) && IsNext(Run(w, kept), r, ev)
  {
    kept := RunAround(w, r, ev, between);
    RunKeepsInv(w, kept);
  }

  /** What remains to be done once the event has been placed. */
  lemma Finishing(w: World, r: RequestId, ev: Event, up: Update, expected: Option<nat>)
    requires Inv(w) && IsNext(w, r, ev) && expected == Some(ev.version - 1)
    ensures Expected(Placed(w, r, ev).store, r, expected)
    ensures Updated(Placed(w, r, ev), r, up) == Write(w, r, Append(ev, up, expected))
    ensures SameItems(Deleted(Placed(w, r, ev), r, ev.version), w)
  {
    NextIsFree(w, r, ev);
    FinishedIsAppended(w, r, ev, up, expected);
    DeletingUndoes(w, r, ev);
  }

  /** Serializability: a fallback that finds its key free, with any run of
      transactional writers between its put and its update, leaves the store as
      a run of those writers does in which it appended last. Its update always
      meets its condition; and if the backend refuses the update all the same,
      deleting the event leaves the store as those writers alone do. */
  lemma FreeKeySerializes(w: World, r: RequestId, snap: Current, call: Call, f: Fresh, between: seq<Act>)
    returns (kept: seq<Act>)
    requires Inv(w) && r in w.store.current && snap in PastOf(w, r) && ValidCall(call) && f.now != ""
    requires Decide(Some(snap), call, f).Append?
    requires var ev := Decide(Some(snap), call, f).event;
             ev.version !in EventsOf(w.store, r) && Runs(Placed(w, r, ev), between)
    requires forall a :: a in between ==> ClockOk(a)
    ensures var Append(ev, up, expected) := Decide(Some(snap), call, f);
            var met, last := Run(Placed(w, r, ev), between), Do(r, Some(snap), call, f);
            && Expected(met.store, r, expected)
            && (forall a :: a in kept ==> a in between) && Runs(w, kept + [last])
            && Updated(met, r, up) == Run(w, kept + [last]) && Inv(Updated(met, r, up))
            && SameItems(Deleted(met, r, ev.version), Run(w, kept))
  {
    var Append(ev, up, expected) := Decide(Some(snap), call, f);
    FreeKeyIsNext(w, r, snap, call, f);
    kept := StillNext(w, r, ev, between);
    Finishing(Run(w, kept), r, ev, up, expected);
    PastStays(w, kept, r, snap);
    RunThen(w, kept, Do(r, Some(snap), call, f));
    RunKeepsInv(w, kept + [Do(r, Some(snap), call, f)]);
  }

  /** A decided append that finds its key free leaves its event behind without
      having appended it exactly when the update and then the rollback delete
      fail; and unless it has, the same append can still be made later. */
  lemma LeftoverIff(w: World, r: RequestId, snap: Current, call: Call, f: Fresh, faults: Faults)
    requires Inv(w) && r in w.store.current && snap in PastOf(w, r) && ValidCall(call) && f.now != ""
    requires Decide(Some(snap), call, f).Append?
    requires Decide(Some(snap), call, f).event.version !in EventsOf(w.store, r)
    ensures var Append(ev, up, expected) := Decide(Some(snap), call, f);
            var (w1, answer) := Fallback(w, r, ev, up, expected, faults);
            var leftover := !faults.put && faults.update && faults.delete;
            && (!answer.Done? && !SameItems(w1, w) <==> leftover)
            && (!answer.Done? ==> (Commit(w1.store, r, Append(ev, up, expected)).Some? <==> !leftover))
  {
    var Append(ev, up, expected) := Decide(Some(snap), call, f);
    FreeKeyIsNext(w, r, snap, call, f);
    AllOrNothing(w, r, ev, up, expected, faults);
  }

  lemma StatusStays(w: World, acts: seq<Act>, r: RequestId)
    requires Inv(w) && r in w.store.current && Runs(w, acts) && forall a :: a in acts ==> ClockOk(a)
    requires r in Run(w, acts).store.current
    requires Run(w, acts).store.current[r].stateVersion == w.store.current[r].stateVersion
    ensures Run(w, acts).store.current[r].status == w.store.current[r].status
  {
    var c := w.store.current[r];
    assert RequestOk(w, r);
    assert c in PastOf(w, r);
    PastStays(w, acts, r, c);
    RunKeepsInv(w, acts);
    VersionDeterminesStatus(Run(w, acts), r, c);
  }

  /** The event left behind blocks the request for good: no run of writers moves
      its version again. */
  lemma LeftoverEventBlocks(w: World, r: RequestId, snap: Current, call: Call, f: Fresh, faults: Faults,
                            later: seq<Act>)
    requires Inv(w) && r in w.store.current && snap in PastOf(w, r) && ValidCall(call) && f.now != ""
    requires Decide(Some(snap), call, f).Append?
    requires var Append(ev, up, expected) := Decide(Some(snap), call, f);
             var (w1, answer) := Fallback(w, r, ev, up, expected, faults);
             && ev.version !in EventsOf(w.store, r) && !answer.Done? && !SameItems(w1, w)
             && Runs(w1, later) && forall a :: a in later ==> ClockOk(a)
    ensures var Append(ev, up, expected) := Decide(Some(snap), call, f);
            var (w1, _) := Fallback(w, r, ev, up, expected, faults);
            && VersionIs(Run(w1, later).store, r, snap.stateVersion.GetOr(0))
            && Run(w1, later).store.current[r].status == w.store.current[r].status
  {
    var Append(ev, up, expected) := Decide(Some(snap), call, f);
    FreeKeyIsNext(w, r, snap, call, f);
    LeftoverIff(w, r, snap, call, f, faults);
    var kept := RunAround(w, r, ev, later);
    StatusStays(w, kept, r);
  }
}
