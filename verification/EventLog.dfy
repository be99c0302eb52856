/** Every interleaving of every writer, with arbitrarily stale reads: what the
    event log and CURRENT keep through all of it. */
module EventLog {
  import opened Wrappers
  import opened RequestLifecycle
  import opened RequestStore
  import opened Writers

  /** One atomic step: a request is created under a fresh id, or some use case,
      having read `snap` at any earlier moment, carries out its decision. */
  datatype Act =
    | Create(id: RequestId, incidentId: string, drawn: Fresh)
    | Do(r: RequestId, snap: Option<Current>, call: Call, f: Fresh)

  const EMPTY := World(Store(map[], map[]), map[])

  function FirstCurrent(incidentId: string, f: Fresh): Current {
    Current(incidentId, SUBMITTED, Some(1), f.eventId, None, None, None, None,
            map[LastUpdatedBy := Text("system"), LastUpdatedAt := Text(f.now)])
  }

  function FirstEvent(f: Fresh): Event {
    Event(1, f.eventId, None, SUBMITTED, "system", Some("Initial submission"), None, Null, Submission, f.now)
  }

  predicate Enabled(w: World, a: Act) {
    match a
    case Create(id, _, _) => id !in w.store.current
    case Do(r, snap, call, _) => Readable(w, r, snap) && ValidCall(call)
  }

  function Step(w: World, a: Act): World {
    match a
    case Create(id, incidentId, f) =>
      var c := FirstCurrent(incidentId, f);
      World(Store(w.store.current[id := c], w.store.events[id := map[1 := FirstEvent(f)]]), w.past[id := [c]])
    case Do(r, snap, call, f) => Write(w, r, Decide(snap, call, f))
  }

  function Run(w: World, acts: seq<Act>): World
    decreases |acts|
  {
    if acts == [] then w else Run(Step(w, acts[0]), acts[1..])
  }

  predicate Runs(w: World, acts: seq<Act>)
    decreases |acts|
  {
    acts == [] || (Enabled(w, acts[0]) && Runs(Step(w, acts[0]), acts[1..]))
  }

  // ----- the invariant

  ghost predicate Owned(c: Current) {
    NeedsUnit(c.status) ==> Truthy(c.assignedUnitId) && Truthy(c.assignedAt)
  }

  /** The clock never yields an empty timestamp. */
  predicate ClockOk(a: Act) {
    match a
    case Create(_, _, f) => f.now != ""
    case Do(_, _, _, f) => f.now != ""
  }

  /** Event v follows event v-1: a legal, chained, forward step. */
  predicate Follows(prev: Event, ev: Event) {
    && ev.previousStatus == Some(prev.newStatus)
    && !IsTerminal(prev.newStatus)
    && Rank(prev.newStatus) <= Rank(ev.newStatus)
  }

  ghost predicate LogOk(log: Log, n: nat) {
    && n >= 1
    && (forall v :: v in log <==> 1 <= v <= n)
    && (forall v :: 1 <= v <= n ==> log[v].version == v)
    && log[1].previousStatus == None && log[1].newStatus == SUBMITTED
    && (forall u, v :: 1 <= u < v <= n && v == u + 1 ==> Follows(log[u], log[v]))
    && (forall v :: 1 <= v <= n && log[v].newStatus == CANCELLED ==> Truthy(log[v].changeReason))
  }

  /** The attributes that only a version-bumping write can change. */
  function Versioned(c: Current): (Status, string, Option<string>, Option<string>, Option<string>) {
    (c.status, c.lastEventId, c.assignedUnitId, c.assignedAt, c.priorityCorrelationId)
  }

  ghost predicate SnapshotOk(s: Current, incidentId: string, log: Log) {
    && s.stateVersion.Some? && s.stateVersion.value in log
    && s.status == log[s.stateVersion.value].newStatus
    && s.lastEventId == log[s.stateVersion.value].eventId
    && s.incidentId == incidentId
    && Owned(s)
  }

  /** The correlation id in the i-th value of CURRENT was the source id of an
      earlier value. */
  ghost predicate Traced(past: seq<Current>, i: nat)
    requires i < |past|
  {
    past[i].priorityCorrelationId.Some? ==>
      exists j :: 0 <= j < i && past[j].prioritySourceEventId == past[i].priorityCorrelationId
  }

  ghost predicate HistoryOk(c: Current, log: Log, p: seq<Current>) {
    && c.stateVersion.Some? && LogOk(log, c.stateVersion.value)
    && p != [] && p[|p| - 1] == c
    && (forall i :: 0 <= i < |p| ==> SnapshotOk(p[i], c.incidentId, log))
    && (forall i, j :: 0 <= i < |p| && 0 <= j < |p| && p[i].stateVersion == p[j].stateVersion
                       ==> Versioned(p[i]) == Versioned(p[j]))
    && (forall i {:trigger Traced(p, i)} :: 0 <= i < |p| ==> Traced(p, i))
  }

  ghost predicate RequestOk(w: World, r: RequestId)
    requires r in w.store.current
  {
    HistoryOk(w.store.current[r], EventsOf(w.store, r), PastOf(w, r))
  }

  ghost predicate KeysAgree(w: World) {
    w.store.events.Keys == w.past.Keys == w.store.current.Keys
  }

  ghost predicate Inv(w: World) {
    && KeysAgree(w)
    && forall r {:trigger RequestOk(w, r)} :: r in w.store.current ==> RequestOk(w, r)
  }

  // ----- what decisions look like

  /** An event and update that extend the log of the version seen in `c` by one
      legal event. */
  ghost predicate PlanOk(c: Current, ev: Event, up: Update) {
    && c.stateVersion.Some? && ev.version == c.stateVersion.value + 1
    && !IsTerminal(c.status) && Rank(c.status) <= Rank(ev.newStatus)
    && ev.previousStatus == Some(c.status)
    && (ev.newStatus == CANCELLED ==> Truthy(ev.changeReason))
    && up.status == Some(ev.newStatus) && up.stateVersion == Some(ev.version)
    && up.lastEventId == Some(ev.eventId) && up.prioritySourceEventId == None
    && (up.priorityCorrelationId.Some? ==> up.priorityCorrelationId == c.prioritySourceEventId)
    && Owned(Patch(c, up))
  }

  /** Whichever writer it is, an append is a legal step from the version it
      read, and the write is conditioned on that version. */
  lemma AppendPlan(c: Current, call: Call, f: Fresh)
    requires ValidCall(call) && f.now != "" && c.stateVersion.Some? && Owned(c)
    requires Decide(Some(c), call, f).Append?
    ensures var Append(ev, up, expected) := Decide(Some(c), call, f);
            PlanOk(c, ev, up) && expected == c.stateVersion
  {
  }

  /** A write that appends nothing touches no versioned attribute. */
  lemma FieldsPlan(snap: Option<Current>, call: Call, f: Fresh)
    requires Decide(snap, call, f).WriteFields?
    ensures var up := Decide(snap, call, f).update;
            forall c :: Versioned(Patch(c, up)) == Versioned(c) && Patch(c, up).stateVersion == c.stateVersion
                        && Patch(c, up).incidentId == c.incidentId
  {
  }

  /** The version decides the status: when a conditional append goes through,
      the CURRENT it meets agrees with the snapshot on everything versioned. */
  lemma VersionDeterminesStatus(w: World, r: RequestId, snap: Current)
    requires Inv(w) && r in w.store.current && snap in PastOf(w, r)
    requires snap.stateVersion == w.store.current[r].stateVersion
    ensures Versioned(snap) == Versioned(w.store.current[r])
    ensures snap.incidentId == w.store.current[r].incidentId
  {
    assert RequestOk(w, r);
    var p := PastOf(w, r);
    var i :| 0 <= i < |p| && p[i] == snap;
    assert SnapshotOk(p[i], w.store.current[r].incidentId, EventsOf(w.store, r));
    assert Versioned(p[i]) == Versioned(p[|p| - 1]);
  }

  // ----- one step

  lemma AppendKeepsLog(log: Log, n: nat, ev: Event)
    requires LogOk(log, n) && ev.version == n + 1 && Follows(log[n], ev)
    requires ev.newStatus == CANCELLED ==> Truthy(ev.changeReason)
    ensures LogOk(log[n + 1 := ev], n + 1)
  {
    var log' := log[n + 1 := ev];
    forall u, v | 1 <= u < v <= n + 1 && v == u + 1 ensures Follows(log'[u], log'[v]) {
      if v <= n {
        assert Follows(log[u], log[v]);
      }
    }
  }

  lemma TracedExtends(p: seq<Current>, c': Current, i: nat)
    requires i < |p| && Traced(p, i)
    ensures Traced(p + [c'], i)
  {
    var p' := p + [c'];
    if p[i].priorityCorrelationId.Some? {
      var j :| 0 <= j < i && p[j].prioritySourceEventId == p[i].priorityCorrelationId;
      assert p'[j] == p[j];
    }
  }

  lemma TracedAgain(p: seq<Current>, c': Current)
    requires p != [] && Traced(p, |p| - 1)
    requires c'.priorityCorrelationId == p[|p| - 1].priorityCorrelationId
    ensures Traced(p + [c'], |p|)
  {
    var p' := p + [c'];
    if c'.priorityCorrelationId.Some? {
      var j :| 0 <= j < |p| - 1 && p[j].prioritySourceEventId == c'.priorityCorrelationId;
      assert p'[j] == p[j];
    }
  }

  lemma AppendKeepsHistory(c: Current, log: Log, p: seq<Current>, k: nat, ev: Event, up: Update)
    requires HistoryOk(c, log, p) && k < |p| && PlanOk(p[k], ev, up) && p[k].stateVersion == c.stateVersion
    ensures HistoryOk(Patch(c, up), log[ev.version := ev], p + [Patch(c, up)])
  {
    var c', log', p' := Patch(c, up), log[ev.version := ev], p + [Patch(c, up)];
    assert Versioned(p[k]) == Versioned(p[|p| - 1]);
    assert SnapshotOk(p[k], c.incidentId, log);
    AppendKeepsLog(log, c.stateVersion.value, ev);
    forall i | 0 <= i < |p| ensures SnapshotOk(p[i], c'.incidentId, log') && p[i].stateVersion != c'.stateVersion {
      assert SnapshotOk(p[i], c.incidentId, log);
    }
    forall i | 0 <= i < |p'| ensures Traced(p', i) {
      if i < |p| {
        TracedExtends(p, c', i);
      } else if up.priorityCorrelationId.Some? {
        assert p'[k].prioritySourceEventId == c'.priorityCorrelationId;
      } else {
        TracedAgain(p, c');
      }
    }
  }

  lemma FieldsKeepHistory(c: Current, log: Log, p: seq<Current>, snap: Option<Current>, call: Call, f: Fresh)
    requires HistoryOk(c, log, p) && Decide(snap, call, f).WriteFields?
    ensures var c' := Patch(c, Decide(snap, call, f).update);
            HistoryOk(c', log, p + [c'])
  {
    FieldsPlan(snap, call, f);
    var c' := Patch(c, Decide(snap, call, f).update);
    var p' := p + [c'];
    assert SnapshotOk(p[|p| - 1], c.incidentId, log);
    forall i | 0 <= i < |p'| ensures Traced(p', i) && SnapshotOk(p'[i], c'.incidentId, log) {
      if i < |p| {
        TracedExtends(p, c', i);
        assert SnapshotOk(p[i], c.incidentId, log);
      } else {
        TracedAgain(p, c');
      }
    }
    forall i, j | 0 <= i < |p'| && 0 <= j < |p'| && p'[i].stateVersion == p'[j].stateVersion
      ensures Versioned(p'[i]) == Versioned(p'[j])
    {
      var i0, j0 := if i < |p| then i else |p| - 1, if j < |p| then j else |p| - 1;
      assert Versioned(p[i0]) == Versioned(p[j0]);
    }
  }

  /** The position at which a snapshot was read. */
  lemma SnapshotAt(w: World, r: RequestId, snap: Current) returns (k: nat)
    requires Inv(w) && r in w.store.current && snap in PastOf(w, r)
    ensures k < |PastOf(w, r)| && PastOf(w, r)[k] == snap
    ensures SnapshotOk(snap, w.store.current[r].incidentId, EventsOf(w.store, r))
  {
    assert RequestOk(w, r);
    var p := PastOf(w, r);
    k :| 0 <= k < |p| && p[k] == snap;
    assert SnapshotOk(p[k], w.store.current[r].incidentId, EventsOf(w.store, r));
  }

  lemma WriteKeepsRequest(w: World, r: RequestId, snap: Option<Current>, call: Call, f: Fresh)
    requires Inv(w) && Readable(w, r, snap) && ValidCall(call) && f.now != ""
    requires r in w.store.current && Commit(w.store, r, Decide(snap, call, f)).Some?
    ensures RequestOk(Write(w, r, Decide(snap, call, f)), r)
  {
    assert RequestOk(w, r);
    var c, log, p := w.store.current[r], EventsOf(w.store, r), PastOf(w, r);
    var d := Decide(snap, call, f);
    if d.Append? {
      var k := SnapshotAt(w, r, snap.value);
      AppendPlan(snap.value, call, f);
      AppendKeepsHistory(c, log, p, k, d.event, d.update);
    } else {
      FieldsKeepHistory(c, log, p, snap, call, f);
    }
  }

  /** A decision on a request nobody created writes nothing. */
  lemma NothingWrittenUnlessCreated(w: World, r: RequestId, snap: Option<Current>, call: Call, f: Fresh)
    requires Inv(w) && Readable(w, r, snap) && r !in w.store.current
    ensures Write(w, r, Decide(snap, call, f)) == w
  {
  }

  ghost predicate SameAt(w: World, w': World, q: RequestId)
    requires q in w.store.current && q in w'.store.current
  {
    && w'.store.current[q] == w.store.current[q]
    && EventsOf(w'.store, q) == EventsOf(w.store, q) && PastOf(w', q) == PastOf(w, q)
  }

  /** The two worlds differ at most in request r. */
  ghost predicate TouchesOnly(w: World, w': World, r: RequestId) {
    && KeysAgree(w') && w'.store.current.Keys == w.store.current.Keys + {r}
    && forall q {:trigger SameAt(w, w', q)} :: q in w.store.current && q != r ==> SameAt(w, w', q)
  }

  function Replaced(w: World, r: RequestId, c: Current, log: Log, p: seq<Current>): World {
    World(Store(w.store.current[r := c], w.store.events[r := log]), w.past[r := p])
  }

  lemma ReplacedTouchesOnly(w: World, r: RequestId, c: Current, log: Log, p: seq<Current>)
    requires KeysAgree(w)
    ensures TouchesOnly(w, Replaced(w, r, c, log, p), r)
  {
  }

  lemma WriteTouchesOnly(w: World, r: RequestId, d: Decision)
    requires KeysAgree(w) && r in w.store.current && Commit(w.store, r, d).Some?
    ensures TouchesOnly(w, Write(w, r, d), r)
  {
    var st := Commit(w.store, r, d).value;
    var c, log := st.current[r], EventsOf(st, r);
    assert st.events == w.store.events[r := log];
    ReplacedTouchesOnly(w, r, c, log, PastOf(w, r) + [c]);
  }

  lemma OthersUntouched(w: World, w': World, r: RequestId)
    requires Inv(w) && r in w'.store.current && RequestOk(w', r) && TouchesOnly(w, w', r)
    ensures Inv(w')
  {
    forall q | q in w'.store.current ensures RequestOk(w', q) {
      if q != r {
        assert RequestOk(w, q) && SameAt(w, w', q);
      }
    }
  }

  lemma FirstHistoryOk(incidentId: string, f: Fresh)
    requires f.now != ""
    ensures HistoryOk(FirstCurrent(incidentId, f), map[1 := FirstEvent(f)], [FirstCurrent(incidentId, f)])
  {
  }

  lemma CreateKeepsInv(w: World, id: RequestId, incidentId: string, f: Fresh)
    requires Inv(w) && id !in w.store.current && f.now != ""
    ensures Inv(Step(w, Create(id, incidentId, f)))
  {
    FirstHistoryOk(incidentId, f);
    ReplacedTouchesOnly(w, id, FirstCurrent(incidentId, f), map[1 := FirstEvent(f)], [FirstCurrent(incidentId, f)]);
    OthersUntouched(w, Step(w, Create(id, incidentId, f)), id);
  }

  lemma StepKeepsInv(w: World, a: Act)
    requires Inv(w) && Enabled(w, a) && ClockOk(a)
    ensures Inv(Step(w, a))
  {
    match a
    case Create(id, incidentId, f) =>
      CreateKeepsInv(w, id, incidentId, f);
    case Do(r, snap, call, f) =>
      if r !in w.store.current {
        NothingWrittenUnlessCreated(w, r, snap, call, f);
      } else if Commit(w.store, r, Decide(snap, call, f)).Some? {
        WriteKeepsRequest(w, r, snap, call, f);
        WriteTouchesOnly(w, r, Decide(snap, call, f));
        OthersUntouched(w, Step(w, a), r);
      }
  }

  /** Every reachable state of any interleaving: events occupy exactly versions
      1..stateVersion and chain, CURRENT mirrors the last event, each request
      under way has a unit, each cancellation a reason, and each recorded
      correlation id was an earlier source id of the same request. */
  lemma {:induction false} RunKeepsInv(w: World, acts: seq<Act>)
    requires Inv(w) && Runs(w, acts) && forall a :: a in acts ==> ClockOk(a)
    ensures Inv(Run(w, acts))
    decreases |acts|
  {
    if acts != [] {
      StepKeepsInv(w, acts[0]);
      RunKeepsInv(Step(w, acts[0]), acts[1..]);
    }
  }

  // ----- two states of one run

  /** What an observer of one request may rely on between an earlier and a later
      state. */
  ghost predicate GrowsAt(w: World, w': World, r: RequestId)
    requires r in w.store.current
  {
    && r in w'.store.current
    && PastOf(w, r) <= PastOf(w', r)
    && (forall v :: v in EventsOf(w.store, r) ==>
          v in EventsOf(w'.store, r) && EventsOf(w'.store, r)[v] == EventsOf(w.store, r)[v])
    && Rank(w.store.current[r].status) <= Rank(w'.store.current[r].status)
    && (IsTerminal(w.store.current[r].status) ==>
          && EventsOf(w'.store, r) == EventsOf(w.store, r)
          && Versioned(w'.store.current[r]) == Versioned(w.store.current[r])
          && w'.store.current[r].stateVersion == w.store.current[r].stateVersion)
  }

  ghost predicate Grows(w: World, w': World) {
    forall r {:trigger GrowsAt(w, w', r)} :: r in w.store.current ==> GrowsAt(w, w', r)
  }

  lemma WriteGrows(w: World, r: RequestId, snap: Option<Current>, call: Call, f: Fresh)
    requires Inv(w) && r in w.store.current && Readable(w, r, snap) && ValidCall(call) && f.now != ""
    ensures GrowsAt(w, Write(w, r, Decide(snap, call, f)), r)
  {
    var d := Decide(snap, call, f);
    if Commit(w.store, r, d).Some? {
      if d.Append? {
        var _ := SnapshotAt(w, r, snap.value);
        AppendPlan(snap.value, call, f);
        VersionDeterminesStatus(w, r, snap.value);
      } else {
        FieldsPlan(snap, call, f);
      }
    }
  }

  lemma StepGrows(w: World, a: Act)
    requires Inv(w) && Enabled(w, a) && ClockOk(a)
    ensures Grows(w, Step(w, a))
  {
    var w' := Step(w, a);
    if a.Create? {
      CreateKeepsInv(w, a.id, a.incidentId, a.drawn);
      ReplacedTouchesOnly(w, a.id, FirstCurrent(a.incidentId, a.drawn), map[1 := FirstEvent(a.drawn)],
                          [FirstCurrent(a.incidentId, a.drawn)]);
    } else if a.r in w.store.current && Commit(w.store, a.r, Decide(a.snap, a.call, a.f)).Some? {
      WriteTouchesOnly(w, a.r, Decide(a.snap, a.call, a.f));
      WriteGrows(w, a.r, a.snap, a.call, a.f);
    } else if a.r !in w.store.current {
      NothingWrittenUnlessCreated(w, a.r, a.snap, a.call, a.f);
    }
    forall q | q in w.store.current ensures GrowsAt(w, w', q) {
      assert w' != w && !(a.Do? && a.r == q) ==> SameAt(w, w', q);
    }
  }

  lemma GrowsTransitive(w: World, w1: World, w2: World)
    requires Grows(w, w1) && Grows(w1, w2)
    ensures Grows(w, w2)
  {
    forall r | r in w.store.current ensures GrowsAt(w, w2, r) {
      assert GrowsAt(w, w1, r) && GrowsAt(w1, w2, r);
    }
  }

  /** Along any run every earlier log is an unchanged prefix of the later one,
      the status rank never falls, and a terminal request never changes again
      in status, version, last event, assignment or log. */
  lemma {:induction false} RunGrows(w: World, acts: seq<Act>)
    requires Inv(w) && Runs(w, acts) && forall a :: a in acts ==> ClockOk(a)
    ensures Grows(w, Run(w, acts))
    decreases |acts|
  {
    if acts != [] {
      var w1 := Step(w, acts[0]);
      StepKeepsInv(w, acts[0]);
      StepGrows(w, acts[0]);
      RunGrows(w1, acts[1..]);
      GrowsTransitive(w, w1, Run(w, acts));
    }
  }

  // ----- where a request comes from

  /** Incident and first event are as this creation made them. */
  predicate StemsFrom(w: World, r: RequestId, a: Act)
    requires r in w.store.current
  {
    && a.Create? && a.id == r && w.store.current[r].incidentId == a.incidentId
    && Get(EventsOf(w.store, r), 1) == Some(FirstEvent(a.drawn))
  }

  lemma StepKeepsStem(w: World, a: Act, r: RequestId, origin: Act)
    requires Inv(w) && Enabled(w, a) && ClockOk(a) && r in w.store.current && StemsFrom(w, r, origin)
    ensures r in Step(w, a).store.current && StemsFrom(Step(w, a), r, origin)
  {
    StepKeepsInv(w, a);
    StepGrows(w, a);
    var w' := Step(w, a);
    assert GrowsAt(w, w', r) && RequestOk(w, r) && RequestOk(w', r);
    assert PastOf(w, r)[0] == PastOf(w', r)[0];
    assert SnapshotOk(PastOf(w, r)[0], w.store.current[r].incidentId, EventsOf(w.store, r));
    assert SnapshotOk(PastOf(w', r)[0], w'.store.current[r].incidentId, EventsOf(w'.store, r));
  }

  lemma {:induction false} RunKeepsStem(w: World, acts: seq<Act>, r: RequestId, origin: Act)
    requires Inv(w) && Runs(w, acts) && forall a :: a in acts ==> ClockOk(a)
    requires r in w.store.current && StemsFrom(w, r, origin)
    ensures r in Run(w, acts).store.current && StemsFrom(Run(w, acts), r, origin)
    decreases |acts|
  {
    if acts != [] {
      StepKeepsInv(w, acts[0]);
      StepKeepsStem(w, acts[0], r, origin);
      RunKeepsStem(Step(w, acts[0]), acts[1..], r, origin);
    }
  }

  /** No write makes a request. */
  lemma OnlyCreated(w: World, a: Act, r: RequestId)
    requires Inv(w) && Enabled(w, a) && r in Step(w, a).store.current && r !in w.store.current
    ensures StemsFrom(Step(w, a), r, a)
  {
    if a.Do? && a.r !in w.store.current {
      NothingWrittenUnlessCreated(w, a.r, a.snap, a.call, a.f);
    }
  }

  lemma {:induction false} CreatedOnce(w: World, acts: seq<Act>, r: RequestId, j: nat)
    requires Inv(w) && Runs(w, acts) && (forall a :: a in acts ==> ClockOk(a)) && r in w.store.current && j < |acts|
    ensures !(acts[j].Create? && acts[j].id == r)
    decreases |acts|
  {
    if j > 0 {
      StepKeepsInv(w, acts[0]);
      StepGrows(w, acts[0]);
      assert GrowsAt(w, Step(w, acts[0]), r);
      CreatedOnce(Step(w, acts[0]), acts[1..], r, j - 1);
    }
  }

  /** Each request of a run stems from the one act that created it, whatever was
      written since: its incident is the one given then. */
  lemma {:induction false} StemsFromOneCreate(w: World, acts: seq<Act>, r: RequestId) returns (i: nat)
    requires Inv(w) && Runs(w, acts) && forall a :: a in acts ==> ClockOk(a)
    requires r in Run(w, acts).store.current && r !in w.store.current
    ensures i < |acts| && StemsFrom(Run(w, acts), r, acts[i])
    ensures forall j :: 0 <= j < |acts| && acts[j].Create? && acts[j].id == r ==> j == i
    decreases |acts|
  {
    var w1 := Step(w, acts[0]);
    StepKeepsInv(w, acts[0]);
    if r in w1.store.current {
      i := 0;
      OnlyCreated(w, acts[0], r);
      RunKeepsStem(w1, acts[1..], r, acts[0]);
      forall j | 0 < j < |acts| ensures !(acts[j].Create? && acts[j].id == r) {
        CreatedOnce(w1, acts[1..], r, j - 1);
      }
    } else {
      i := StemsFromOneCreate(w1, acts[1..], r);
      assert !(acts[0].Create? && acts[0].id == r);
      i := i + 1;
      forall j | 0 <= j < |acts| && acts[j].Create? && acts[j].id == r ensures j == i {
        assert j > 0 && acts[j] == acts[1..][j - 1];
      }
    }
  }

  // ----- consequences

  /** How many of the events 2..n changed the status. */
  function StatusChanges(log: Log, n: nat): nat
    requires forall v :: 1 <= v <= n ==> v in log
  {
    if n <= 1 then 0
    else StatusChanges(log, n - 1) + if log[n].previousStatus != Some(log[n].newStatus) then 1 else 0
  }

  lemma {:induction false} ChangesWithinRank(log: Log, n: nat, m: nat)
    requires LogOk(log, m) && 1 <= n <= m
    ensures StatusChanges(log, n) <= Rank(log[n].newStatus)
  {
    if n > 1 {
      ChangesWithinRank(log, n - 1, m);
      assert Follows(log[n - 1], log[n]);
    }
  }

  /** However many writers race, at most four events ever change a status. */
  lemma AtMostFourChanges(acts: seq<Act>, r: RequestId)
    requires Runs(EMPTY, acts) && forall a :: a in acts ==> ClockOk(a)
    requires r in Run(EMPTY, acts).store.current
    ensures var st := Run(EMPTY, acts).store;
            && st.current[r].stateVersion.Some?
            && (forall v :: v in EventsOf(st, r) <==> 1 <= v <= st.current[r].stateVersion.value)
            && StatusChanges(EventsOf(st, r), st.current[r].stateVersion.value) <= 4
  {
    RunKeepsInv(EMPTY, acts);
    var st := Run(EMPTY, acts).store;
    assert RequestOk(Run(EMPTY, acts), r);
    var n := st.current[r].stateVersion.value;
    ChangesWithinRank(EventsOf(st, r), n, n);
  }

  // ----- a mission progresses once

  /** A mission event changes the status: a team under way puts the request in
      progress, a mission resolved resolves it, and no other mission status has an
      event. */
  predicate MissionOk(ev: Event) {
    ev.origin.Mission? ==>
      && (ev.newStatus == IN_PROGRESS || ev.newStatus == RESOLVED)
      && (ev.newStatus == IN_PROGRESS <==> ev.origin.missionStatus == "EN_ROUTE")
      && (ev.newStatus == RESOLVED <==> ev.origin.missionStatus == "RESOLVED")
      && ev.previousStatus != Some(ev.newStatus)
  }

  ghost predicate MissionsOk(w: World) {
    forall r, v :: v in EventsOf(w.store, r) ==> MissionOk(EventsOf(w.store, r)[v])
  }

  lemma DecidedMissionOk(snap: Option<Current>, call: Call, f: Fresh)
    requires Decide(snap, call, f).Append?
    ensures MissionOk(Decide(snap, call, f).event)
  {
    if call.Progressed? {
      assert Decide(snap, call, f).event.origin.missionStatus == ProgressText(call.progress);
    }
  }

  lemma StepKeepsMissions(w: World, a: Act)
    requires MissionsOk(w)
    ensures MissionsOk(Step(w, a))
  {
    if a.Do? && Decide(a.snap, a.call, a.f).Append? {
      DecidedMissionOk(a.snap, a.call, a.f);
    }
    var w' := Step(w, a);
    forall r, v | v in EventsOf(w'.store, r) ensures MissionOk(EventsOf(w'.store, r)[v]) {
      assert v in EventsOf(w.store, r) ==> MissionOk(EventsOf(w.store, r)[v]);
    }
  }

  lemma {:induction false} RankNeverFalls(log: Log, n: nat, u: nat, v: nat)
    requires LogOk(log, n) && 1 <= u <= v <= n
    ensures Rank(log[u].newStatus) <= Rank(log[v].newStatus)
  {
    if u < v {
      RankNeverFalls(log, n, u, v - 1);
      assert Follows(log[v - 1], log[v]);
    }
  }

  /** A status that missions set is entered once: it is the only one of its rank
      or the end, and a mission event never keeps the status. */
  lemma EnteredOnce(log: Log, n: nat, v1: nat, v2: nat)
    requires LogOk(log, n) && 1 <= v1 < v2 <= n && MissionOk(log[v2]) && log[v2].origin.Mission?
    ensures log[v1].newStatus != log[v2].newStatus
  {
    RankNeverFalls(log, n, v1, v2 - 1);
    assert Follows(log[v2 - 1], log[v2]);
  }

  lemma OneMissionEvent(log: Log, n: nat, v1: nat, v2: nat)
    requires LogOk(log, n) && v1 in log && v2 in log && MissionOk(log[v1]) && MissionOk(log[v2])
    requires log[v1].origin.Mission? && log[v2].origin.Mission?
    requires log[v1].origin.missionStatus == log[v2].origin.missionStatus
    ensures v1 == v2
  {
    if v1 < v2 {
      EnteredOnce(log, n, v1, v2);
    } else if v2 < v1 {
      EnteredOnce(log, n, v2, v1);
    }
  }

  lemma {:induction false} RunKeepsMissions(w: World, acts: seq<Act>)
    requires MissionsOk(w)
    ensures MissionsOk(Run(w, acts))
    decreases |acts|
  {
    if acts != [] {
      StepKeepsMissions(w, acts[0]);
      RunKeepsMissions(Step(w, acts[0]), acts[1..]);
    }
  }

  /** In every run a mission event leads where its mission status says. */
  lemma MissionEventsFollowMissions(acts: seq<Act>, r: RequestId, v: nat)
    requires Runs(EMPTY, acts) && v in EventsOf(Run(EMPTY, acts).store, r)
    ensures var ev := EventsOf(Run(EMPTY, acts).store, r)[v];
            ev.origin.Mission? ==>
              && (ev.newStatus == IN_PROGRESS <==> ev.origin.missionStatus == "EN_ROUTE")
              && (ev.newStatus == RESOLVED <==> ev.origin.missionStatus == "RESOLVED")
              && ev.origin.missionStatus in {"EN_ROUTE", "RESOLVED"} && ev.previousStatus != Some(ev.newStatus)
  {
    RunKeepsMissions(EMPTY, acts);
    assert MissionOk(EventsOf(Run(EMPTY, acts).store, r)[v]);
  }

  /** However many mission messages reach a request, of one mission or of several
      and however often each, at most one event comes of each mission status. */
  lemma OneEventPerMissionStatus(acts: seq<Act>, r: RequestId, v1: nat, v2: nat)
    requires Runs(EMPTY, acts) && forall a :: a in acts ==> ClockOk(a)
    requires var log := EventsOf(Run(EMPTY, acts).store, r);
             && v1 in log && v2 in log && log[v1].origin.Mission? && log[v2].origin.Mission?
             && log[v1].origin.missionStatus == log[v2].origin.missionStatus
    ensures v1 == v2
  {
    var w := Run(EMPTY, acts);
    RunKeepsInv(EMPTY, acts);
    RunKeepsMissions(EMPTY, acts);
    assert RequestOk(w, r);
    OneMissionEvent(EventsOf(w.store, r), w.store.current[r].stateVersion.value, v1, v2);
  }

  // ----- stale reads are harmless exactly when nothing unversioned was read

  /** A decided append commits exactly when the version it read is current. */
  lemma CommitsExactlyWhenCurrent(w: World, r: RequestId, snap: Current, call: Call, f: Fresh)
    requires Inv(w) && r in w.store.current && snap in PastOf(w, r) && ValidCall(call) && f.now != ""
    requires Decide(Some(snap), call, f).Append?
    ensures Commit(w.store, r, Decide(Some(snap), call, f)).Some?
            <==> snap.stateVersion == w.store.current[r].stateVersion
  {
    var _ := SnapshotAt(w, r, snap);
    assert RequestOk(w, r);
    AppendPlan(snap, call, f);
  }

  /** A staff transition that commits on a stale read is the very transition
      that would have been decided on the CURRENT it met. */
  lemma TransitionsAreLinearizable(w: World, r: RequestId, snap: Current, call: Call, f: Fresh)
    requires Inv(w) && r in w.store.current && snap in PastOf(w, r) && ValidCall(call) && f.now != ""
    requires call.Transition? && Commit(w.store, r, Decide(Some(snap), call, f)).Some?
    ensures Decide(Some(snap), call, f) == Decide(Some(w.store.current[r]), call, f)
    ensures Step(w, Do(r, Some(snap), call, f)) == Step(w, Do(r, Some(w.store.current[r]), call, f))
  {
    CommitsExactlyWhenCurrent(w, r, snap, call, f);
    VersionDeterminesStatus(w, r, snap);
  }

  /** The same for missions, whether they append or only update CURRENT, but for
      the priority score copied into an event. */
  lemma MissionsAreLinearizable(w: World, r: RequestId, snap: Current, call: Call, f: Fresh)
    requires Inv(w) && r in w.store.current && snap in PastOf(w, r) && ValidCall(call) && f.now != ""
    requires call.Progressed? && Commit(w.store, r, Decide(Some(snap), call, f)).Some?
    ensures var decided, now := Decide(Some(snap), call, f), Decide(Some(w.store.current[r]), call, f);
            if decided.WriteFields? then now == decided
            else
              var score := Get(snap.details, PriorityScore).GetOr(Null);
              now.Append? && decided == now.(event := now.event.(priorityScore := score))
  {
    var _ := SnapshotAt(w, r, snap);
    if Decide(Some(snap), call, f).Append? {
      CommitsExactlyWhenCurrent(w, r, snap, call, f);
    }
    VersionDeterminesStatus(w, r, snap);
  }

  /** An evaluation that commits on a stale read is the one that would have been
      decided on the CURRENT it met exactly when its correlation still holds. */
  lemma EvaluationsAreLinearizableIff(w: World, r: RequestId, snap: Current, call: Call, f: Fresh)
    requires Inv(w) && r in w.store.current && snap in PastOf(w, r) && ValidCall(call) && f.now != ""
    requires call.Evaluate? && Commit(w.store, r, Decide(Some(snap), call, f)).Some?
    ensures Decide(Some(snap), call, f) == Decide(Some(w.store.current[r]), call, f)
            <==> w.store.current[r].prioritySourceEventId == Some(call.correlationId)
  {
    CommitsExactlyWhenCurrent(w, r, snap, call, f);
    VersionDeterminesStatus(w, r, snap);
  }

  /** The condition can fail in every request that is still open: let a citizen
      update slip in between an evaluation's read and its commit, and CURRENT
      ends up recording an evaluation of superseded data. */
  lemma StaleCorrelationCommits(w: World, r: RequestId, newSource: string, score: real, f: Fresh)
    requires Inv(w) && r in w.store.current && newSource != "" && 0.0 <= score <= 1.0 && f.now != ""
    requires var c := w.store.current[r];
             !IsTerminal(c.status) && c.prioritySourceEventId.Some? && c.prioritySourceEventId.value !in {"", newSource}
    ensures var c := w.store.current[r];
            var update := Do(r, None, Source(newSource, "citizen-updated", f.now), f);
            var call := Evaluate("id", c.prioritySourceEventId.value, score, "HIGH", "why", f.now);
            var evaluation := Do(r, Some(c), call, f);
            var w1 := Step(w, update);
            var w2 := Step(w1, evaluation);
            && Enabled(w, update) && Enabled(w1, evaluation) && r in w2.store.current
            && w2.store.current[r].priorityCorrelationId == c.prioritySourceEventId
            && w2.store.current[r].prioritySourceEventId == Some(newSource)
  {
    var c := w.store.current[r];
    var update := Do(r, None, Source(newSource, "citizen-updated", f.now), f);
    var evaluation := Do(r, Some(c), Evaluate("id", c.prioritySourceEventId.value, score, "HIGH", "why", f.now), f);
    var w1 := Step(w, update);
    assert RequestOk(w, r);
    StepKeepsInv(w, update);
    assert PastOf(w1, r) == PastOf(w, r) + [w1.store.current[r]];
    assert PastOf(w1, r)[|PastOf(w, r)| - 1] == c;
    CommitsExactlyWhenCurrent(w1, r, c, evaluation.call, f);
  }
}
