/** The CURRENT and EVENT# items of the request table and the two conditional
    writes every writer goes through. */
module RequestStore {
  import opened Wrappers
  import opened RequestLifecycle

  type RequestId = string

  datatype Value = Text(text: string) | Number(number: real) | Null

  /** Attributes of CURRENT that no decision of an event-appending writer reads,
      apart from the priority score that a mission event copies. */
  datatype Detail =
    | PriorityScore | PriorityLevel | LatestNote | LastUpdatedBy | LastUpdatedAt
    | SourceEventType | SourceOccurredAt
    | EvaluationId | EvaluationReason | EvaluatedAt | PriorityIngestedAt
    | MissionId | MissionIncidentId | MissionTeamId | MissionChangedBy
    | MissionStatus | MissionChangedAt | MissionIngestedAt

  datatype Current = Current(
    incidentId: string,
    status: Status,
    stateVersion: Option<nat>,
    lastEventId: string,
    assignedUnitId: Option<string>,
    assignedAt: Option<string>,
    prioritySourceEventId: Option<string>,
    priorityCorrelationId: Option<string>,
    details: map<Detail, Value>)

  /** The SET list of an update: None keeps the stored attribute. */
  datatype Update = Update(
    status: Option<Status>,
    stateVersion: Option<nat>,
    lastEventId: Option<string>,
    assignedUnitId: Option<string>,
    assignedAt: Option<string>,
    prioritySourceEventId: Option<string>,
    priorityCorrelationId: Option<string>,
    details: map<Detail, Value>)

  const NO_UPDATE := Update(None, None, None, None, None, None, None, map[])

  /** What the event's `meta` says about the writer that appended it. */
  datatype Origin =
    | Submission
    | Staff
    | Evaluation(evaluateId: string)
    | Mission(missionId: string, missionStatus: string, changedAt: string)

  datatype Event = Event(
    version: nat,
    eventId: string,
    previousStatus: Option<Status>,
    newStatus: Status,
    changedBy: string,
    changeReason: Option<string>,
    responderUnitId: Option<string>,
    priorityScore: Value,
    origin: Origin,
    occurredAt: string)

  type Log = map<nat, Event>

  datatype Store = Store(current: map<RequestId, Current>, events: map<RequestId, Log>)

  function EventsOf(st: Store, r: RequestId): Log {
    if r in st.events then st.events[r] else map[]
  }

  function Patch(c: Current, u: Update): Current {
    Current(
      c.incidentId,
      u.status.GetOr(c.status),
      u.stateVersion.OrElse(c.stateVersion),
      u.lastEventId.GetOr(c.lastEventId),
      u.assignedUnitId.OrElse(c.assignedUnitId),
      u.assignedAt.OrElse(c.assignedAt),
      u.prioritySourceEventId.OrElse(c.prioritySourceEventId),
      u.priorityCorrelationId.OrElse(c.priorityCorrelationId),
      c.details + u.details)
  }

  /** An update without a condition creates the item when there is none. */
  const BLANK := Current("", SUBMITTED, None, "", None, None, None, None, map[])

  predicate VersionIs(st: Store, r: RequestId, version: nat) {
    r in st.current && st.current[r].stateVersion == Some(version)
  }

  /** The two-item transaction: put the event if its key is free, and update
      CURRENT if the version is the expected one. None: cancelled, no effect. */
  function AppendTransaction(st: Store, r: RequestId, ev: Event, up: Update, expected: Option<nat>): Option<Store> {
    if ev.version in EventsOf(st, r) then None
    else if expected.Some? && !VersionIs(st, r, expected.value) then None
    else Some(Store(
                st.current[r := Patch(Get(st.current, r).GetOr(BLANK), up)],
                st.events[r := EventsOf(st, r)[ev.version := ev]]))
  }

  /** The single update of an existing CURRENT that appends no event. */
  function FieldsWrite(st: Store, r: RequestId, up: Update, expected: Option<nat>): Option<Store> {
    if r !in st.current then None
    else if expected.Some? && !VersionIs(st, r, expected.value) then None
    else Some(st.(current := st.current[r := Patch(st.current[r], up)]))
  }

  /** What a use case does after looking at the CURRENT it read. */
  datatype Decision =
    | Fail(error: Error)
    | Skip
    | WriteFields(update: Update, expected: Option<nat>)
    | Append(event: Event, update: Update, expected: Option<nat>)

  function Commit(st: Store, r: RequestId, d: Decision): Option<Store> {
    match d
    case Fail(_) => None
    case Skip => None
    case WriteFields(up, expected) => FieldsWrite(st, r, up, expected)
    case Append(ev, up, expected) => AppendTransaction(st, r, ev, up, expected)
  }

  /** The store together with every value CURRENT has ever had: a read is not
      consistent, so it may return any of them. */
  datatype World = World(store: Store, past: map<RequestId, seq<Current>>)

  function PastOf(w: World, r: RequestId): seq<Current> {
    if r in w.past then w.past[r] else []
  }

  predicate Readable(w: World, r: RequestId, snap: Option<Current>) {
    snap.Some? ==> snap.value in PastOf(w, r)
  }

  /** What a replica returns that has not seen the last `lag` writes. */
  function ReadAt(w: World, r: RequestId, lag: nat): (snap: Option<Current>)
    ensures Readable(w, r, snap)
  {
    var p := PastOf(w, r);
    if lag < |p| then Some(p[|p| - 1 - lag]) else None
  }

  /** One use case's write as it hits the store. */
  function Write(w: World, r: RequestId, d: Decision): World {
    var next := Commit(w.store, r, d);
    if next.None? || r !in next.value.current then w
    else World(next.value, w.past[r := PastOf(w, r) + [next.value.current[r]]])
  }

  datatype WriteOutcome = Written | ConditionFailed

  /** The repository object: the two item kinds in place, and the old CURRENT
      values that a lagging replica may still serve. */
  class Repository {
    var current: map<RequestId, Current>
    var events: map<RequestId, Log>
    var past: map<RequestId, seq<Current>>

    constructor ()
      ensures View() == World(Store(map[], map[]), map[])
    {
      current, events, past := map[], map[], map[];
    }

    function View(): World
      reads this
    {
      World(Store(current, events), past)
    }

    method GetCurrentState(r: RequestId, lag: nat) returns (snap: Option<Current>)
      ensures snap == ReadAt(View(), r, lag)
    {
      if r !in past || lag >= |past[r]| {
        return None;
      }
      snap := Some(past[r][|past[r]| - 1 - lag]);
    }

    method AppendEventAndUpdateCurrent(r: RequestId, ev: Event, up: Update, expected: Option<nat>)
      returns (outcome: WriteOutcome)
      modifies this
      ensures View() == Write(old(View()), r, Append(ev, up, expected))
      ensures outcome.Written? <==> AppendTransaction(old(View()).store, r, ev, up, expected).Some?
    {
      var log := if r in events then events[r] else map[];
      if ev.version in log {
        return ConditionFailed;
      }
      if expected.Some? && (r !in current || current[r].stateVersion != expected) {
        return ConditionFailed;
      }
      var item := if r in current then current[r] else BLANK;
      events := events[r := log[ev.version := ev]];
      current := current[r := Patch(item, up)];
      past := past[r := (if r in past then past[r] else []) + [current[r]]];
      return Written;
    }

    method UpdateCurrentFields(r: RequestId, up: Update, expected: Option<nat>) returns (outcome: WriteOutcome)
      modifies this
      ensures View() == Write(old(View()), r, WriteFields(up, expected))
      ensures outcome.Written? <==> FieldsWrite(old(View()).store, r, up, expected).Some?
    {
      if r !in current || (expected.Some? && current[r].stateVersion != expected) {
        return ConditionFailed;
      }
      current := current[r := Patch(current[r], up)];
      past := past[r := (if r in past then past[r] else []) + [current[r]]];
      return Written;
    }
  }
}
