/** The use cases that write CURRENT: what each decides from the CURRENT it
    read, and the step-by-step code that carries the decision out.

    Other writers may act between a use case's read and its write. That is
    covered by letting the read return any earlier CURRENT of the store that
    the write meets. */
module Writers {
  import opened Wrappers
  import opened RequestLifecycle
  import opened RequestStore

  /** The values drawn during a call: a fresh id and the clock. */
  datatype Fresh = Fresh(eventId: string, now: string)

  datatype Payload = Payload(
    responderUnitId: Option<string>,
    reason: Option<string>,
    priorityScore: Value,
    priorityLevel: Option<string>,
    note: Option<string>)

  datatype Progress = EN_ROUTE | ON_SITE | MISSION_RESOLVED | NEED_BACKUP

  function ProgressText(p: Progress): string {
    match p
    case EN_ROUTE => "EN_ROUTE"
    case ON_SITE => "ON_SITE"
    case MISSION_RESOLVED => "RESOLVED"
    case NEED_BACKUP => "NEED_BACKUP"
  }

  function StatusMap(p: Progress): Option<Status> {
    match p
    case EN_ROUTE => Some(IN_PROGRESS)
    case MISSION_RESOLVED => Some(RESOLVED)
    case _ => None
  }

  datatype Call =
    | Transition(target: Status, changedBy: string, payload: Payload, ifMatch: Option<nat>)
    | Evaluate(evaluateId: string, correlationId: string, score: real, level: string, reason: string,
               evaluatedAt: string)
    | Progressed(missionId: string, missionIncidentId: string, teamId: string, progress: Progress,
                 changedAt: string, missionChangedBy: string)
    | Reprioritize(newScore: Option<Value>, newLevel: Option<Value>, newNote: Option<Value>, ifVersion: Option<nat>)
    | Source(sourceEventId: string, sourceEventType: string, sourceOccurredAt: string)

  /** What message validation has already guaranteed. */
  predicate ValidCall(call: Call) {
    match call
    case Evaluate(evaluateId, correlationId, score, _, reason, _) =>
      evaluateId != "" && correlationId != "" && 0.0 <= score <= 1.0 && reason != ""
    case Progressed(missionId, incidentId, teamId, _, changedAt, changedBy) =>
      missionId != "" && incidentId != "" && teamId != "" && changedAt != "" && changedBy != ""
    case Source(id, _, _) => id != ""
    case _ => true
  }

  function ResolveIngestedStatus(s: Status): Status {
    if s == SUBMITTED then TRIAGED else s
  }

  function ValidateScore(v: Value): Option<Error> {
    match v
    case Null => None
    case Text(_) => Some(Validation)
    case Number(x) => if x < 0.0 || x > 1.0 then Some(Validation) else None
  }

  function TransitionError(c: Current, target: Status, payload: Payload, ifMatch: Option<nat>): Option<Error> {
    if ifMatch.Some? && ifMatch.value != c.stateVersion.GetOr(0) then Some(Conflict)
    else ValidateTransition(c.status, target)
         .OrElse(ValidateRequirements(target, payload.responderUnitId, payload.reason))
         .OrElse(ValidateScore(payload.priorityScore))
  }

  function When(present: bool, d: Detail, v: Value): map<Detail, Value> {
    if present then map[d := v] else map[]
  }

  function TransitionUpdate(call: Call, version: nat, f: Fresh): Update
    requires call.Transition?
  {
    var payload := call.payload;
    var unit := if Truthy(payload.responderUnitId) then payload.responderUnitId else None;
    NO_UPDATE.(status := Some(call.target), stateVersion := Some(version), lastEventId := Some(f.eventId),
               assignedUnitId := unit, assignedAt := if unit.Some? then Some(f.now) else None,
               details := map[LastUpdatedBy := Text(call.changedBy), LastUpdatedAt := Text(f.now)]
               + When(payload.priorityScore != Null, PriorityScore, payload.priorityScore)
               + When(Truthy(payload.priorityLevel), PriorityLevel, Text(payload.priorityLevel.GetOr("")))
               + When(Truthy(payload.note), LatestNote, Text(payload.note.GetOr(""))))
  }

  function TransitionDecision(c: Current, call: Call, f: Fresh): Decision
    requires call.Transition?
  {
    var Transition(target, changedBy, payload, ifMatch) := call;
    var bad := TransitionError(c, target, payload, ifMatch);
    if bad.Some? then Fail(bad.value)
    else
      var version := c.stateVersion.GetOr(0);
      Append(
        Event(version + 1, f.eventId, Some(c.status), target, changedBy, payload.reason,
              payload.responderUnitId, payload.priorityScore, Staff, f.now),
        TransitionUpdate(call, version + 1, f),
        Some(version))
  }

  function EvaluationDecision(c: Current, call: Call, f: Fresh): Decision
    requires call.Evaluate?
  {
    var Evaluate(evaluateId, correlationId, score, level, reason, evaluatedAt) := call;
    if c.prioritySourceEventId != Some(correlationId) then Fail(Validation)
    else if IsTerminal(c.status) then Skip
    else
      var version := c.stateVersion.GetOr(0) + 1;
      var resolved := ResolveIngestedStatus(c.status);
      Append(
        Event(version, f.eventId, Some(c.status), resolved, "prioritization-service", Some(reason),
              None, Number(score), Evaluation(evaluateId), f.now),
        NO_UPDATE.(status := Some(resolved), stateVersion := Some(version), lastEventId := Some(f.eventId),
                   priorityCorrelationId := Some(correlationId),
                   details := map[PriorityScore := Number(score), PriorityLevel := Text(level),
                                  EvaluationId := Text(evaluateId), EvaluationReason := Text(reason),
                                  EvaluatedAt := Text(evaluatedAt), PriorityIngestedAt := Text(f.now),
                                  LastUpdatedAt := Text(f.now), LastUpdatedBy := Text("prioritization-service")]),
        c.stateVersion)
  }

  function MissionDetails(call: Call, now: string): map<Detail, Value>
    requires call.Progressed?
  {
    map[MissionId := Text(call.missionId), MissionIncidentId := Text(call.missionIncidentId),
        MissionTeamId := Text(call.teamId), MissionChangedBy := Text(call.missionChangedBy),
        MissionStatus := Text(ProgressText(call.progress)), MissionChangedAt := Text(call.changedAt),
        MissionIngestedAt := Text(now), LastUpdatedBy := Text(call.missionChangedBy),
        LastUpdatedAt := Text(now)]
  }

  function MissionOrigin(call: Call): Origin
    requires call.Progressed?
  {
    Mission(call.missionId, ProgressText(call.progress), call.changedAt)
  }

  function MissionDecision(c: Current, call: Call, f: Fresh): Decision
    requires call.Progressed?
  {
    var Progressed(missionId, incidentId, teamId, progress, changedAt, changedBy) := call;
    if c.incidentId != "" && c.incidentId != incidentId then Fail(Validation)
    else if IsTerminal(c.status) then Skip
    else
      var metadata := NO_UPDATE.(details := MissionDetails(call, f.now));
      var target := StatusMap(progress);
      if target.None? || target.value == c.status then WriteFields(metadata, c.stateVersion)
      else
        var version := c.stateVersion.GetOr(0) + 1;
        Append(
          Event(version, f.eventId, Some(c.status), target.value, changedBy,
                Some("Mission status changed to " + ProgressText(progress)), Some(teamId),
                Get(c.details, PriorityScore).GetOr(Null), MissionOrigin(call), changedAt),
          metadata.(status := target, stateVersion := Some(version), lastEventId := Some(f.eventId),
                    assignedUnitId := if teamId != "" then Some(teamId) else None,
                    assignedAt := if teamId != "" && !Truthy(c.assignedAt) then Some(changedAt) else None),
          c.stateVersion)
  }

  function PriorityDetails(call: Call, now: string): map<Detail, Value>
    requires call.Reprioritize?
  {
    map[LastUpdatedAt := Text(now)]
    + When(call.newScore.Some?, PriorityScore, call.newScore.GetOr(Null))
    + When(call.newLevel.Some?, PriorityLevel, call.newLevel.GetOr(Null))
    + When(call.newNote.Some?, LatestNote, call.newNote.GetOr(Null))
  }

  function ReprioritizeDecision(c: Current, call: Call, f: Fresh): Decision
    requires call.Reprioritize?
  {
    var Reprioritize(score, level, note, ifMatch) := call;
    if IsTerminal(c.status) then Fail(Conflict)
    else if ifMatch.Some? && ifMatch.value != c.stateVersion.GetOr(0) then Fail(Conflict)
    else WriteFields(NO_UPDATE.(details := PriorityDetails(call, f.now)), ifMatch)
  }

  /** Create, citizen update and patch write the id of the event they published
      without looking at CURRENT. */
  function SourceDecision(call: Call): Decision
    requires call.Source?
  {
    WriteFields(
      NO_UPDATE.(prioritySourceEventId := Some(call.sourceEventId),
                 details := map[SourceEventType := Text(call.sourceEventType),
                                SourceOccurredAt := Text(call.sourceOccurredAt)]),
      None)
  }

  function Decide(snap: Option<Current>, call: Call, f: Fresh): Decision {
    if call.Source? then SourceDecision(call)
    else if snap.None? then Fail(NotFound)
    else
      match call
      case Transition(_, _, _, _) => TransitionDecision(snap.value, call, f)
      case Evaluate(_, _, _, _, _, _) => EvaluationDecision(snap.value, call, f)
      case Progressed(_, _, _, _, _, _) => MissionDecision(snap.value, call, f)
      case Reprioritize(_, _, _, _) => ReprioritizeDecision(snap.value, call, f)
  }

  datatype Outcome =
    | Appended(event: Event)
    | SkippedTerminal
    | FieldsUpdated
    | Failed(error: Error)

  /** The answer a use case gives once its decision has met the store. */
  function Respond(st: Store, r: RequestId, call: Call, d: Decision): Outcome {
    match d
    case Fail(e) => Failed(e)
    case Skip => SkippedTerminal
    case WriteFields(_, expected) =>
      if Commit(st, r, d).Some? then FieldsUpdated
      else if !call.Reprioritize? then Failed(Backend)
      else Failed(if expected.Some? then Conflict else NotFound)
    case Append(ev, _, _) => if Commit(st, r, d).Some? then Appended(ev) else Failed(Conflict)
  }

  /** The part of `execute_transition` that fills `current_updates`. */
  method FillTransitionUpdates(call: Call, version: nat, f: Fresh) returns (updates: Update)
    requires call.Transition?
    ensures updates == TransitionUpdate(call, version, f)
  {
    var payload := call.payload;
    var details := map[LastUpdatedBy := Text(call.changedBy), LastUpdatedAt := Text(f.now)];
    ghost var base := details;
    updates := NO_UPDATE.(status := Some(call.target), stateVersion := Some(version), lastEventId := Some(f.eventId));
    if payload.priorityScore != Null {
      details := details[PriorityScore := payload.priorityScore];
    }
    ghost var scored := base + When(payload.priorityScore != Null, PriorityScore, payload.priorityScore);
    assert details == scored;
    if Truthy(payload.priorityLevel) {
      details := details[PriorityLevel := Text(payload.priorityLevel.value)];
    }
    ghost var levelled :=
      scored + When(Truthy(payload.priorityLevel), PriorityLevel, Text(payload.priorityLevel.GetOr("")));
    assert details == levelled;
    if Truthy(payload.responderUnitId) {
      updates := updates.(assignedUnitId := payload.responderUnitId, assignedAt := Some(f.now));
    }
    if Truthy(payload.note) {
      details := details[LatestNote := Text(payload.note.value)];
    }
    assert details == levelled + When(Truthy(payload.note), LatestNote, Text(payload.note.GetOr("")));
    updates := updates.(details := details);
  }

  /** The checks between the read and the write, in order. */
  method CheckTransition(c: Current, call: Call) returns (bad: Option<Error>)
    requires call.Transition?
    ensures bad == TransitionError(c, call.target, call.payload, call.ifMatch)
  {
    if call.ifMatch.Some? && call.ifMatch.value != c.stateVersion.GetOr(0) {
      return Some(Conflict);
    }
    bad := ValidateTransition(c.status, call.target);
    if bad.Some? {
      return;
    }
    bad := ValidateRequirements(call.target, call.payload.responderUnitId, call.payload.reason);
    if bad.Some? {
      return;
    }
    bad := ValidateScore(call.payload.priorityScore);
  }

  method ExecuteTransition(repo: Repository, r: RequestId, call: Call, f: Fresh, lag: nat) returns (outcome: Outcome)
    requires call.Transition?
    modifies repo
    ensures var d := Decide(ReadAt(old(repo.View()), r, lag), call, f);
            && repo.View() == Write(old(repo.View()), r, d)
            && outcome == Respond(old(repo.View()).store, r, call, d)
  {
    var current := repo.GetCurrentState(r, lag);
    if current.None? {
      return Failed(NotFound);
    }
    var c := current.value;
    var version := c.stateVersion.GetOr(0);
    var bad := CheckTransition(c, call);
    if bad.Some? {
      return Failed(bad.value);
    }
    var event := Event(version + 1, f.eventId, Some(c.status), call.target, call.changedBy, call.payload.reason,
                       call.payload.responderUnitId, call.payload.priorityScore, Staff, f.now);
    var updates := FillTransitionUpdates(call, version + 1, f);
    assert TransitionDecision(c, call, f) == Append(event, updates, Some(version));
    var written := repo.AppendEventAndUpdateCurrent(r, event, updates, Some(version));
    outcome := if written.Written? then Appended(event) else Failed(Conflict);
  }

  method IngestEvaluation(repo: Repository, r: RequestId, call: Call, f: Fresh, lag: nat) returns (outcome: Outcome)
    requires call.Evaluate?
    modifies repo
    ensures var d := Decide(ReadAt(old(repo.View()), r, lag), call, f);
            && repo.View() == Write(old(repo.View()), r, d)
            && outcome == Respond(old(repo.View()).store, r, call, d)
  {
    var current := repo.GetCurrentState(r, lag);
    if current.None? {
      return Failed(NotFound);
    }
    var c := current.value;
    if c.prioritySourceEventId != Some(call.correlationId) {
      return Failed(Validation);
    }
    if IsTerminal(c.status) {
      return SkippedTerminal;
    }
    var newVersion := c.stateVersion.GetOr(0) + 1;
    var resolved := ResolveIngestedStatus(c.status);
    var updates := NO_UPDATE.(
      status := Some(resolved), stateVersion := Some(newVersion), lastEventId := Some(f.eventId),
      priorityCorrelationId := Some(call.correlationId),
      details := map[PriorityScore := Number(call.score), PriorityLevel := Text(call.level),
                     EvaluationId := Text(call.evaluateId), EvaluationReason := Text(call.reason),
                     EvaluatedAt := Text(call.evaluatedAt), PriorityIngestedAt := Text(f.now),
                     LastUpdatedAt := Text(f.now), LastUpdatedBy := Text("prioritization-service")]);
    var event := Event(newVersion, f.eventId, Some(c.status), resolved, "prioritization-service", Some(call.reason),
                       None, Number(call.score), Evaluation(call.evaluateId), f.now);
    assert EvaluationDecision(c, call, f) == Append(event, updates, c.stateVersion);
    var written := repo.AppendEventAndUpdateCurrent(r, event, updates, c.stateVersion);
    outcome := if written.Written? then Appended(event) else Failed(Conflict);
  }

  method IngestMission(repo: Repository, r: RequestId, call: Call, f: Fresh, lag: nat) returns (outcome: Outcome)
    requires call.Progressed?
    modifies repo
    ensures var d := Decide(ReadAt(old(repo.View()), r, lag), call, f);
            && repo.View() == Write(old(repo.View()), r, d)
            && outcome == Respond(old(repo.View()).store, r, call, d)
  {
    var current := repo.GetCurrentState(r, lag);
    if current.None? {
      return Failed(NotFound);
    }
    var c := current.value;
    if c.incidentId != "" && c.incidentId != call.missionIncidentId {
      return Failed(Validation);
    }
    if IsTerminal(c.status) {
      return SkippedTerminal;
    }
    var target := StatusMap(call.progress);
    var updates := NO_UPDATE.(details := MissionDetails(call, f.now));
    if target.None? || c.status == target.value {
      var stored := repo.UpdateCurrentFields(r, updates, c.stateVersion);
      return if stored.Written? then FieldsUpdated else Failed(Backend);
    }
    var newVersion := c.stateVersion.GetOr(0) + 1;
    updates := updates.(status := target, stateVersion := Some(newVersion), lastEventId := Some(f.eventId));
    if call.teamId != "" {
      updates := updates.(assignedUnitId := Some(call.teamId));
      if !Truthy(c.assignedAt) {
        updates := updates.(assignedAt := Some(call.changedAt));
      }
    }
    var event := Event(newVersion, f.eventId, Some(c.status), target.value, call.missionChangedBy,
                       Some("Mission status changed to " + ProgressText(call.progress)), Some(call.teamId),
                       Get(c.details, PriorityScore).GetOr(Null), MissionOrigin(call), call.changedAt);
    var written := repo.AppendEventAndUpdateCurrent(r, event, updates, c.stateVersion);
    outcome := if written.Written? then Appended(event) else Failed(Conflict);
  }

  /** The part of the priority use case that fills `updates`. */
  method FillPriorityUpdates(call: Call, now: string) returns (updates: map<Detail, Value>)
    requires call.Reprioritize?
    ensures updates == PriorityDetails(call, now)
  {
    updates := map[LastUpdatedAt := Text(now)];
    if call.newScore.Some? {
      updates := updates[PriorityScore := call.newScore.value];
    }
    if call.newLevel.Some? {
      updates := updates[PriorityLevel := call.newLevel.value];
    }
    if call.newNote.Some? {
      updates := updates[LatestNote := call.newNote.value];
    }
  }

  method UpdatePriority(repo: Repository, r: RequestId, call: Call, f: Fresh, lag: nat) returns (outcome: Outcome)
    requires call.Reprioritize?
    modifies repo
    ensures var d := Decide(ReadAt(old(repo.View()), r, lag), call, f);
            && repo.View() == Write(old(repo.View()), r, d)
            && outcome == Respond(old(repo.View()).store, r, call, d)
  {
    var current := repo.GetCurrentState(r, lag);
    if current.None? {
      return Failed(NotFound);
    }
    var c := current.value;
    if IsTerminal(c.status) {
      return Failed(Conflict);
    }
    var version := c.stateVersion.GetOr(0);
    if call.ifVersion.Some? && call.ifVersion.value != version {
      return Failed(Conflict);
    }
    var details := FillPriorityUpdates(call, f.now);
    var update := NO_UPDATE.(details := details);
    var stored := repo.UpdateCurrentFields(r, update, if call.ifVersion.Some? then Some(version) else None);
    if stored.Written? {
      return FieldsUpdated;
    }
    return Failed(if call.ifVersion.Some? then Conflict else NotFound);
  }
}
