/** What each use case does to a request and what it answers, told by what is asked
    and by the request as it was: when it acts at all, and which attributes and
    which event it then leaves behind. */
module Outcomes {
  import opened Wrappers
  import opened RequestLifecycle
  import opened RequestStore
  import opened Writers

  // ----- when they act

  predicate VersionMatches(c: Current, ifMatch: Option<nat>) {
    ifMatch.Some? ==> ifMatch.value == c.stateVersion.GetOr(0)
  }

  predicate ScoreOk(v: Value) {
    match v
    case Null => true
    case Number(x) => 0.0 <= x <= 1.0
    case Text(_) => false
  }

  /** What a transition to this status has to bring along. */
  predicate BringsEnough(target: Status, payload: Payload) {
    && (target == ASSIGNED ==> Truthy(payload.responderUnitId))
    && (target == CANCELLED ==> Truthy(payload.reason))
    && ScoreOk(payload.priorityScore)
  }

  predicate Possible(c: Current, call: Call)
    requires call.Transition?
  {
    VersionMatches(c, call.ifMatch) && !IsTerminal(c.status) && MayFollow(c.status, call.target)
  }

  /** Staff get their transition exactly if it is possible and brings enough. */
  lemma TransitionDecidedIff(c: Current, call: Call, f: Fresh)
    requires call.Transition?
    ensures var d := Decide(Some(c), call, f);
            && (d.Append? <==> Possible(c, call) && BringsEnough(call.target, call.payload))
            && (d == Fail(Conflict) <==> !Possible(c, call))
            && (d == Fail(Validation) <==> Possible(c, call) && !BringsEnough(call.target, call.payload))
  {
    TransitionAllowedIff(c.status, call.target);
  }

  /** An evaluation counts exactly if it was made of the latest data of a request
      that is still open. */
  lemma EvaluationDecidedIff(c: Current, call: Call, f: Fresh)
    requires call.Evaluate?
    ensures var d, latest := Decide(Some(c), call, f), c.prioritySourceEventId == Some(call.correlationId);
            && (d.Append? <==> latest && !IsTerminal(c.status))
            && (d == Skip <==> latest && IsTerminal(c.status))
            && (d == Fail(Validation) <==> !latest)
  {
  }

  /** A mission moves an open request of its incident on when a team is under way
      or has resolved it, and otherwise only leaves its own data. */
  lemma MissionDecidedIff(c: Current, call: Call, f: Fresh)
    requires call.Progressed?
    ensures var d, own := Decide(Some(c), call, f), c.incidentId in {"", call.missionIncidentId};
            var moves := call.progress == MISSION_RESOLVED || (call.progress == EN_ROUTE && c.status != IN_PROGRESS);
            && (d.Append? <==> own && !IsTerminal(c.status) && moves)
            && (d.WriteFields? <==> own && !IsTerminal(c.status) && !moves)
            && (d == Skip <==> own && IsTerminal(c.status))
            && (d == Fail(Validation) <==> !own)
  {
  }

  lemma PriorityDecidedIff(c: Current, call: Call, f: Fresh)
    requires call.Reprioritize?
    ensures var d, ok := Decide(Some(c), call, f), !IsTerminal(c.status) && VersionMatches(c, call.ifVersion);
            && (d.WriteFields? <==> ok) && (d == Fail(Conflict) <==> !ok)
            && (d.WriteFields? ==> d.expected == call.ifVersion)
  {
  }

  lemma UnknownRequestDecided(call: Call, f: Fresh)
    ensures if call.Source? then Decide(None, call, f).WriteFields? else Decide(None, call, f) == Fail(NotFound)
  {
  }

  // ----- what they leave behind

  /** What an append leaves in CURRENT whoever makes it. */
  predicate Mirrors(snap: Current, c': Current, ev: Event, f: Fresh) {
    && ev.version == snap.stateVersion.GetOr(0) + 1 && c'.stateVersion == Some(ev.version)
    && ev.eventId == f.eventId == c'.lastEventId
    && ev.previousStatus == Some(snap.status) && c'.status == ev.newStatus
  }

  ghost predicate Committed(w: World, r: RequestId, snap: Option<Current>, call: Call, f: Fresh) {
    r in w.store.current && Commit(w.store, r, Decide(snap, call, f)).Some?
  }

  /** CURRENT after the write, and the event under the new version, if any. */
  function CurrentAfter(w: World, r: RequestId, snap: Option<Current>, call: Call, f: Fresh): Current
    requires Committed(w, r, snap, call, f)
  {
    Write(w, r, Decide(snap, call, f)).store.current[r]
  }

  lemma CurrentIsPatched(w: World, r: RequestId, snap: Option<Current>, call: Call, f: Fresh)
    requires Committed(w, r, snap, call, f)
    ensures var d := Decide(snap, call, f);
            && (d.Append? || d.WriteFields?)
            && CurrentAfter(w, r, snap, call, f) == Patch(w.store.current[r], d.update)
            && (d.Append? ==> Get(EventsOf(Write(w, r, d).store, r), d.event.version) == Some(d.event))
            && (d.WriteFields? ==> EventsOf(Write(w, r, d).store, r) == EventsOf(w.store, r))
  {
  }

  /** A transition leaves the status asked for, with who, why, unit and score in the
      event, and what it brings along in CURRENT. */
  lemma TransitionLeaves(w: World, r: RequestId, snap: Current, call: Call, f: Fresh)
    requires call.Transition? && Committed(w, r, Some(snap), call, f)
    ensures var c, c' := w.store.current[r], CurrentAfter(w, r, Some(snap), call, f);
            var payload := call.payload;
            var found := Get(EventsOf(Write(w, r, Decide(Some(snap), call, f)).store, r), c'.stateVersion.GetOr(0));
            && found.Some? && Mirrors(snap, c', found.value, f)
            && c'.status == call.target
            && found.value.changedBy == call.changedBy && found.value.changeReason == payload.reason
            && found.value.responderUnitId == payload.responderUnitId
            && found.value.priorityScore == payload.priorityScore
            && found.value.origin == Staff && found.value.occurredAt == f.now
            && (if Truthy(payload.responderUnitId)
                then c'.assignedUnitId == payload.responderUnitId && c'.assignedAt == Some(f.now)
                else c'.assignedUnitId == c.assignedUnitId && c'.assignedAt == c.assignedAt)
            && c'.incidentId == c.incidentId && c'.prioritySourceEventId == c.prioritySourceEventId
            && c'.priorityCorrelationId == c.priorityCorrelationId
  {
    CurrentIsPatched(w, r, Some(snap), call, f);
  }

  /** An evaluation triages a request just submitted and leaves any other status
      alone; CURRENT and the event hold its score and where it comes from. */
  lemma EvaluationLeaves(w: World, r: RequestId, snap: Current, call: Call, f: Fresh)
    requires call.Evaluate? && Committed(w, r, Some(snap), call, f)
    ensures var c, c' := w.store.current[r], CurrentAfter(w, r, Some(snap), call, f);
            var found := Get(EventsOf(Write(w, r, Decide(Some(snap), call, f)).store, r), c'.stateVersion.GetOr(0));
            && found.Some? && Mirrors(snap, c', found.value, f)
            && c'.status == (if snap.status == SUBMITTED then TRIAGED else snap.status)
            && Rank(c'.status) == (if snap.status == SUBMITTED then 1 else Rank(snap.status))
            && found.value.changedBy == "prioritization-service" && found.value.changeReason == Some(call.reason)
            && found.value.priorityScore == Number(call.score) && found.value.responderUnitId == None
            && found.value.origin == Evaluation(call.evaluateId) && found.value.occurredAt == f.now
            && c'.priorityCorrelationId == Some(call.correlationId)
            && c'.assignedUnitId == c.assignedUnitId && c'.assignedAt == c.assignedAt
            && c'.incidentId == c.incidentId && c'.prioritySourceEventId == c.prioritySourceEventId
  {
    CurrentIsPatched(w, r, Some(snap), call, f);
  }

  /** A mission that moves a request on puts it in progress or resolves it, assigns
      its team, and keeps the time of an earlier assignment. */
  lemma MissionLeaves(w: World, r: RequestId, snap: Current, call: Call, f: Fresh)
    requires call.Progressed? && Committed(w, r, Some(snap), call, f) && Decide(Some(snap), call, f).Append?
    ensures var c, c' := w.store.current[r], CurrentAfter(w, r, Some(snap), call, f);
            var found := Get(EventsOf(Write(w, r, Decide(Some(snap), call, f)).store, r), c'.stateVersion.GetOr(0));
            && found.Some? && Mirrors(snap, c', found.value, f)
            && (call.progress == EN_ROUTE ==> c'.status == IN_PROGRESS)
            && (call.progress == MISSION_RESOLVED ==> c'.status == RESOLVED)
            && found.value.changedBy == call.missionChangedBy && found.value.responderUnitId == Some(call.teamId)
            && found.value.changeReason == Some("Mission status changed to " + ProgressText(call.progress))
            && found.value.priorityScore == Get(snap.details, PriorityScore).GetOr(Null)
            && found.value.occurredAt == call.changedAt
            && found.value.origin == Mission(call.missionId, ProgressText(call.progress), call.changedAt)
            && c'.assignedUnitId == (if call.teamId != "" then Some(call.teamId) else c.assignedUnitId)
            && c'.assignedAt == (if call.teamId != "" && !Truthy(snap.assignedAt) then Some(call.changedAt)
                                 else c.assignedAt)
            && c'.incidentId == c.incidentId && c'.prioritySourceEventId == c.prioritySourceEventId
            && c'.priorityCorrelationId == c.priorityCorrelationId
  {
    CurrentIsPatched(w, r, Some(snap), call, f);
  }

  lemma ProgressTexts()
    ensures ProgressText(EN_ROUTE) == "EN_ROUTE" && ProgressText(ON_SITE) == "ON_SITE"
    ensures ProgressText(MISSION_RESOLVED) == "RESOLVED" && ProgressText(NEED_BACKUP) == "NEED_BACKUP"
  {
  }

  /** Writes without an event change no attribute outside the details but the
      source id. */
  lemma FieldsLeave(w: World, r: RequestId, snap: Option<Current>, call: Call, f: Fresh)
    requires Committed(w, r, snap, call, f) && Decide(snap, call, f).WriteFields?
    ensures var c, c' := w.store.current[r], CurrentAfter(w, r, snap, call, f);
            && c'.prioritySourceEventId == (if call.Source? then Some(call.sourceEventId) else c.prioritySourceEventId)
            && c'.(details := c.details, prioritySourceEventId := c.prioritySourceEventId) == c
  {
    CurrentIsPatched(w, r, snap, call, f);
  }

  function Only(given: bool, v: Value): Option<Value> {
    if given then Some(v) else None
  }

  /** The value a call gives an attribute, if it gives one. */
  function Given(call: Call, f: Fresh, k: Detail): Option<Value> {
    match call
    case Transition(_, changedBy, payload, _) =>
      (match k
       case PriorityScore => Only(payload.priorityScore != Null, payload.priorityScore)
       case PriorityLevel => Only(Truthy(payload.priorityLevel), Text(payload.priorityLevel.GetOr("")))
       case LatestNote => Only(Truthy(payload.note), Text(payload.note.GetOr("")))
       case LastUpdatedBy => Some(Text(changedBy))
       case LastUpdatedAt => Some(Text(f.now))
       case _ => None)
    case Evaluate(evaluateId, _, score, level, reason, evaluatedAt) =>
      (match k
       case PriorityScore => Some(Number(score))
       case PriorityLevel => Some(Text(level))
       case EvaluationId => Some(Text(evaluateId))
       case EvaluationReason => Some(Text(reason))
       case EvaluatedAt => Some(Text(evaluatedAt))
       case PriorityIngestedAt => Some(Text(f.now))
       case LastUpdatedAt => Some(Text(f.now))
       case LastUpdatedBy => Some(Text("prioritization-service"))
       case _ => None)
    case Progressed(missionId, incidentId, teamId, progress, changedAt, changedBy) =>
      (match k
       case MissionId => Some(Text(missionId))
       case MissionIncidentId => Some(Text(incidentId))
       case MissionTeamId => Some(Text(teamId))
       case MissionChangedBy => Some(Text(changedBy))
       case MissionStatus => Some(Text(ProgressText(progress)))
       case MissionChangedAt => Some(Text(changedAt))
       case MissionIngestedAt => Some(Text(f.now))
       case LastUpdatedBy => Some(Text(changedBy))
       case LastUpdatedAt => Some(Text(f.now))
       case _ => None)
    case Reprioritize(score, level, note, _) =>
      (match k
       case PriorityScore => score
       case PriorityLevel => level
       case LatestNote => note
       case LastUpdatedAt => Some(Text(f.now))
       case _ => None)
    case Source(_, eventType, occurredAt) =>
      (match k
       case SourceEventType => Some(Text(eventType))
       case SourceOccurredAt => Some(Text(occurredAt))
       case _ => None)
  }

  lemma TransitionUpdateGives(call: Call, version: nat, f: Fresh, k: Detail)
    requires call.Transition?
    ensures Get(TransitionUpdate(call, version, f).details, k) == Given(call, f, k)
  {
  }

  lemma TransitionGives(c: Current, call: Call, f: Fresh, k: Detail)
    requires call.Transition? && Decide(Some(c), call, f).Append?
    ensures Get(Decide(Some(c), call, f).update.details, k) == Given(call, f, k)
  {
    TransitionUpdateGives(call, c.stateVersion.GetOr(0) + 1, f, k);
  }

  lemma EvaluationGives(c: Current, call: Call, f: Fresh, k: Detail)
    requires call.Evaluate? && Decide(Some(c), call, f).Append?
    ensures Get(Decide(Some(c), call, f).update.details, k) == Given(call, f, k)
  {
  }

  lemma MissionDetailsGive(call: Call, f: Fresh, k: Detail)
    requires call.Progressed?
    ensures Get(MissionDetails(call, f.now), k) == Given(call, f, k)
  {
  }

  lemma MissionGives(c: Current, call: Call, f: Fresh, k: Detail)
    requires call.Progressed? && (Decide(Some(c), call, f).Append? || Decide(Some(c), call, f).WriteFields?)
    ensures Get(Decide(Some(c), call, f).update.details, k) == Given(call, f, k)
  {
    MissionDetailsGive(call, f, k);
  }

  lemma PriorityGives(c: Current, call: Call, f: Fresh, k: Detail)
    requires call.Reprioritize? && Decide(Some(c), call, f).WriteFields?
    ensures Get(Decide(Some(c), call, f).update.details, k) == Given(call, f, k)
  {
  }

  lemma SourceGives(snap: Option<Current>, call: Call, f: Fresh, k: Detail)
    requires call.Source?
    ensures Get(Decide(snap, call, f).update.details, k) == Given(call, f, k)
  {
  }

  lemma DecisionGives(snap: Option<Current>, call: Call, f: Fresh, k: Detail)
    requires Decide(snap, call, f).Append? || Decide(snap, call, f).WriteFields?
    ensures Get(Decide(snap, call, f).update.details, k) == Given(call, f, k)
  {
    match call
    case Transition(_, _, _, _) => TransitionGives(snap.value, call, f, k);
    case Evaluate(_, _, _, _, _, _) => EvaluationGives(snap.value, call, f, k);
    case Progressed(_, _, _, _, _, _) => MissionGives(snap.value, call, f, k);
    case Reprioritize(_, _, _, _) => PriorityGives(snap.value, call, f, k);
    case Source(_, _, _) => SourceGives(snap, call, f, k);
  }

  lemma DetailPatched(c: Current, up: Update, k: Detail)
    ensures Get(Patch(c, up).details, k) == Get(up.details, k).OrElse(Get(c.details, k))
  {
  }

  /** After any committed write each attribute has the value the call gives it, and
      the one it had if the call gives it none. */
  lemma WriteLeavesDetail(w: World, r: RequestId, snap: Option<Current>, call: Call, f: Fresh, k: Detail)
    requires Committed(w, r, snap, call, f)
    ensures Get(CurrentAfter(w, r, snap, call, f).details, k)
            == Given(call, f, k).OrElse(Get(w.store.current[r].details, k))
  {
    CurrentIsPatched(w, r, snap, call, f);
    DetailPatched(w.store.current[r], Decide(snap, call, f).update, k);
    DecisionGives(snap, call, f, k);
  }

  // ----- what they answer

  /** An answer tells what became of the request: an event that was not there, new
      fields and no event, or nothing at all. */
  lemma AnswerTells(w: World, r: RequestId, snap: Option<Current>, call: Call, f: Fresh)
    requires r in w.store.current
    ensures var d := Decide(snap, call, f);
            var answer, w' := Respond(w.store, r, call, d), Write(w, r, d);
            match answer
            case Appended(ev) =>
              Get(EventsOf(w.store, r), ev.version) == None && Get(EventsOf(w'.store, r), ev.version) == Some(ev)
              && w'.store.current[r].lastEventId == ev.eventId
            case FieldsUpdated =>
              w'.store.events == w.store.events && PastOf(w', r) == PastOf(w, r) + [w'.store.current[r]]
            case SkippedTerminal => w' == w && snap.Some? && IsTerminal(snap.value.status)
            case Failed(_) => w' == w
  {
  }

  /** And an error says why nothing happened. */
  lemma ErrorTells(w: World, r: RequestId, snap: Option<Current>, call: Call, f: Fresh)
    ensures var d := Decide(snap, call, f);
            var answer := Respond(w.store, r, call, d);
            && (d.Fail? ==> answer == Failed(d.error))
            && (d.Append? ==> (answer == Failed(Conflict) <==> Commit(w.store, r, d).None?))
            && (d.WriteFields? && call.Reprioritize? ==>
                  && (answer == Failed(Conflict) <==> call.ifVersion.Some? && Commit(w.store, r, d).None?)
                  && (answer == Failed(NotFound) <==> call.ifVersion.None? && r !in w.store.current))
            && (d.WriteFields? && !call.Reprioritize? ==>
                  (answer == Failed(Backend) <==> Commit(w.store, r, d).None?))
  {
  }
}
