/** The queue-driven ingests on top of both protocols: the idempotency lock and
    the versioned log. How many events can the deliveries of one message append? */
module EffectOnce {
  import opened Wrappers
  import opened Marks
  import opened Whitespace
  import opened RequestLifecycle
  import opened RequestStore
  import opened Writers
  import opened EventLog
  import I = Idempotency

  predicate IsIngest(call: Call) {
    call.Evaluate? || call.Progressed?
  }

  function OriginOf(call: Call): Origin
    requires IsIngest(call)
  {
    if call.Evaluate? then Evaluation(call.evaluateId) else MissionOrigin(call)
  }

  predicate FromMessage(origin: Origin) {
    origin.Evaluation? || origin.Mission?
  }

  // ----- the keys

  /** How a message about a request is turned into a claim, up to its fingerprint.
      The counting below does not depend on the choice; `IngestKey` is the
      service's. */
  type Keying = (RequestId, Origin) -> I.Claim

  function QueueScope(source: string, r: RequestId): string {
    "SQS" + [':'] + (source + r)
  }

  /** What the ingests pass to check_and_reserve. */
  function IngestRequest(r: RequestId, origin: Origin): I.Request {
    match origin
    case Evaluation(id) =>
      I.Request("RescueRequestEvaluatedEvent#" + id, "IngestRescueRequestEvaluatedEvent",
                Some(QueueScope("/rescue-prioritization-evaluated/", r)), "")
    case Mission(id, status, changedAt) =>
      I.Request("MissionStatusChangedEvent#" + r + "#" + (id + ['#'] + status + ['#'] + changedAt),
                "IngestMissionStatusChangedEvent", Some(QueueScope("/mission-status-changed/", r)), "")
    case _ => I.Request("", "", None, "")
  }

  function IngestKey(r: RequestId, origin: Origin): I.Claim {
    I.ClaimOf(IngestRequest(r, origin))
  }

  /** Two evaluations of a request get the same key only if they have the same id. */
  lemma EvaluationKeysAgreeIff(r: RequestId, id: string, id': string)
    ensures IngestKey(r, Evaluation(id)).key == IngestKey(r, Evaluation(id')).key <==> id == id'
  {
    var q, q' := IngestRequest(r, Evaluation(id)), IngestRequest(r, Evaluation(id'));
    I.KeyTextCancels(q.operation, I.NormalizeScope(q.scope), q.key, q'.key);
    I.Cancel("RescueRequestEvaluatedEvent#", id, id');
  }

  /** What validation leaves of a time of change: the one separator between date
      and time may be any character, and a date is not a mission status. */
  ghost predicate ChangedAtOk(text: string) {
    Without(text, '#')
    || exists date: string, time: string ::
         text == date + ['#'] + time && Without(date, '#') && Without(time, '#')
         && forall p :: date != ProgressText(p)
  }

  lemma ProgressHasNoHash(p: Progress)
    ensures Without(ProgressText(p), '#')
  {
  }

  lemma SplitTwice(a: string, d: string, t: string, b: string, d': string, t': string)
    requires a + ['#'] + (d + ['#'] + t) == b + ['#'] + (d' + ['#'] + t')
    requires Without(d, '#') && Without(t, '#') && Without(d', '#') && Without(t', '#')
    ensures a == b && d == d' && t == t'
  {
    assert a + ['#'] + (d + ['#'] + t) == (a + ['#'] + d) + ['#'] + t;
    assert b + ['#'] + (d' + ['#'] + t') == (b + ['#'] + d') + ['#'] + t';
    SplitAtLast(a + ['#'] + d, b + ['#'] + d', t, t', '#');
    SplitAtLast(a, b, d, d', '#');
  }

  lemma PartsDiffer(a: string, d: string, t: string, id: string, status: string, at: string)
    requires Without(d, '#') && Without(t, '#') && Without(status, '#') && Without(at, '#') && d != status
    ensures a + ['#'] + (d + ['#'] + t) != (id + ['#'] + status) + ['#'] + at
  {
    assert a + ['#'] + (d + ['#'] + t) == (a + ['#'] + d) + ['#'] + t;
    if (a + ['#'] + d) + ['#'] + t == (id + ['#'] + status) + ['#'] + at {
      SplitAtLast(a + ['#'] + d, id + ['#'] + status, t, at, '#');
      SplitAtLast(a, id, d, status, '#');
    }
  }

  lemma DateIsNoStatus(a: string, at: string, b: string, at': string, id: string, p: Progress)
    requires ChangedAtOk(at) && !Without(at, '#') && Without(at', '#') && b == id + ['#'] + ProgressText(p)
    ensures a + ['#'] + at != b + ['#'] + at'
  {
    var d, t :| at == d + ['#'] + t && Without(d, '#') && Without(t, '#') && forall q :: d != ProgressText(q);
    ProgressHasNoHash(p);
    PartsDiffer(a, d, t, id, ProgressText(p), at');
  }

  lemma SameTail(a: string, p: Progress, at: string, b: string, p': Progress, at': string, id: string, id': string)
    requires ChangedAtOk(at) && ChangedAtOk(at') && a + ['#'] + at == b + ['#'] + at'
    requires a == id + ['#'] + ProgressText(p) && b == id' + ['#'] + ProgressText(p')
    ensures a == b && at == at'
  {
    if Without(at, '#') && Without(at', '#') {
      SplitAtLast(a, b, at, at', '#');
    } else if Without(at, '#') {
      DateIsNoStatus(b, at', a, at, id, p);
    } else if Without(at', '#') {
      DateIsNoStatus(a, at, b, at', id', p');
    } else {
      var d, t :| at == d + ['#'] + t && Without(d, '#') && Without(t, '#');
      var d', t' :| at' == d' + ['#'] + t' && Without(d', '#') && Without(t', '#');
      SplitTwice(a, d, t, b, d', t');
    }
  }

  /** The joined part of a mission key can be taken apart from its end, unless one
      time has a separator '#' and the other is what follows it. */
  lemma JoinedMissionIff(id: string, p: Progress, at: string, id': string, p': Progress, at': string)
    requires ChangedAtOk(at) && ChangedAtOk(at')
    ensures id + ['#'] + ProgressText(p) + ['#'] + at == id' + ['#'] + ProgressText(p') + ['#'] + at'
            <==> id == id' && ProgressText(p) == ProgressText(p') && at == at'
  {
    var a, b := id + ['#'] + ProgressText(p), id' + ['#'] + ProgressText(p');
    ProgressHasNoHash(p);
    ProgressHasNoHash(p');
    if a + ['#'] + at == b + ['#'] + at' {
      SameTail(a, p, at, b, p', at', id, id');
      SplitAtLast(id, id', ProgressText(p), ProgressText(p'), '#');
    }
  }

  /** Two valid mission messages about a request get the same key only if they
      agree on mission, status and time. */
  lemma MissionKeysAgreeIff(r: RequestId, id: string, p: Progress, at: string, id': string, p': Progress, at': string)
    requires ChangedAtOk(at) && ChangedAtOk(at')
    ensures IngestKey(r, Mission(id, ProgressText(p), at)).key == IngestKey(r, Mission(id', ProgressText(p'), at')).key
            <==> Mission(id, ProgressText(p), at) == Mission(id', ProgressText(p'), at')
  {
    var o, o' := Mission(id, ProgressText(p), at), Mission(id', ProgressText(p'), at');
    var q, q' := IngestRequest(r, o), IngestRequest(r, o');
    I.KeyTextCancels(q.operation, I.NormalizeScope(q.scope), q.key, q'.key);
    I.Cancel("MissionStatusChangedEvent#" + r + "#", id + ['#'] + ProgressText(p) + ['#'] + at,
           id' + ['#'] + ProgressText(p') + ['#'] + at');
    JoinedMissionIff(id, p, at, id', p', at');
  }

  predicate PlainId(r: RequestId) {
    Without(r, ':') && (r != "" ==> !IsSpace(r[|r| - 1]))
  }

  lemma QueuePath(head: string, path: string, operation: string)
    requires Without(operation, ':') && Without(head, ':') && Without(path, ':')
    ensures I.Proper(operation, head + [':'] + path)
  {
  }

  lemma QueueIsProper(source: string, r: RequestId, operation: string)
    requires PlainId(r) && Without(operation, ':')
    requires Without(source, ':') && source != "" && !IsSpace(source[|source| - 1])
    ensures I.NormalizeScope(Some(QueueScope(source, r))) == QueueScope(source, r)
    ensures I.Proper(operation, QueueScope(source, r))
  {
    var scope, path := QueueScope(source, r), source + r;
    assert |scope| == 4 + |path| && scope[0] == 'S' && scope[|scope| - 1] == path[|path| - 1];
    I.NormalizedScope(scope);
    QueuePath("SQS", path, operation);
  }

  lemma IngestClaim(r: RequestId, origin: Origin)
    requires FromMessage(origin) && PlainId(r)
    ensures var q := IngestRequest(r, origin);
            I.NormalizeScope(q.scope) == q.scope.GetOr("") && I.Proper(q.operation, I.NormalizeScope(q.scope))
  {
    match origin
    case Evaluation(_) =>
      QueueIsProper("/rescue-prioritization-evaluated/", r, "IngestRescueRequestEvaluatedEvent");
    case Mission(_, _, _) =>
      QueueIsProper("/mission-status-changed/", r, "IngestMissionStatusChangedEvent");
    case _ =>
  }

  lemma SameQueueScope(source: string, r: RequestId, r': RequestId)
    ensures QueueScope(source, r) == QueueScope(source, r') <==> r == r'
  {
    I.Cancel("SQS" + [':'], source + r, source + r');
    I.Cancel(source, r, r');
  }

  /** Messages about two requests never share a key, nor do an evaluation and a
      mission message. */
  lemma IngestKeysApart(r: RequestId, origin: Origin, r': RequestId, origin': Origin)
    requires FromMessage(origin) && FromMessage(origin') && PlainId(r) && PlainId(r')
    requires IngestKey(r, origin).key == IngestKey(r', origin').key
    ensures r == r' && (origin.Evaluation? <==> origin'.Evaluation?)
  {
    IngestClaim(r, origin);
    IngestClaim(r', origin');
    I.KeysAgreeIff(IngestRequest(r, origin), IngestRequest(r', origin'));
    SameQueueScope("/rescue-prioritization-evaluated/", r, r');
    SameQueueScope("/mission-status-changed/", r, r');
  }

  /** What validation lets through. */
  ghost predicate Validated(origin: Origin) {
    || origin.Evaluation?
    || (origin.Mission? && ChangedAtOk(origin.changedAt) && exists p :: origin.missionStatus == ProgressText(p))
  }

  /** So one record stands for one message: two share it exactly if they are about
      one request and are the same evaluation or the same progress of a mission. */
  lemma IngestKeysAgreeIff(r: RequestId, origin: Origin, r': RequestId, origin': Origin)
    requires Validated(origin) && Validated(origin') && PlainId(r) && PlainId(r')
    ensures IngestKey(r, origin).key == IngestKey(r', origin').key <==> r == r' && origin == origin'
  {
    if IngestKey(r, origin).key == IngestKey(r', origin').key {
      IngestKeysApart(r, origin, r', origin');
      if origin.Evaluation? {
        EvaluationKeysAgreeIff(r, origin.evaluateId, origin'.evaluateId);
      } else {
        var p :| origin.missionStatus == ProgressText(p);
        var p' :| origin'.missionStatus == ProgressText(p');
        MissionKeysAgreeIff(r, origin.missionId, p, origin.changedAt, origin'.missionId, p', origin'.changedAt);
      }
    }
  }

  // ----- the machine

  datatype Attempt = Reserving(lag: nat) | Reclaiming(expected: nat, lag: nat) | Retrying(lag: nat)

  /** Where one delivery stands between its reservation and its finalize. */
  datatype Phase = Working | Committed | Skipped | Refreshed | Broken

  datatype Job = Job(r: RequestId, call: Call, phase: Phase)

  /** `forgotten` is bookkeeping: effects on r whose key no longer, or never,
      recorded them. */
  datatype System = System(
    key: Keying, proto: I.Proto, world: World, jobs: map<I.Owner, Job>, forgotten: multiset<(RequestId, string)>)

  function Begin(key: Keying): System {
    System(key, I.START, EMPTY, map[], multiset{})
  }

  datatype Step =
    | Other(act: Act)                                       // staff, citizens, create
    | Tick(d: nat)
    | Expire(key: string)                                   // TTL deletion
    | Start(r: RequestId, call: Call, fingerprint: string, attempt: Attempt)
    | Execute(o: I.Owner, snap: Option<Current>, f: Fresh)  // read, decide, write
    | Raise(o: I.Owner)                                     // a failure before anything was written
    | Finish(o: I.Owner)
    | FinishRaises(o: I.Owner)                              // finalize_success fails, finalize_failure runs
    | Die(o: I.Owner)                                       // crash or timeout of the delivery

  function JobKey(key: Keying, j: Job): string {
    if IsIngest(j.call) then key(j.r, OriginOf(j.call)).key else ""
  }

  function ClaimFor(key: Keying, r: RequestId, call: Call, fingerprint: string): I.Claim
    requires IsIngest(call)
  {
    key(r, OriginOf(call)).(fingerprint := fingerprint)
  }

  function ProtoStep(claim: I.Claim, a: Attempt): I.Step {
    match a
    case Reserving(lag) => I.TryReserve(claim, lag)
    case Reclaiming(expected, lag) => I.TryReclaim(claim, expected, lag)
    case Retrying(lag) => I.TryRetryFailed(claim, lag)
  }

  /** The status field of the stored result body, which is all that is modelled of it. */
  const UPDATED := "updated"

  function AfterDecision(st: Store, r: RequestId, d: Decision): Phase {
    match d
    case Fail(_) => Broken
    case Skip => Skipped
    case WriteFields(_, _) => if Commit(st, r, d).Some? then Refreshed else Broken
    case Append(_, _, _) => if Commit(st, r, d).Some? then Committed else Broken
  }

  /** The record for k says that a delivery about r appended an event. */
  predicate RecordsUpdate(t: I.Records, r: RequestId, k: string) {
    k in t && t[k].status == I.Completed
    && t[k].response.Some? && t[k].response.value.body == UPDATED && t[k].response.value.resource == Some(r)
  }

  function Forget(s: System, j: Job): multiset<(RequestId, string)> {
    if j.phase == Committed then s.forgotten + multiset{(j.r, JobKey(s.key, j))} else s.forgotten
  }

  function AnswerOf(j: Job): I.Verdict {
    match j.phase
    case Committed => I.Success(I.Response(200, UPDATED, Some(j.r)))
    case Skipped => I.Success(I.Response(200, "skipped_terminal", Some(j.r)))
    case Refreshed => I.Success(I.Response(200, "metadata_updated", Some(j.r)))
    case _ => I.Failure("failed")
  }

  predicate OtherEnabled(s: System, act: Act) {
    Enabled(s.world, act) && ClockOk(act) && (act.Do? ==> !IsIngest(act.call))
  }

  function AfterOther(s: System, act: Act): System {
    if OtherEnabled(s, act) then s.(world := EventLog.Step(s.world, act)) else s
  }

  /** Whose effect the record for a key remembers. */
  function Remembered(t: I.Records, key: string): Option<RequestId> {
    if key in t && t[key].response.Some? && t[key].response.value.resource.Some?
       && RecordsUpdate(t, t[key].response.value.resource.value, key)
    then t[key].response.value.resource else None
  }

  function AfterExpire(s: System, key: string): System {
    var proto := I.Apply(s.proto, I.Expire(key));
    var lost := if key in proto.records then None else Remembered(s.proto.records, key);
    s.(proto := proto, forgotten := if lost.Some? then s.forgotten + multiset{(lost.value, key)} else s.forgotten)
  }

  function AfterStart(s: System, r: RequestId, call: Call, fingerprint: string, attempt: Attempt): System {
    if !IsIngest(call) || !ValidCall(call) then s
    else
      var proto := I.Apply(s.proto, ProtoStep(ClaimFor(s.key, r, call, fingerprint), attempt));
      if proto.next == s.proto.next then s
      else s.(proto := proto, jobs := s.jobs[s.proto.next := Job(r, call, Working)])
  }

  predicate CanExecute(s: System, o: I.Owner, snap: Option<Current>, f: Fresh) {
    o in s.jobs && s.jobs[o].phase == Working && Readable(s.world, s.jobs[o].r, snap) && f.now != ""
  }

  function AfterExecute(s: System, o: I.Owner, snap: Option<Current>, f: Fresh): System {
    if !CanExecute(s, o, snap, f) then s
    else
      var j := s.jobs[o];
      var d := Decide(snap, j.call, f);
      s.(world := Write(s.world, j.r, d), jobs := s.jobs[o := j.(phase := AfterDecision(s.world.store, j.r, d))])
  }

  function AfterRaise(s: System, o: I.Owner): System {
    if o in s.jobs && s.jobs[o].phase == Working then s.(jobs := s.jobs[o := s.jobs[o].(phase := Broken)]) else s
  }

  predicate CanFinish(s: System, o: I.Owner) {
    o in s.jobs && s.jobs[o].phase != Working && o in s.proto.grants
  }

  /** The job ends with this verdict for its record. */
  function Ended(s: System, o: I.Owner, v: I.Verdict, forgotten: multiset<(RequestId, string)>): System {
    s.(proto := I.Apply(s.proto, I.TryFinalize(o, v)), jobs := s.jobs - {o}, forgotten := forgotten)
  }

  predicate Stores(s: System, o: I.Owner, v: I.Verdict) {
    o in s.proto.grants && I.Finalize(s.proto.records, s.proto.grants[o].key, o, v).Some?
  }

  function AfterFinish(s: System, o: I.Owner): System {
    if !CanFinish(s, o) then s
    else
      var j := s.jobs[o];
      Ended(s, o, AnswerOf(j), if Stores(s, o, AnswerOf(j)) then s.forgotten else Forget(s, j))
  }

  function AfterFinishRaises(s: System, o: I.Owner): System {
    if !CanFinish(s, o) then s else Ended(s, o, I.Failure("failed"), Forget(s, s.jobs[o]))
  }

  function AfterDie(s: System, o: I.Owner): System {
    if o !in s.jobs then s
    else s.(proto := I.Apply(s.proto, I.Crash(o)), jobs := s.jobs - {o}, forgotten := Forget(s, s.jobs[o]))
  }

  function Advance(s: System, step: Step): System {
    match step
    case Other(act) => AfterOther(s, act)
    case Tick(d) => s.(proto := I.Apply(s.proto, I.Tick(d)))
    case Expire(key) => AfterExpire(s, key)
    case Start(r, call, fingerprint, attempt) => AfterStart(s, r, call, fingerprint, attempt)
    case Execute(o, snap, f) => AfterExecute(s, o, snap, f)
    case Raise(o) => AfterRaise(s, o)
    case Finish(o) => AfterFinish(s, o)
    case FinishRaises(o) => AfterFinishRaises(s, o)
    case Die(o) => AfterDie(s, o)
  }

  function AdvanceAll(s: System, steps: seq<Step>): System
    decreases |steps|
  {
    if steps == [] then s else AdvanceAll(Advance(s, steps[0]), steps[1..])
  }

  // ----- counting effects

  predicate IsEffect(key: Keying, ev: Event, r: RequestId, k: string) {
    FromMessage(ev.origin) && key(r, ev.origin).key == k
  }

  /** How many of the events 1..n of request r were appended under key k. */
  function CountKey(key: Keying, log: Log, n: nat, r: RequestId, k: string): nat {
    if n == 0 then 0
    else CountKey(key, log, n - 1, r, k) + if n in log && IsEffect(key, log[n], r, k) then 1 else 0
  }

  function Effects(key: Keying, w: World, r: RequestId, k: string): nat {
    if r in w.store.current then CountKey(key, EventsOf(w.store, r), w.store.current[r].stateVersion.GetOr(0), r, k)
    else 0
  }

  /** The job has appended an event to r under k that is not on record yet. */
  predicate Counts(key: Keying, j: Job, r: RequestId, k: string) {
    j.phase == Committed && j.r == r && JobKey(key, j) == k
  }

  function Pending(key: Keying, jobs: map<I.Owner, Job>, r: RequestId, k: string): set<I.Owner> {
    set o | o in jobs && Counts(key, jobs[o], r, k)
  }

  function One(b: bool): nat {
    if b then 1 else 0
  }

  function Completed(t: I.Records, r: RequestId, k: string): nat {
    One(RecordsUpdate(t, r, k))
  }

  /** The law of conservation of effects. */
  ghost predicate Balanced(s: System, r: RequestId, k: string) {
    Effects(s.key, s.world, r, k)
    == |Pending(s.key, s.jobs, r, k)| + s.forgotten[(r, k)] + Completed(s.proto.records, r, k)
  }

  ghost predicate JobOk(s: System, o: I.Owner)
    requires o in s.jobs
  {
    o in s.proto.grants && s.proto.grants[o].key == JobKey(s.key, s.jobs[o])
    && IsIngest(s.jobs[o].call) && ValidCall(s.jobs[o].call)
  }

  ghost predicate JobsOk(s: System) {
    s.proto.grants.Keys == s.jobs.Keys && forall o :: o in s.jobs ==> JobOk(s, o)
  }

  ghost predicate Structure(s: System) {
    Inv(s.world) && I.ProtoOk(s.proto) && JobsOk(s)
  }

  lemma {:induction false} CountKeyAgrees(key: Keying, log: Log, log': Log, n: nat, r: RequestId, k: string)
    requires forall v :: 1 <= v <= n ==> v in log && v in log' && log[v] == log'[v]
    ensures CountKey(key, log, n, r, k) == CountKey(key, log', n, r, k)
  {
    if n > 0 {
      CountKeyAgrees(key, log, log', n - 1, r, k);
    }
  }

  lemma AppendCountsOne(key: Keying, w: World, r: RequestId, d: Decision, k: string)
    requires Inv(w) && r in w.store.current && d.Append? && Commit(w.store, r, d).Some?
    requires w.store.current[r].stateVersion.Some? && d.event.version == w.store.current[r].stateVersion.value + 1
    requires d.update.stateVersion == Some(d.event.version)
    ensures Effects(key, Write(w, r, d), r, k) == Effects(key, w, r, k) + One(IsEffect(key, d.event, r, k))
  {
    assert RequestOk(w, r);
    var w' := Write(w, r, d);
    var n, log := w.store.current[r].stateVersion.value, EventsOf(w.store, r);
    assert d.event.version == n + 1 && EventsOf(w'.store, r) == log[n + 1 := d.event];
    assert w'.store.current[r].stateVersion == Some(n + 1);
    CountKeyAgrees(key, log, log[n + 1 := d.event], n, r, k);
  }

  /** The current version is the one an append that commits was planned for. */
  lemma PlannedForCurrent(w: World, r: RequestId, snap: Option<Current>, call: Call, f: Fresh)
    requires Inv(w) && Readable(w, r, snap) && ValidCall(call) && f.now != "" && r in w.store.current
    requires var d := Decide(snap, call, f); d.Append? && Commit(w.store, r, d).Some?
    ensures var d := Decide(snap, call, f);
            && w.store.current[r].stateVersion.Some? && d.event.version == w.store.current[r].stateVersion.value + 1
            && d.update.stateVersion == Some(d.event.version)
  {
    var _ := SnapshotAt(w, r, snap.value);
    AppendPlan(snap.value, call, f);
    assert RequestOk(w, r);
  }

  /** Another request's effects, and those of a write that appends nothing. */
  lemma NothingCounted(key: Keying, w: World, r: RequestId, d: Decision, q: RequestId, k: string)
    requires KeysAgree(w) && r in w.store.current && Commit(w.store, r, d).Some?
    requires q != r || (d.WriteFields? && forall c :: Patch(c, d.update).stateVersion == c.stateVersion)
    ensures Effects(key, Write(w, r, d), q, k) == Effects(key, w, q, k)
  {
    WriteTouchesOnly(w, r, d);
    if q != r && q in w.store.current {
      assert SameAt(w, Write(w, r, d), q);
    }
  }

  /** A committed append adds exactly its own effect. */
  lemma AppendCounts(key: Keying, w: World, r: RequestId, snap: Option<Current>, call: Call, f: Fresh, q: RequestId,
                     k: string)
    requires Inv(w) && Readable(w, r, snap) && ValidCall(call) && f.now != ""
    ensures var d := Decide(snap, call, f);
            Effects(key, Write(w, r, d), q, k)
            == Effects(key, w, q, k)
               + One(d.Append? && Commit(w.store, r, d).Some? && q == r && IsEffect(key, d.event, r, k))
  {
    var d := Decide(snap, call, f);
    if r !in w.store.current {
      NothingWrittenUnlessCreated(w, r, snap, call, f);
      assert d.Append? ==> snap.None?;
    } else if Commit(w.store, r, d).Some? {
      if q == r && d.Append? {
        PlannedForCurrent(w, r, snap, call, f);
        AppendCountsOne(key, w, r, d, k);
      } else {
        if d.WriteFields? {
          FieldsPlan(snap, call, f);
        }
        NothingCounted(key, w, r, d, q, k);
      }
    }
  }

  lemma EffectOfAppend(key: Keying, snap: Option<Current>, call: Call, f: Fresh, r: RequestId, k: string)
    requires Decide(snap, call, f).Append?
    ensures IsEffect(key, Decide(snap, call, f).event, r, k)
            <==> IsIngest(call) && key(r, OriginOf(call)).key == k
  {
  }

  lemma CreateCounts(key: Keying, w: World, id: RequestId, incidentId: string, f: Fresh, r: RequestId, k: string)
    requires KeysAgree(w) && id !in w.store.current
    ensures Effects(key, EventLog.Step(w, Create(id, incidentId, f)), r, k) == Effects(key, w, r, k)
  {
    var c, log := FirstCurrent(incidentId, f), map[1 := FirstEvent(f)];
    ReplacedTouchesOnly(w, id, c, log, [c]);
    if r == id {
      assert CountKey(key, log, 0, r, k) == 0 == CountKey(key, log, 1, r, k);
    } else if r in w.store.current {
      assert SameAt(w, Replaced(w, id, c, log, [c]), r);
    }
  }

  lemma OtherCounts(key: Keying, w: World, act: Act, r: RequestId, k: string)
    requires Inv(w) && Enabled(w, act) && ClockOk(act) && (act.Do? ==> !IsIngest(act.call))
    ensures Effects(key, EventLog.Step(w, act), r, k) == Effects(key, w, r, k)
  {
    match act
    case Create(id, incidentId, f) => CreateCounts(key, w, id, incidentId, f, r, k);
    case Do(q, snap, call, f) =>
      AppendCounts(key, w, q, snap, call, f, r, k);
      if Decide(snap, call, f).Append? {
        EffectOfAppend(key, snap, call, f, q, k);
      }
  }

  lemma OtherKeepsBalance(s: System, act: Act, r: RequestId, k: string)
    requires Structure(s) && Balanced(s, r, k)
    ensures Balanced(AfterOther(s, act), r, k)
  {
    if OtherEnabled(s, act) {
      OtherCounts(s.key, s.world, act, r, k);
    }
  }

  lemma PendingWith(key: Keying, jobs: map<I.Owner, Job>, o: I.Owner, j: Job, r: RequestId, k: string)
    requires o in jobs ==> jobs[o].phase != Committed
    ensures |Pending(key, jobs[o := j], r, k)| == |Pending(key, jobs, r, k)| + One(Counts(key, j, r, k))
  {
    var p := Pending(key, jobs, r, k);
    assert Pending(key, jobs[o := j], r, k) == if Counts(key, j, r, k) then p + {o} else p;
  }

  lemma PendingWithout(key: Keying, jobs: map<I.Owner, Job>, o: I.Owner, r: RequestId, k: string)
    requires o in jobs
    ensures |Pending(key, jobs - {o}, r, k)| == |Pending(key, jobs, r, k)| - One(Counts(key, jobs[o], r, k))
  {
    var p := Pending(key, jobs, r, k);
    assert Pending(key, jobs - {o}, r, k) == p - {o};
  }

  /** An execution has an effect exactly when it ends up committed. */
  lemma ExecuteCounts(key: Keying, w: World, j: Job, snap: Option<Current>, f: Fresh, r: RequestId, k: string)
    requires Inv(w) && Readable(w, j.r, snap) && IsIngest(j.call) && ValidCall(j.call) && f.now != ""
    ensures var d := Decide(snap, j.call, f);
            Effects(key, Write(w, j.r, d), r, k)
            == Effects(key, w, r, k) + One(Counts(key, j.(phase := AfterDecision(w.store, j.r, d)), r, k))
  {
    var d := Decide(snap, j.call, f);
    AppendCounts(key, w, j.r, snap, j.call, f, r, k);
    if d.Append? {
      EffectOfAppend(key, snap, j.call, f, j.r, k);
    }
  }

  lemma ExecuteKeepsBalance(s: System, o: I.Owner, snap: Option<Current>, f: Fresh, r: RequestId, k: string)
    requires Structure(s) && Balanced(s, r, k)
    ensures Balanced(AfterExecute(s, o, snap, f), r, k)
  {
    if CanExecute(s, o, snap, f) {
      var j := s.jobs[o];
      assert JobOk(s, o);
      ExecuteCounts(s.key, s.world, j, snap, f, r, k);
      PendingWith(s.key, s.jobs, o, j.(phase := AfterDecision(s.world.store, j.r, Decide(snap, j.call, f))), r, k);
    }
  }

  /** Taking a lock forgets nothing that was recorded. */
  lemma LockingRecordsNothing(p: I.Proto, claim: I.Claim, a: Attempt, r: RequestId, k: string)
    ensures Completed(I.Apply(p, ProtoStep(claim, a)).records, r, k) == Completed(p.records, r, k)
  {
  }

  lemma NextIsNew(s: System)
    requires Structure(s)
    ensures s.proto.next !in s.jobs
  {
    forall o | o in s.jobs ensures o < s.proto.next {
      assert JobOk(s, o) && I.GrantOk(s.proto, o);
    }
  }

  lemma StartKeepsBalance(s: System, q: RequestId, call: Call, fingerprint: string, attempt: Attempt, r: RequestId,
                          k: string)
    requires Structure(s) && Balanced(s, r, k)
    ensures Balanced(AfterStart(s, q, call, fingerprint, attempt), r, k)
  {
    if IsIngest(call) {
      LockingRecordsNothing(s.proto, ClaimFor(s.key, q, call, fingerprint), attempt, r, k);
      NextIsNew(s);
      PendingWith(s.key, s.jobs, s.proto.next, Job(q, call, Working), r, k);
    }
  }

  /** A finalize that takes effect turns one pending effect into a recorded one. */
  lemma FinalizeCounts(t: I.Records, o: I.Owner, j: Job, key: Keying, r: RequestId, k: string)
    requires I.Finalize(t, JobKey(key, j), o, AnswerOf(j)).Some?
    ensures Completed(I.Finalize(t, JobKey(key, j), o, AnswerOf(j)).value, r, k)
            == Completed(t, r, k) + One(Counts(key, j, r, k))
  {
  }

  /** Any other finalize leaves what the records remember as it was. */
  lemma FailureCountsNothing(t: I.Records, g: string, o: I.Owner, error: string, r: RequestId, k: string)
    ensures Completed(I.Finalize(t, g, o, I.Failure(error)).GetOr(t), r, k) == Completed(t, r, k)
  {
  }

  lemma FinishCounts(p: I.Proto, o: I.Owner, j: Job, key: Keying, r: RequestId, k: string)
    requires o in p.grants && p.grants[o].key == JobKey(key, j)
    ensures var stored := I.Finalize(p.records, p.grants[o].key, o, AnswerOf(j)).Some?;
            Completed(I.Apply(p, I.TryFinalize(o, AnswerOf(j))).records, r, k)
            == Completed(p.records, r, k) + One(stored && Counts(key, j, r, k))
  {
    if I.Finalize(p.records, p.grants[o].key, o, AnswerOf(j)).Some? {
      FinalizeCounts(p.records, o, j, key, r, k);
    }
  }

  lemma ForgetCounts(s: System, j: Job, r: RequestId, k: string)
    ensures Forget(s, j)[(r, k)] == s.forgotten[(r, k)] + One(Counts(s.key, j, r, k))
  {
  }

  /** When a job ends, what it had pending must be recorded or forgotten. */
  lemma EndKeepsBalance(s: System, s': System, o: I.Owner, r: RequestId, k: string)
    requires Balanced(s, r, k) && o in s.jobs
    requires s'.key == s.key && s'.world == s.world && s'.jobs == s.jobs - {o}
    requires s'.forgotten[(r, k)] + Completed(s'.proto.records, r, k)
             == s.forgotten[(r, k)] + Completed(s.proto.records, r, k) + One(Counts(s.key, s.jobs[o], r, k))
    ensures Balanced(s', r, k)
  {
    PendingWithout(s.key, s.jobs, o, r, k);
  }

  lemma FinishKeepsBalance(s: System, o: I.Owner, r: RequestId, k: string)
    requires Structure(s) && Balanced(s, r, k)
    ensures Balanced(AfterFinish(s, o), r, k)
  {
    if CanFinish(s, o) {
      var j := s.jobs[o];
      assert JobOk(s, o);
      FinishCounts(s.proto, o, j, s.key, r, k);
      ForgetCounts(s, j, r, k);
      EndKeepsBalance(s, AfterFinish(s, o), o, r, k);
    }
  }

  lemma FinishRaisesKeepsBalance(s: System, o: I.Owner, r: RequestId, k: string)
    requires Balanced(s, r, k)
    ensures Balanced(AfterFinishRaises(s, o), r, k)
  {
    if CanFinish(s, o) {
      ForgetCounts(s, s.jobs[o], r, k);
      FailureCountsNothing(s.proto.records, s.proto.grants[o].key, o, "failed", r, k);
      EndKeepsBalance(s, AfterFinishRaises(s, o), o, r, k);
    }
  }

  lemma DieKeepsBalance(s: System, o: I.Owner, r: RequestId, k: string)
    requires Balanced(s, r, k)
    ensures Balanced(AfterDie(s, o), r, k)
  {
    if o in s.jobs {
      ForgetCounts(s, s.jobs[o], r, k);
      EndKeepsBalance(s, AfterDie(s, o), o, r, k);
    }
  }

  lemma RaiseKeepsBalance(s: System, o: I.Owner, r: RequestId, k: string)
    requires Balanced(s, r, k)
    ensures Balanced(AfterRaise(s, o), r, k)
  {
    if o in s.jobs && s.jobs[o].phase == Working {
      PendingWith(s.key, s.jobs, o, s.jobs[o].(phase := Broken), r, k);
    }
  }

  lemma RememberedIs(t: I.Records, key: string, r: RequestId)
    ensures Remembered(t, key) == Some(r) <==> RecordsUpdate(t, r, key)
  {
  }

  /** What a record forgets when it is deleted is booked as forgotten. */
  lemma ExpireRemembers(s: System, key: string, r: RequestId, k: string)
    ensures var s' := AfterExpire(s, key);
            s'.forgotten[(r, k)] + Completed(s'.proto.records, r, k)
            == s.forgotten[(r, k)] + Completed(s.proto.records, r, k)
    ensures key != k ==> AfterExpire(s, key).forgotten[(r, k)] == s.forgotten[(r, k)]
  {
    RememberedIs(s.proto.records, key, r);
  }

  lemma ExpireKeepsBalance(s: System, key: string, r: RequestId, k: string)
    requires Balanced(s, r, k)
    ensures Balanced(AfterExpire(s, key), r, k)
  {
    ExpireRemembers(s, key, r, k);
  }

  lemma StepKeepsBalance(s: System, step: Step, r: RequestId, k: string)
    requires Structure(s) && Balanced(s, r, k)
    ensures Balanced(Advance(s, step), r, k)
  {
    match step
    case Other(act) => OtherKeepsBalance(s, act, r, k);
    case Tick(d) =>
    case Expire(key) => ExpireKeepsBalance(s, key, r, k);
    case Start(q, call, fingerprint, attempt) => StartKeepsBalance(s, q, call, fingerprint, attempt, r, k);
    case Execute(o, snap, f) => ExecuteKeepsBalance(s, o, snap, f, r, k);
    case Raise(o) => RaiseKeepsBalance(s, o, r, k);
    case Finish(o) => FinishKeepsBalance(s, o, r, k);
    case FinishRaises(o) => FinishRaisesKeepsBalance(s, o, r, k);
    case Die(o) => DieKeepsBalance(s, o, r, k);
  }

  // ----- what every step keeps

  lemma OtherKeepsWorld(s: System, act: Act)
    requires Inv(s.world)
    ensures Inv(AfterOther(s, act).world)
  {
    if OtherEnabled(s, act) {
      EventLog.StepKeepsInv(s.world, act);
    }
  }

  lemma ExecuteKeepsWorld(s: System, o: I.Owner, snap: Option<Current>, f: Fresh)
    requires Inv(s.world) && JobsOk(s)
    ensures Inv(AfterExecute(s, o, snap, f).world)
  {
    if CanExecute(s, o, snap, f) {
      assert JobOk(s, o);
      EventLog.StepKeepsInv(s.world, Do(s.jobs[o].r, snap, s.jobs[o].call, f));
    }
  }

  lemma JobLeaves(s: System, o: I.Owner, s': System)
    requires JobsOk(s) && s'.key == s.key
    requires s'.jobs == s.jobs - {o} && s'.proto.grants == s.proto.grants - {o}
    ensures JobsOk(s')
  {
    forall q | q in s'.jobs ensures JobOk(s', q) {
      assert JobOk(s, q);
    }
  }

  lemma JobMoves(s: System, o: I.Owner, phase: Phase, s': System)
    requires JobsOk(s) && s'.key == s.key && o in s.jobs
    requires s'.jobs == s.jobs[o := s.jobs[o].(phase := phase)] && s'.proto.grants == s.proto.grants
    ensures JobsOk(s')
  {
    assert s'.jobs.Keys == s.jobs.Keys;
    forall q | q in s'.jobs ensures JobOk(s', q) {
      assert JobOk(s, q);
    }
  }

  lemma JobArrives(s: System, r: RequestId, call: Call, g: I.Grant, s': System)
    requires JobsOk(s) && IsIngest(call) && ValidCall(call) && s'.key == s.key
    requires s'.jobs == s.jobs[s.proto.next := Job(r, call, Working)]
    requires s'.proto.grants == s.proto.grants[s.proto.next := g] && g.key == s.key(r, OriginOf(call)).key
    ensures JobsOk(s')
  {
    forall q | q in s'.jobs ensures JobOk(s', q) {
      if q != s.proto.next {
        assert JobOk(s, q);
      }
    }
  }

  lemma JobsIdle(s: System, s': System)
    requires JobsOk(s) && s'.key == s.key && s'.jobs == s.jobs && s'.proto.grants == s.proto.grants
    ensures JobsOk(s')
  {
    forall q | q in s'.jobs ensures JobOk(s', q) {
      assert JobOk(s, q);
    }
  }

  /** A step that takes the lock hands out exactly one grant, for its key. */
  lemma LockGrants(p: I.Proto, claim: I.Claim, a: Attempt)
    ensures var p' := I.Apply(p, ProtoStep(claim, a));
            p'.next == p.next
            || (p.next in p'.grants && p'.grants[p.next].key == claim.key
                && p'.grants == p.grants[p.next := p'.grants[p.next]])
  {
  }

  lemma StartKeepsJobs(s: System, r: RequestId, call: Call, fingerprint: string, attempt: Attempt)
    requires JobsOk(s)
    ensures JobsOk(AfterStart(s, r, call, fingerprint, attempt))
  {
    var s' := AfterStart(s, r, call, fingerprint, attempt);
    if s' != s {
      var claim := ClaimFor(s.key, r, call, fingerprint);
      LockGrants(s.proto, claim, attempt);
      JobArrives(s, r, call, s'.proto.grants[s.proto.next], s');
    }
  }

  lemma ExecuteKeepsJobs(s: System, o: I.Owner, snap: Option<Current>, f: Fresh)
    requires JobsOk(s)
    ensures JobsOk(AfterExecute(s, o, snap, f))
  {
    if CanExecute(s, o, snap, f) {
      var j := s.jobs[o];
      JobMoves(s, o, AfterDecision(s.world.store, j.r, Decide(snap, j.call, f)), AfterExecute(s, o, snap, f));
    }
  }

  lemma RaiseKeepsJobs(s: System, o: I.Owner)
    requires JobsOk(s)
    ensures JobsOk(AfterRaise(s, o))
  {
    if o in s.jobs && s.jobs[o].phase == Working {
      JobMoves(s, o, Broken, AfterRaise(s, o));
    }
  }

  lemma ClockKeepsJobs(s: System, d: nat, key: string)
    requires JobsOk(s)
    ensures JobsOk(Advance(s, Tick(d))) && JobsOk(AfterExpire(s, key))
  {
    JobsIdle(s, Advance(s, Tick(d)));
    JobsIdle(s, AfterExpire(s, key));
  }

  lemma EndKeepsJobs(s: System, o: I.Owner)
    requires JobsOk(s)
    ensures JobsOk(AfterFinish(s, o)) && JobsOk(AfterFinishRaises(s, o)) && JobsOk(AfterDie(s, o))
  {
    if o in s.jobs {
      JobLeaves(s, o, AfterDie(s, o));
      if CanFinish(s, o) {
        JobLeaves(s, o, AfterFinish(s, o));
        JobLeaves(s, o, AfterFinishRaises(s, o));
      }
    }
  }

  lemma StepKeepsJobs(s: System, step: Step)
    requires JobsOk(s)
    ensures JobsOk(Advance(s, step))
  {
    match step
    case Other(act) => JobsIdle(s, AfterOther(s, act));
    case Tick(d) => ClockKeepsJobs(s, d, "");
    case Expire(key) => ClockKeepsJobs(s, 0, key);
    case Start(r, call, fingerprint, attempt) => StartKeepsJobs(s, r, call, fingerprint, attempt);
    case Execute(o, snap, f) => ExecuteKeepsJobs(s, o, snap, f);
    case Raise(o) => RaiseKeepsJobs(s, o);
    case Finish(o) => EndKeepsJobs(s, o);
    case FinishRaises(o) => EndKeepsJobs(s, o);
    case Die(o) => EndKeepsJobs(s, o);
  }

  lemma StepKeepsWorld(s: System, step: Step)
    requires Inv(s.world) && JobsOk(s)
    ensures Inv(Advance(s, step).world)
  {
    match step
    case Other(act) => OtherKeepsWorld(s, act);
    case Execute(o, snap, f) => ExecuteKeepsWorld(s, o, snap, f);
    case _ =>
  }

  lemma StepKeepsLocks(s: System, step: Step)
    requires I.ProtoOk(s.proto)
    ensures I.ProtoOk(Advance(s, step).proto)
  {
    match step
    case Tick(d) => I.StepKeepsProto(s.proto, I.Tick(d));
    case Expire(key) => I.StepKeepsProto(s.proto, I.Expire(key));
    case Start(r, call, fingerprint, attempt) =>
      if IsIngest(call) {
        I.StepKeepsProto(s.proto, ProtoStep(ClaimFor(s.key, r, call, fingerprint), attempt));
      }
    case Finish(o) =>
      if o in s.jobs {
        I.StepKeepsProto(s.proto, I.TryFinalize(o, AnswerOf(s.jobs[o])));
      }
    case FinishRaises(o) => I.StepKeepsProto(s.proto, I.TryFinalize(o, I.Failure("failed")));
    case Die(o) => I.StepKeepsProto(s.proto, I.Crash(o));
    case _ =>
  }

  lemma StepKeepsStructure(s: System, step: Step)
    requires Structure(s)
    ensures Structure(Advance(s, step))
  {
    StepKeepsWorld(s, step);
    StepKeepsLocks(s, step);
    StepKeepsJobs(s, step);
  }

  lemma {:induction false} RunKeeps(s: System, steps: seq<Step>, r: RequestId, k: string)
    requires Structure(s) && Balanced(s, r, k)
    ensures Structure(AdvanceAll(s, steps)) && Balanced(AdvanceAll(s, steps), r, k)
    decreases |steps|
  {
    if steps != [] {
      StepKeepsStructure(s, steps[0]);
      StepKeepsBalance(s, steps[0], r, k);
      RunKeeps(Advance(s, steps[0]), steps[1..], r, k);
    }
  }

  lemma BeginsWell(key: Keying, r: RequestId, k: string)
    ensures Structure(Begin(key)) && Balanced(Begin(key), r, k)
  {
    assert Pending(key, Begin(key).jobs, r, k) == {};
  }

  /** In every run, whatever crashes, overruns, redelivers or expires: the events
      a key appended to a request are exactly those still in flight, plus those
      its record remembers, plus those that were forgotten. */
  lemma EffectsAreConserved(key: Keying, steps: seq<Step>, r: RequestId, k: string)
    ensures var s := AdvanceAll(Begin(key), steps);
            Effects(s.key, s.world, r, k)
            == |Pending(s.key, s.jobs, r, k)| + s.forgotten[(r, k)] + Completed(s.proto.records, r, k)
  {
    BeginsWell(key, r, k);
    RunKeeps(Begin(key), steps, r, k);
  }

  // ----- at most one effect

  /** Every delivery under key k that is still at work holds an unexpired lock. */
  ghost predicate Timely(s: System, k: string) {
    forall o :: o in s.jobs && JobKey(s.key, s.jobs[o]) == k ==>
      o in s.proto.grants && s.proto.grants[o].lockExpiresAt > s.proto.clock
  }

  /** Every delivery under k that is still at work took its lock at most 30 seconds
      ago, which is how long the functions may run. */
  ghost predicate Young(s: System, k: string) {
    forall o :: o in s.jobs && JobKey(s.key, s.jobs[o]) == k ==>
      o in s.proto.grants && s.proto.clock <= s.proto.grants[o].lockExpiresAt - I.LOCK_TIMEOUT + 30 * I.MICROS
  }

  /** So such deliveries are always in time. */
  lemma YoungIsTimely(s: System, k: string)
    requires Young(s, k)
    ensures Timely(s, k)
  {
  }

  /** Of the deliveries under k, only the one that the record names is at work. */
  lemma OnePending(s: System, r: RequestId, k: string)
    requires Structure(s) && Timely(s, k)
    ensures |Pending(s.key, s.jobs, r, k)| + Completed(s.proto.records, r, k) <= 1
  {
    var p := Pending(s.key, s.jobs, r, k);
    forall o | o in p
      ensures k in s.proto.records && s.proto.records[k].status == I.InProgress && s.proto.records[k].lockOwner == o
    {
      assert JobOk(s, o) && I.GrantOk(s.proto, o);
    }
    if p != {} {
      var o :| o in p;
      assert p == {o};
    }
  }

  /** Deliveries that end before their lock does, none lost between commit and
      finalize: any number of them appends at most one event, and exactly one
      once the record says so. */
  lemma AtMostOneEffect(key: Keying, steps: seq<Step>, r: RequestId, k: string)
    requires var s := AdvanceAll(Begin(key), steps); Timely(s, k) && s.forgotten[(r, k)] == 0
    ensures var s := AdvanceAll(Begin(key), steps);
            && Effects(s.key, s.world, r, k) <= 1
            && (RecordsUpdate(s.proto.records, r, k) ==> Effects(s.key, s.world, r, k) == 1)
  {
    BeginsWell(key, r, k);
    RunKeeps(Begin(key), steps, r, k);
    OnePending(AdvanceAll(Begin(key), steps), r, k);
  }

  /** The delivery has appended its event, and its record does not say so yet. */
  predicate Unrecorded(s: System, o: I.Owner, k: string) {
    o in s.jobs && s.jobs[o].phase == Committed && JobKey(s.key, s.jobs[o]) == k
  }

  /** No delivery under k is lost between its commit and its finalize, and the
      record is not deleted. */
  predicate Careful(s: System, step: Step, k: string) {
    match step
    case Die(o) => !Unrecorded(s, o, k)
    case FinishRaises(o) => !Unrecorded(s, o, k)
    case Expire(key) => key != k
    case _ => true
  }

  ghost predicate CleanRun(s: System, steps: seq<Step>, k: string)
    decreases |steps|
  {
    Timely(s, k)
    && (steps != [] ==> Careful(s, steps[0], k) && CleanRun(Advance(s, steps[0]), steps[1..], k))
  }

  /** Whoever still holds its lock can finalize, so nothing is forgotten. */
  lemma FinishForgetsNothing(s: System, o: I.Owner, r: RequestId, k: string)
    requires Structure(s) && Timely(s, k)
    ensures AfterFinish(s, o).forgotten[(r, k)] == s.forgotten[(r, k)]
  {
    if CanFinish(s, o) {
      assert JobOk(s, o) && I.GrantOk(s.proto, o);
      ForgetCounts(s, s.jobs[o], r, k);
    }
  }

  lemma CarefulForgetsNothing(s: System, step: Step, r: RequestId, k: string)
    requires Structure(s) && Timely(s, k) && Careful(s, step, k)
    ensures Advance(s, step).forgotten[(r, k)] == s.forgotten[(r, k)]
  {
    match step
    case Finish(o) => FinishForgetsNothing(s, o, r, k);
    case Expire(key) => ExpireRemembers(s, key, r, k);
    case FinishRaises(o) =>
      if o in s.jobs {
        ForgetCounts(s, s.jobs[o], r, k);
      }
    case Die(o) =>
      if o in s.jobs {
        ForgetCounts(s, s.jobs[o], r, k);
      }
    case _ =>
  }

  lemma {:induction false} CleanRunForgetsNothing(s: System, steps: seq<Step>, r: RequestId, k: string)
    requires Structure(s) && CleanRun(s, steps, k)
    ensures Timely(AdvanceAll(s, steps), k)
    ensures AdvanceAll(s, steps).forgotten[(r, k)] == s.forgotten[(r, k)]
    decreases |steps|
  {
    if steps != [] {
      CarefulForgetsNothing(s, steps[0], r, k);
      StepKeepsStructure(s, steps[0]);
      CleanRunForgetsNothing(Advance(s, steps[0]), steps[1..], r, k);
    }
  }

  /** In a run whose deliveries under k all end in time and none of which dies
      between commit and finalize, they append at most one event, however many
      they are, and exactly one once the record says "updated". */
  lemma AtMostOneEffectInCleanRuns(key: Keying, steps: seq<Step>, r: RequestId, k: string)
    requires CleanRun(Begin(key), steps, k)
    ensures var s := AdvanceAll(Begin(key), steps);
            && Effects(s.key, s.world, r, k) <= 1
            && (RecordsUpdate(s.proto.records, r, k) ==> Effects(s.key, s.world, r, k) == 1)
  {
    CleanRunForgetsNothing(Begin(key), steps, r, k);
    AtMostOneEffect(key, steps, r, k);
  }

  lemma {:induction false} OneEventOneEffect(key: Keying, log: Log, n: nat, r: RequestId, k: string, v: nat)
    requires 1 <= v <= n && v in log && IsEffect(key, log[v], r, k)
    ensures CountKey(key, log, n, r, k) >= 1
  {
    if n > v {
      OneEventOneEffect(key, log, n - 1, r, k, v);
    }
  }

  lemma {:induction false} TwoEventsTwoEffects(key: Keying, log: Log, n: nat, r: RequestId, k: string, v1: nat, v2: nat)
    requires 1 <= v1 < v2 <= n && v1 in log && v2 in log
    requires IsEffect(key, log[v1], r, k) && IsEffect(key, log[v2], r, k)
    ensures CountKey(key, log, n, r, k) >= 2
  {
    if n > v2 {
      TwoEventsTwoEffects(key, log, n - 1, r, k, v1, v2);
    } else {
      OneEventOneEffect(key, log, n - 1, r, k, v1);
    }
  }

  lemma OneEffectOneEvent(key: Keying, log: Log, n: nat, r: RequestId, k: string, v1: nat, v2: nat)
    requires LogOk(log, n) && v1 in log && v2 in log && IsEffect(key, log[v1], r, k) && IsEffect(key, log[v2], r, k)
    requires CountKey(key, log, n, r, k) <= 1
    ensures v1 == v2
  {
    if v1 < v2 {
      TwoEventsTwoEffects(key, log, n, r, k, v1, v2);
    } else if v2 < v1 {
      TwoEventsTwoEffects(key, log, n, r, k, v2, v1);
    }
  }

  lemma {:induction false} KeyStays(s: System, steps: seq<Step>)
    ensures AdvanceAll(s, steps).key == s.key
    decreases |steps|
  {
    if steps != [] {
      KeyStays(Advance(s, steps[0]), steps[1..]);
    }
  }

  lemma {:induction false} RunKeepsMissionsToo(s: System, steps: seq<Step>)
    requires MissionsOk(s.world)
    ensures MissionsOk(AdvanceAll(s, steps).world)
    decreases |steps|
  {
    if steps != [] {
      match steps[0] {
        case Other(act) => StepKeepsMissions(s.world, act);
        case Execute(o, snap, f) =>
          if o in s.jobs {
            StepKeepsMissions(s.world, Do(s.jobs[o].r, snap, s.jobs[o].call, f));
          }
        case _ =>
      }
      RunKeepsMissionsToo(Advance(s, steps[0]), steps[1..]);
    }
  }

  /** Whatever crashes, overruns, expires or is redelivered: no two events of a
      request stem from one mission message, nor from two of one mission status. */
  lemma OneEventPerMission(key: Keying, steps: seq<Step>, r: RequestId, v1: nat, v2: nat)
    requires var log := EventsOf(AdvanceAll(Begin(key), steps).world.store, r);
             && v1 in log && v2 in log && log[v1].origin.Mission? && log[v2].origin.Mission?
             && log[v1].origin.missionStatus == log[v2].origin.missionStatus
    ensures v1 == v2
  {
    var w := AdvanceAll(Begin(key), steps).world;
    BeginsWell(key, r, "");
    RunKeeps(Begin(key), steps, r, "");
    RunKeepsMissionsToo(Begin(key), steps);
    assert RequestOk(w, r);
    OneMissionEvent(EventsOf(w.store, r), w.store.current[r].stateVersion.value, v1, v2);
  }

  /** In the log's own terms: no two events of a request stem from one evaluation
      whose deliveries ended in time and left nothing forgotten. */
  lemma OneEventPerEvaluation(key: Keying, steps: seq<Step>, r: RequestId, evaluateId: string, v1: nat, v2: nat)
    requires var s, origin := AdvanceAll(Begin(key), steps), Evaluation(evaluateId);
             var k, log := key(r, origin).key, EventsOf(s.world.store, r);
             && Timely(s, k) && s.forgotten[(r, k)] == 0
             && v1 in log && log[v1].origin == origin && v2 in log && log[v2].origin == origin
    ensures v1 == v2
  {
    var s, k := AdvanceAll(Begin(key), steps), key(r, Evaluation(evaluateId)).key;
    BeginsWell(key, r, k);
    RunKeeps(Begin(key), steps, r, k);
    AtMostOneEffect(key, steps, r, k);
    KeyStays(Begin(key), steps);
    assert RequestOk(s.world, r);
    OneEffectOneEvent(key, EventsOf(s.world.store, r), s.world.store.current[r].stateVersion.value, r, k, v1, v2);
  }

  /** Both, under the keys the service really uses. */
  lemma OneEventPerMessageUnderIngestKey(steps: seq<Step>, r: RequestId, origin: Origin, v1: nat, v2: nat)
    requires FromMessage(origin)
    requires var s, k := AdvanceAll(Begin(IngestKey), steps), IngestKey(r, origin).key;
             var log := EventsOf(s.world.store, r);
             && (origin.Evaluation? ==> Timely(s, k) && s.forgotten[(r, k)] == 0)
             && v1 in log && log[v1].origin == origin && v2 in log && log[v2].origin == origin
    ensures v1 == v2
  {
    if origin.Mission? {
      OneEventPerMission(IngestKey, steps, r, v1, v2);
    } else {
      OneEventPerEvaluation(IngestKey, steps, r, origin.evaluateId, v1, v2);
    }
  }

  // ----- when the premise fails

  /** A delivery dies between its commit and its finalize, its lock runs out,
      and the same message is delivered again. */
  function Redeliver(s: System, o: I.Owner, expiry: nat, fingerprint: string): System
    requires o in s.jobs
  {
    var dead := AfterDie(s, o);
    var later := Advance(dead, Tick(expiry));
    AfterStart(later, s.jobs[o].r, s.jobs[o].call, fingerprint, Reclaiming(expiry, 0))
  }

  /** The record that delivery o was given is still in progress for its message. */
  predicate InProgressFor(s: System, o: I.Owner, fingerprint: string)
    requires o in s.jobs
  {
    var j, k := s.jobs[o], JobKey(s.key, s.jobs[o]);
    && IsIngest(j.call) && k in s.proto.records && s.proto.records[k].status == I.InProgress
    && I.SameRequest(s.proto.records[k], ClaimFor(s.key, j.r, j.call, fingerprint))
  }

  function ExpiryOf(s: System, o: I.Owner): nat
    requires o in s.jobs
  {
    var k := JobKey(s.key, s.jobs[o]);
    if k in s.proto.records then s.proto.records[k].lockExpiresAt else 0
  }

  /** Once the clock has passed the lock's end, the reclaim goes through. */
  lemma ReclaimGoesThrough(p: I.Proto, claim: I.Claim)
    requires claim.key in p.records && p.records[claim.key].status == I.InProgress
    requires I.SameRequest(p.records[claim.key], claim) && p.records[claim.key].lockExpiresAt <= p.clock
    ensures I.Apply(p, I.TryReclaim(claim, p.records[claim.key].lockExpiresAt, 0)).next == p.next + 1
  {
  }

  /** Nothing has changed by then but the clock and the death of the delivery. */
  lemma LockRunsOut(s: System, o: I.Owner, fingerprint: string)
    requires o in s.jobs && JobOk(s, o) && InProgressFor(s, o, fingerprint)
    ensures var later := Advance(AfterDie(s, o), Tick(ExpiryOf(s, o)));
            var claim := ClaimFor(s.key, s.jobs[o].r, s.jobs[o].call, fingerprint);
            && later.key == s.key && later.world == s.world && later.proto.next == s.proto.next
            && claim.key in later.proto.records && later.proto.records[claim.key] == s.proto.records[claim.key]
            && ExpiryOf(s, o) == later.proto.records[claim.key].lockExpiresAt <= later.proto.clock
  {
  }

  lemma StartedAfresh(s: System, r: RequestId, call: Call, fingerprint: string, attempt: Attempt)
    requires IsIngest(call) && ValidCall(call)
    requires I.Apply(s.proto, ProtoStep(ClaimFor(s.key, r, call, fingerprint), attempt)).next == s.proto.next + 1
    ensures var s' := AfterStart(s, r, call, fingerprint, attempt);
            && s'.world == s.world && s'.key == s.key
            && s.proto.next in s'.jobs && s'.jobs[s.proto.next] == Job(r, call, Working)
  {
  }

  lemma RedeliveryIsAdmitted(s: System, o: I.Owner, fingerprint: string)
    requires Structure(s) && o in s.jobs && InProgressFor(s, o, fingerprint)
    ensures var s' := Redeliver(s, o, ExpiryOf(s, o), fingerprint);
            && s'.world == s.world && s'.key == s.key
            && s.proto.next in s'.jobs && s'.jobs[s.proto.next] == Job(s.jobs[o].r, s.jobs[o].call, Working)
  {
    assert JobOk(s, o);
    LockRunsOut(s, o, fingerprint);
    var j, later := s.jobs[o], Advance(AfterDie(s, o), Tick(ExpiryOf(s, o)));
    ReclaimGoesThrough(later.proto, ClaimFor(s.key, j.r, j.call, fingerprint));
    StartedAfresh(later, j.r, j.call, fingerprint, Reclaiming(ExpiryOf(s, o), 0));
  }

  /** The evaluation matches the data the request now has, and is not too late. */
  predicate Applies(c: Current, call: Call)
    requires call.Evaluate?
  {
    !IsTerminal(c.status) && c.prioritySourceEventId == Some(call.correlationId)
  }

  /** An evaluation that reads the CURRENT of a request has its effect exactly if
      it applies to it. */
  lemma EvaluationOfCurrentCounts(key: Keying, w: World, r: RequestId, call: Call, f: Fresh)
    requires Inv(w) && r in w.store.current && call.Evaluate? && ValidCall(call) && f.now != ""
    ensures var c, k := w.store.current[r], key(r, OriginOf(call)).key;
            && c in PastOf(w, r)
            && Effects(key, Write(w, r, Decide(Some(c), call, f)), r, k)
               == Effects(key, w, r, k) + One(Applies(c, call))
  {
    var c, k := w.store.current[r], key(r, OriginOf(call)).key;
    assert RequestOk(w, r);
    assert PastOf(w, r)[|PastOf(w, r)| - 1] == c;
    AppendCounts(key, w, r, Some(c), call, f, r, k);
    if Applies(c, call) {
      CommitsExactlyWhenCurrent(w, r, c, call, f);
      EffectOfAppend(key, Some(c), call, f, r, k);
    }
  }

  /** The exception is real: when a delivery dies between its commit and its
      finalize, waiting for the lock to run out and delivering the same
      evaluation again appends a second event exactly if the request is still
      open and still waits for that evaluation. */
  lemma LostFinalizeDuplicates(s: System, o: I.Owner, fingerprint: string, f: Fresh)
    requires Structure(s) && o in s.jobs && s.jobs[o].phase == Committed && s.jobs[o].call.Evaluate? && f.now != ""
    requires s.jobs[o].r in s.world.store.current && InProgressFor(s, o, fingerprint)
    ensures var j, k := s.jobs[o], JobKey(s.key, s.jobs[o]);
            var c := s.world.store.current[j.r];
            var s3 := Redeliver(s, o, ExpiryOf(s, o), fingerprint);
            var s4 := AfterExecute(s3, s.proto.next, Some(c), f);
            Effects(s.key, s4.world, j.r, k) == Effects(s.key, s.world, j.r, k) + One(Applies(c, j.call))
  {
    RedeliveryIsAdmitted(s, o, fingerprint);
    assert JobOk(s, o);
    EvaluationOfCurrentCounts(s.key, s.world, s.jobs[o].r, s.jobs[o].call, f);
  }

  /** A request just created whose priority data has just been published. */
  function Published(r: RequestId, incidentId: string, source: string, f: Fresh): World {
    EventLog.Step(EventLog.Step(EMPTY, Create(r, incidentId, f)),
                  Do(r, None, Source(source, "rescue-request-created", f.now), f))
  }

  lemma PublishedIsOpen(r: RequestId, incidentId: string, source: string, f: Fresh)
    requires source != "" && f.now != ""
    ensures var w := Published(r, incidentId, source, f);
            && Inv(w) && r in w.store.current
            && w.store.current[r].status == SUBMITTED && w.store.current[r].prioritySourceEventId == Some(source)
  {
    var create := Create(r, incidentId, f);
    EventLog.StepKeepsInv(EMPTY, create);
    EventLog.StepKeepsInv(EventLog.Step(EMPTY, create),
                          Do(r, None, Source(source, "rescue-request-created", f.now), f));
  }

  /** The run up to the commit of the first delivery. */
  function FirstDelivery(key: Keying, r: RequestId, incidentId: string, call: Call, fingerprint: string, f: Fresh)
    : seq<Step>
    requires call.Evaluate?
  {
    var w := Published(r, incidentId, call.correlationId, f);
    [Other(Create(r, incidentId, f)),
     Other(Do(r, None, Source(call.correlationId, "rescue-request-created", f.now), f)),
     Start(r, call, fingerprint, Reserving(0)),
     Execute(0, Get(w.store.current, r), f)]
  }

  lemma AdvanceCons(s: System, step: Step, rest: seq<Step>)
    ensures AdvanceAll(s, [step] + rest) == AdvanceAll(Advance(s, step), rest)
  {
    assert ([step] + rest)[1..] == rest;
  }

  lemma AdvanceFour(s: System, a: Step, b: Step, c: Step, d: Step)
    ensures AdvanceAll(s, [a, b, c, d]) == Advance(Advance(Advance(Advance(s, a), b), c), d)
  {
    assert [a, b, c, d] == [a] + [b, c, d] && [b, c, d] == [b] + [c, d] && [c, d] == [c] + [d] && [d] == [d] + [];
    AdvanceCons(s, a, [b, c, d]);
    AdvanceCons(Advance(s, a), b, [c, d]);
    AdvanceCons(Advance(Advance(s, a), b), c, [d]);
    AdvanceCons(Advance(Advance(Advance(s, a), b), c), d, []);
  }

  lemma NothingCountedYet(key: Keying, r: RequestId, incidentId: string, source: string, f: Fresh, k: string)
    requires source != "" && f.now != ""
    ensures Effects(key, Published(r, incidentId, source, f), r, k) == 0
  {
    var create, publish := Create(r, incidentId, f), Do(r, None, Source(source, "rescue-request-created", f.now), f);
    EventLog.StepKeepsInv(EMPTY, create);
    OtherCounts(key, EMPTY, create, r, k);
    OtherCounts(key, EventLog.Step(EMPTY, create), publish, r, k);
  }

  /** The first delivery reserves its key in an empty table. */
  lemma FirstReservation(s: System, r: RequestId, call: Call, fingerprint: string)
    requires s.proto == I.START && s.jobs == map[] && call.Evaluate? && ValidCall(call)
    ensures var s', claim := AfterStart(s, r, call, fingerprint, Reserving(0)), ClaimFor(s.key, r, call, fingerprint);
            && s'.key == s.key && s'.world == s.world && s'.jobs == map[0 := Job(r, call, Working)]
            && s'.proto.records == map[claim.key := I.NewRecord(claim, 0, 0)]
  {
  }

  /** An evaluation that applies commits, and leaves the request open and still
      waiting for the same evaluation. */
  lemma StillApplies(w: World, r: RequestId, call: Call, f: Fresh)
    requires Inv(w) && r in w.store.current && call.Evaluate? && ValidCall(call) && f.now != ""
    requires Applies(w.store.current[r], call)
    ensures var d := Decide(Some(w.store.current[r]), call, f);
            && AfterDecision(w.store, r, d) == Committed
            && r in Write(w, r, d).store.current && Applies(Write(w, r, d).store.current[r], call)
  {
    var c := w.store.current[r];
    assert RequestOk(w, r);
    assert PastOf(w, r)[|PastOf(w, r)| - 1] == c;
    CommitsExactlyWhenCurrent(w, r, c, call, f);
  }

  lemma FirstExecution(s: System, r: RequestId, call: Call, f: Fresh)
    requires Inv(s.world) && r in s.world.store.current && call.Evaluate? && ValidCall(call) && f.now != ""
    requires Applies(s.world.store.current[r], call) && s.jobs == map[0 := Job(r, call, Working)]
    ensures var c := s.world.store.current[r];
            var s' := AfterExecute(s, 0, Some(c), f);
            && s'.key == s.key && s'.proto == s.proto && s'.jobs == map[0 := Job(r, call, Committed)]
            && s'.world == Write(s.world, r, Decide(Some(c), call, f))
  {
    StillApplies(s.world, r, call, f);
    EvaluationOfCurrentCounts(s.key, s.world, r, call, f);
  }

  lemma PublishedByRun(key: Keying, r: RequestId, incidentId: string, source: string, f: Fresh)
    requires source != "" && f.now != ""
    ensures AfterOther(AfterOther(Begin(key), Create(r, incidentId, f)),
                       Do(r, None, Source(source, "rescue-request-created", f.now), f))
            == Begin(key).(world := Published(r, incidentId, source, f))
  {
  }

  /** The first delivery, from its reservation to its commit. */
  function DeliveredOnce(key: Keying, r: RequestId, incidentId: string, call: Call, fingerprint: string, f: Fresh)
    : System
    requires call.Evaluate?
  {
    var w := Published(r, incidentId, call.correlationId, f);
    AfterExecute(AfterStart(Begin(key).(world := w), r, call, fingerprint, Reserving(0)), 0, Get(w.store.current, r), f)
  }

  lemma FirstDeliveryIs(key: Keying, r: RequestId, incidentId: string, call: Call, fingerprint: string, f: Fresh)
    requires call.Evaluate?
    ensures var s2 := AfterOther(AfterOther(Begin(key), Create(r, incidentId, f)),
                                 Do(r, None, Source(call.correlationId, "rescue-request-created", f.now), f));
            var current := Get(Published(r, incidentId, call.correlationId, f).store.current, r);
            AdvanceAll(Begin(key), FirstDelivery(key, r, incidentId, call, fingerprint, f))
            == AfterExecute(AfterStart(s2, r, call, fingerprint, Reserving(0)), 0, current, f)
  {
    var source := call.correlationId;
    AdvanceFour(Begin(key), Other(Create(r, incidentId, f)),
                Other(Do(r, None, Source(source, "rescue-request-created", f.now), f)),
                Start(r, call, fingerprint, Reserving(0)),
                Execute(0, Get(Published(r, incidentId, source, f).store.current, r), f));
  }

  lemma DeliveredByRun(key: Keying, r: RequestId, incidentId: string, call: Call, fingerprint: string, f: Fresh)
    requires call.Evaluate? && ValidCall(call) && f.now != ""
    ensures AdvanceAll(Begin(key), FirstDelivery(key, r, incidentId, call, fingerprint, f))
            == DeliveredOnce(key, r, incidentId, call, fingerprint, f)
  {
    FirstDeliveryIs(key, r, incidentId, call, fingerprint, f);
    PublishedByRun(key, r, incidentId, call.correlationId, f);
  }

  /** It leaves an event, a request that still waits for the evaluation, and a
      record in progress. */
  lemma DeliveredOnceCommits(key: Keying, r: RequestId, incidentId: string, call: Call, fingerprint: string, f: Fresh)
    requires call.Evaluate? && ValidCall(call) && f.now != ""
    ensures var s := DeliveredOnce(key, r, incidentId, call, fingerprint, f);
            var claim := ClaimFor(key, r, call, fingerprint);
            && s.key == key && s.jobs == map[0 := Job(r, call, Committed)]
            && s.proto.records == map[claim.key := I.NewRecord(claim, 0, 0)]
            && r in s.world.store.current && Applies(s.world.store.current[r], call)
            && Effects(key, s.world, r, claim.key) == 1
  {
    var w := Published(r, incidentId, call.correlationId, f);
    var s2 := Begin(key).(world := w);
    var s3 := AfterStart(s2, r, call, fingerprint, Reserving(0));
    PublishedIsOpen(r, incidentId, call.correlationId, f);
    FirstReservation(s2, r, call, fingerprint);
    FirstExecution(s3, r, call, f);
    StillApplies(w, r, call, f);
    EvaluationOfCurrentCounts(key, w, r, call, f);
    NothingCountedYet(key, r, incidentId, call.correlationId, f, key(r, OriginOf(call)).key);
  }

  /** So one message can append two events, from the very first state on: create,
      publish, deliver, die before the finalize, wait, and deliver again. */
  lemma OneMessageTwoEvents(key: Keying, r: RequestId, incidentId: string, call: Call, fingerprint: string, f: Fresh)
    requires call.Evaluate? && ValidCall(call) && f.now != ""
    ensures var s := AdvanceAll(Begin(key), FirstDelivery(key, r, incidentId, call, fingerprint, f));
            && 0 in s.jobs && r in s.world.store.current
            && var again := Redeliver(s, 0, ExpiryOf(s, 0), fingerprint);
               var s' := AfterExecute(again, s.proto.next, Some(s.world.store.current[r]), f);
               Effects(s.key, s'.world, r, key(r, OriginOf(call)).key) == 2
  {
    var steps := FirstDelivery(key, r, incidentId, call, fingerprint, f);
    var s := AdvanceAll(Begin(key), steps);
    DeliveredByRun(key, r, incidentId, call, fingerprint, f);
    DeliveredOnceCommits(key, r, incidentId, call, fingerprint, f);
    BeginsWell(key, r, key(r, OriginOf(call)).key);
    RunKeeps(Begin(key), steps, r, key(r, OriginOf(call)).key);
    LostFinalizeDuplicates(s, 0, fingerprint, f);
  }
}
