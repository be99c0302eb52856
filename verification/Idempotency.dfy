/** The idempotency lock protocol: four conditional writes on one record per key,
    with locks that expire, clocks read before the write, crashes and TTL. */
module Idempotency {
  import opened Marks
  import opened Whitespace
  import opened Wrappers

  // ----- keys

  const DEFAULT_SCOPE := "GLOBAL"

  function NormalizeScope(scope: Option<string>): string {
    if scope.None? || Strip(scope.value) == "" then DEFAULT_SCOPE else Strip(scope.value)
  }

  datatype Request = Request(key: string, operation: string, scope: Option<string>, fingerprint: string)

  function KeyText(operation: string, scope: string, key: string): string {
    "idempotency:" + (operation + [':'] + (scope + [':'] + key))
  }

  /** What gets hashed into the record key; the hash itself is taken as injective. */
  function KeyOf(req: Request): string {
    KeyText(req.operation, NormalizeScope(req.scope), req.key)
  }

  /** A scope without space at its ends counts as it is; a blank one, like none,
      counts as the global one. */
  lemma NormalizedScope(s: string)
    ensures NormalizeScope(None) == "GLOBAL"
    ensures AllSpace(s) ==> NormalizeScope(Some(s)) == "GLOBAL"
    ensures s != "" && !IsSpace(s[0]) && !IsSpace(s[|s| - 1]) ==> NormalizeScope(Some(s)) == s
  {
    var a, b := StripTakesTheEnds(s);
    assert Strip(s) != "" ==> s[|a|] == Strip(s)[0];
    if s != "" && !IsSpace(s[0]) && !IsSpace(s[|s| - 1]) {
      TrimmedStays(s);
    }
  }

  /** The scopes the service uses are a method or source, a colon and a path, and
      its operations are plain names. */
  ghost predicate Proper(operation: string, scope: string) {
    Without(operation, ':')
    && exists head: string, path: string ::
         scope == head + [':'] + path && Without(head, ':') && Without(path, ':')
  }

  lemma Cancel(a: string, x: string, y: string)
    ensures a + x == a + y <==> x == y
  {
    if a + x == a + y {
      assert x == (a + x)[|a|..] && y == (a + y)[|a|..];
    }
  }

  lemma KeyTextCancels(operation: string, scope: string, key: string, key': string)
    ensures KeyText(operation, scope, key) == KeyText(operation, scope, key') <==> key == key'
  {
    Cancel("idempotency:", operation + [':'] + (scope + [':'] + key), operation + [':'] + (scope + [':'] + key'));
    Cancel(operation + [':'], scope + [':'] + key, scope + [':'] + key');
    Cancel(scope + [':'], key, key');
  }

  lemma SameScope(scope: string, key: string, scope': string, key': string)
    requires Proper("", scope) && Proper("", scope') && scope + [':'] + key == scope' + [':'] + key'
    ensures scope == scope' && key == key'
  {
    var h, p :| scope == h + [':'] + p && Without(h, ':') && Without(p, ':');
    var h', p' :| scope' == h' + [':'] + p' && Without(h', ':') && Without(p', ':');
    assert scope + [':'] + key == h + [':'] + (p + [':'] + key);
    assert scope' + [':'] + key' == h' + [':'] + (p' + [':'] + key');
    SplitAtFirst(h, h', p + [':'] + key, p' + [':'] + key', ':');
    SplitAtFirst(p, p', key, key', ':');
  }

  /** A key tells its operation, its scope and what the client sent. */
  lemma KeyTextDecides(op: string, scope: string, key: string, op': string, scope': string, key': string)
    requires Proper(op, scope) && Proper(op', scope')
    ensures KeyText(op, scope, key) == KeyText(op', scope', key') <==> op == op' && scope == scope' && key == key'
  {
    Cancel("idempotency:", op + [':'] + (scope + [':'] + key), op' + [':'] + (scope' + [':'] + key'));
    if KeyText(op, scope, key) == KeyText(op', scope', key') {
      SplitAtFirst(op, op', scope + [':'] + key, scope' + [':'] + key', ':');
      SameScope(scope, key, scope', key');
    }
  }

  /** Two requests meet in one record exactly if they agree on operation, scope and
      key. */
  lemma KeysAgreeIff(a: Request, b: Request)
    requires Proper(a.operation, NormalizeScope(a.scope)) && Proper(b.operation, NormalizeScope(b.scope))
    ensures KeyOf(a) == KeyOf(b)
            <==> a.operation == b.operation && NormalizeScope(a.scope) == NormalizeScope(b.scope) && a.key == b.key
  {
    KeyTextDecides(a.operation, NormalizeScope(a.scope), a.key, b.operation, NormalizeScope(b.scope), b.key);
  }

  /** A second colon in a scope would let a key run over into it. */
  lemma ColonInScopeCollides(op: string, scope: string, more: string, key: string)
    ensures KeyText(op, scope, more + [':'] + key) == KeyText(op, scope + [':'] + more, key)
  {
    assert scope + [':'] + (more + [':'] + key) == scope + [':'] + more + [':'] + key;
  }

  /** The scope of a route: method and path with an id in it. */
  function RouteScope(verb: string, before: string, id: string, after: string): string {
    verb + [':'] + (before + id + after)
  }

  lemma RouteIsProper(op: string, verb: string, before: string, id: string, after: string)
    requires Without(op, ':') && Without(verb, ':') && Without(before, ':') && Without(after, ':') && Without(id, ':')
    ensures Proper(op, RouteScope(verb, before, id, after))
  {
    assert Without(before + id + after, ':');
  }

  lemma RouteDecides(verb: string, before: string, after: string, id: string, id': string)
    ensures RouteScope(verb, before, id, after) == RouteScope(verb, before, id', after) <==> id == id'
  {
    Cancel(verb + [':'], before + id + after, before + id' + after);
    if before + id + after == before + id' + after {
      assert before + id + after == before + (id + after) && before + id' + after == before + (id' + after);
      Cancel(before, id + after, id' + after);
      assert id == (id + after)[..|id|] && id' == (id' + after)[..|id'|];
    }
  }

  /** One key sent to one route with two ids is two keys, as long as ids have no
      colon and the scope no space at its ends. */
  lemma RouteKeysAgreeIff(op: string, verb: string, before: string, after: string, id: string, id': string,
                          key: string, key': string)
    requires Without(op, ':') && Without(verb, ':') && Without(before, ':') && Without(after, ':')
    requires Without(id, ':') && Without(id', ':') && verb != "" && !IsSpace(verb[0])
    requires var s, s' := RouteScope(verb, before, id, after), RouteScope(verb, before, id', after);
             !IsSpace(s[|s| - 1]) && !IsSpace(s'[|s'| - 1])
    ensures KeyOf(Request(key, op, Some(RouteScope(verb, before, id, after)), ""))
            == KeyOf(Request(key', op, Some(RouteScope(verb, before, id', after)), ""))
            <==> id == id' && key == key'
  {
    var s, s' := RouteScope(verb, before, id, after), RouteScope(verb, before, id', after);
    NormalizedScope(s);
    NormalizedScope(s');
    RouteIsProper(op, verb, before, id, after);
    RouteIsProper(op, verb, before, id', after);
    KeysAgreeIff(Request(key, op, Some(s), ""), Request(key', op, Some(s'), ""));
    RouteDecides(verb, before, after, id, id');
  }

  // ----- records and the four conditional writes

  datatype RecordStatus = InProgress | Completed | Failed

  datatype Response = Response(statusCode: nat, body: string, resource: Option<string>)

  type Owner = nat

  /** Times are microseconds; expiresAt is in whole seconds, as TTL wants it. */
  datatype Record = Record(
    operation: string,
    scope: string,
    fingerprint: string,
    status: RecordStatus,
    lockOwner: Owner,
    lockExpiresAt: nat,
    expiresAt: nat,
    response: Option<Response>,
    error: Option<string>)

  const MICROS := 1_000_000
  const LOCK_TIMEOUT := 5 * 60 * MICROS
  const TTL := 24 * 3600 * MICROS

  /** A request as the conditional writes see it. */
  datatype Claim = Claim(key: string, operation: string, scope: string, fingerprint: string)

  function ClaimOf(req: Request): Claim {
    Claim(KeyOf(req), req.operation, NormalizeScope(req.scope), req.fingerprint)
  }

  /** Retries pass the normalized scope on, and that leaves key and claim alone. */
  lemma NormalizedScopeSameKey(req: Request)
    ensures KeyOf(req.(scope := Some(NormalizeScope(req.scope)))) == KeyOf(req)
    ensures ClaimOf(req.(scope := Some(NormalizeScope(req.scope)))) == ClaimOf(req)
  {
    if req.scope.Some? {
      StripIsIdempotent(req.scope.value);
    }
    assert Strip(DEFAULT_SCOPE) == DEFAULT_SCOPE;
  }

  type Records = map<string, Record>

  function NewRecord(claim: Claim, owner: Owner, now: nat): Record {
    Record(claim.operation, claim.scope, claim.fingerprint, InProgress, owner,
           now + LOCK_TIMEOUT, (now + TTL) / MICROS, None, None)
  }

  /** put_item if attribute_not_exists */
  function Reserve(t: Records, claim: Claim, owner: Owner, now: nat): Option<Records> {
    if claim.key in t then None else Some(t[claim.key := NewRecord(claim, owner, now)])
  }

  predicate SameRequest(r: Record, claim: Claim) {
    r.fingerprint == claim.fingerprint && r.operation == claim.operation && r.scope == claim.scope
  }

  function Relock(r: Record, owner: Owner, now: nat): Record {
    r.(status := InProgress, lockOwner := owner, lockExpiresAt := now + LOCK_TIMEOUT,
       expiresAt := (now + TTL) / MICROS, error := None)
  }

  function Reclaim(t: Records, claim: Claim, expected: nat, owner: Owner, now: nat): Option<Records> {
    var k := claim.key;
    if k in t && t[k].status == InProgress && SameRequest(t[k], claim)
       && t[k].lockExpiresAt == expected && t[k].lockExpiresAt <= now
    then Some(t[k := Relock(t[k], owner, now)]) else None
  }

  function RetryFailed(t: Records, claim: Claim, owner: Owner, now: nat): Option<Records> {
    var k := claim.key;
    if k in t && t[k].status == Failed && SameRequest(t[k], claim)
    then Some(t[k := Relock(t[k], owner, now)]) else None
  }

  datatype Verdict = Success(response: Response) | Failure(error: string)

  function Finalize(t: Records, k: string, owner: Owner, v: Verdict): Option<Records> {
    if k in t && t[k].status == InProgress && t[k].lockOwner == owner
    then Some(t[k := match v
                     case Success(response) => t[k].(status := Completed, response := Some(response))
                     case Failure(error) => t[k].(status := Failed, error := Some(error))])
    else None
  }

  /** A lock lasts five minutes from its clock reading, a record a day, to the
      second below. */
  lemma LockTimes(claim: Claim, before: Record, owner: Owner, now: nat)
    ensures NewRecord(claim, owner, now).lockExpiresAt == Relock(before, owner, now).lockExpiresAt == now + 300_000_000
    ensures var end := NewRecord(claim, owner, now).expiresAt;
            && end == Relock(before, owner, now).expiresAt
            && end * 1_000_000 <= now + 86_400_000_000 < (end + 1) * 1_000_000
  {
  }

  // ----- the protocol as a state machine

  /** A lock handed out and neither finalized nor lost in a crash. */
  datatype Grant = Grant(key: string, lockExpiresAt: nat)

  /** `next` stands for the supply of fresh owner ids. */
  datatype Proto = Proto(records: Records, clock: nat, grants: map<Owner, Grant>, next: Owner)

  const START := Proto(map[], 0, map[], 0)

  /** One atomic step of somebody. A conditional write computes its times from a
      clock reading that may be any `lag` old when the write arrives. */
  datatype Step =
    | Tick(d: nat)
    | TryReserve(claim: Claim, lag: nat)
    | TryReclaim(claim: Claim, expected: nat, lag: nat)
    | TryRetryFailed(claim: Claim, lag: nat)
    | TryFinalize(owner: Owner, verdict: Verdict)
    | Crash(owner: Owner)
    | Expire(key: string)

  function Locked(s: Proto, claim: Claim, lag: nat, written: Option<Records>): Proto {
    if written.None? then s
    else
      var grant := Grant(claim.key, ClockReading(s.clock, lag) + LOCK_TIMEOUT);
      Proto(written.value, s.clock, s.grants[s.next := grant], s.next + 1)
  }

  function Apply(s: Proto, step: Step): Proto {
    match step
    case Tick(d) => s.(clock := s.clock + d)
    case TryReserve(claim, lag) => Locked(s, claim, lag, Reserve(s.records, claim, s.next, ClockReading(s.clock, lag)))
    case TryReclaim(claim, expected, lag) =>
      Locked(s, claim, lag, Reclaim(s.records, claim, expected, s.next, ClockReading(s.clock, lag)))
    case TryRetryFailed(claim, lag) =>
      Locked(s, claim, lag, RetryFailed(s.records, claim, s.next, ClockReading(s.clock, lag)))
    case TryFinalize(owner, v) =>
      if owner in s.grants then
        s.(records := Finalize(s.records, s.grants[owner].key, owner, v).GetOr(s.records), grants := s.grants - {owner})
      else s
    case Crash(owner) => s.(grants := s.grants - {owner})
    case Expire(key) =>
      if key in s.records && s.records[key].expiresAt * MICROS <= s.clock then s.(records := s.records - {key}) else s
  }

  function ApplyAll(s: Proto, steps: seq<Step>): Proto
    decreases |steps|
  {
    if steps == [] then s else ApplyAll(Apply(s, steps[0]), steps[1..])
  }

  lemma {:induction false} ApplyAllAppend(s: Proto, a: seq<Step>, b: seq<Step>)
    ensures ApplyAll(s, a + b) == ApplyAll(ApplyAll(s, a), b)
    decreases |a|
  {
    if a == [] {
      assert a + b == b;
    } else {
      assert (a + b)[1..] == a[1..] + b;
      ApplyAllAppend(Apply(s, a[0]), a[1..], b);
    }
  }

  /** An owner whose lock has not run out is the one in the record, and nobody
      has finalized the record behind its back. */
  ghost predicate GrantOk(s: Proto, o: Owner)
    requires o in s.grants
  {
    var g := s.grants[o];
    o < s.next
    && (g.lockExpiresAt > s.clock ==>
          && g.key in s.records && s.records[g.key].status == InProgress
          && s.records[g.key].lockOwner == o && s.records[g.key].lockExpiresAt == g.lockExpiresAt)
  }

  ghost predicate RecordOk(r: Record, next: Owner) {
    && r.lockOwner < next
    && r.lockExpiresAt <= r.expiresAt * MICROS
    && (r.status == Completed ==> r.response.Some?)
  }

  ghost predicate ProtoOk(s: Proto) {
    && (forall o :: o in s.grants ==> GrantOk(s, o))
    && (forall k :: k in s.records ==> RecordOk(s.records[k], s.next))
  }

  lemma StepKeepsProto(s: Proto, step: Step)
    requires ProtoOk(s)
    ensures ProtoOk(Apply(s, step))
  {
    var s' := Apply(s, step);
    forall o | o in s'.grants ensures GrantOk(s', o) {
      if o in s.grants {
        assert GrantOk(s, o);
      }
    }
  }

  lemma {:induction false} RunKeepsProto(s: Proto, steps: seq<Step>)
    requires ProtoOk(s)
    ensures ProtoOk(ApplyAll(s, steps))
    decreases |steps|
  {
    if steps != [] {
      StepKeepsProto(s, steps[0]);
      RunKeepsProto(Apply(s, steps[0]), steps[1..]);
    }
  }

  /** Mutual exclusion: however reservations, reclaims, retries, crashes, TTL
      deletions and clock readings interleave, no key ever has two owners whose
      locks are both unexpired, and the one it has can still finalize. */
  lemma AtMostOneHolder(steps: seq<Step>, o1: Owner, o2: Owner)
    requires var s := ApplyAll(START, steps);
             && o1 in s.grants && o2 in s.grants && s.grants[o1].key == s.grants[o2].key
             && s.grants[o1].lockExpiresAt > s.clock && s.grants[o2].lockExpiresAt > s.clock
    ensures o1 == o2
    ensures var s := ApplyAll(START, steps);
            forall v :: Finalize(s.records, s.grants[o1].key, o1, v).Some?
  {
    RunKeepsProto(START, steps);
    var s := ApplyAll(START, steps);
    assert GrantOk(s, o1) && GrantOk(s, o2);
  }

  /** A holder whose lock has not run out settles its record: a result stays, whoever
      tries what, and a failure lets the same request in again at once. */
  lemma FinalizeSettles(steps: seq<Step>, o: Owner, v: Verdict, claim: Claim, expected: nat, lag: nat)
    requires var s := ApplyAll(START, steps);
             o in s.grants && s.grants[o].lockExpiresAt > s.clock && s.grants[o].key == claim.key
    ensures var s := ApplyAll(START, steps);
            var s' := Apply(s, TryFinalize(o, v));
            && claim.key in s.records && claim.key in s'.records && o !in s'.grants
            && match v
               case Success(response) =>
                 && s'.records[claim.key] == s.records[claim.key].(status := Completed, response := Some(response))
                 && Apply(s', TryReserve(claim, lag)) == s' == Apply(s', TryRetryFailed(claim, lag))
                 && Apply(s', TryReclaim(claim, expected, lag)) == s'
               case Failure(error) =>
                 && s'.records[claim.key] == s.records[claim.key].(status := Failed, error := Some(error))
                 && (SameRequest(s.records[claim.key], claim)
                     <==> s'.next in Apply(s', TryRetryFailed(claim, lag)).grants)
  {
    RunKeepsProto(START, steps);
    var s := ApplyAll(START, steps);
    assert GrantOk(s, o);
    var s' := Apply(s, TryFinalize(o, v));
    StepKeepsProto(s, TryFinalize(o, v));
    assert s'.next in s'.grants ==> GrantOk(s', s'.next);
  }

  /** A lock newly taken on a record clears its error and leaves all but the lock. */
  lemma RelockLeaves(before: Record, owner: Owner, now: nat)
    ensures var r := Relock(before, owner, now);
            && r.status == InProgress && r.lockOwner == owner && r.error == None
            && r.(status := before.status, lockOwner := before.lockOwner, lockExpiresAt := before.lockExpiresAt,
                  expiresAt := before.expiresAt, error := before.error) == before
  {
  }

  // ----- one life of a record: from reservation to TTL deletion

  predicate NoExpiry(steps: seq<Step>, k: string) {
    forall i :: 0 <= i < |steps| ==> steps[i] != Expire(k)
  }

  /** Within one life the request a key stands for never changes, and a
      completed record never changes at all. */
  lemma {:induction false} OneLife(s: Proto, steps: seq<Step>, k: string)
    requires k in s.records && NoExpiry(steps, k)
    ensures var s' := ApplyAll(s, steps);
            && k in s'.records
            && s'.records[k].fingerprint == s.records[k].fingerprint
            && s'.records[k].operation == s.records[k].operation
            && s'.records[k].scope == s.records[k].scope
            && (s.records[k].status == Completed ==> s'.records[k] == s.records[k])
    decreases |steps|
  {
    if steps != [] {
      assert steps[0] != Expire(k);
      OneLife(Apply(s, steps[0]), steps[1..], k);
    }
  }

  /** The body a completed record replays was stored by a finalize of the run,
      made by the owner the record named at that moment. */
  lemma {:induction false} CompletionComesFromOwner(s: Proto, steps: seq<Step>, k: string) returns (i: nat)
    requires k in ApplyAll(s, steps).records && ApplyAll(s, steps).records[k].status == Completed
    requires k in s.records ==> s.records[k].status != Completed
    requires NoExpiry(steps, k)
    ensures i < |steps| && steps[i].TryFinalize? && steps[i].verdict.Success?
    ensures ApplyAll(s, steps).records[k].response == Some(steps[i].verdict.response)
    ensures var before := ApplyAll(s, steps[..i]);
            && steps[i].owner in before.grants && before.grants[steps[i].owner].key == k
            && k in before.records && before.records[k].lockOwner == steps[i].owner
    decreases |steps|
  {
    var s1 := Apply(s, steps[0]);
    assert steps[0] != Expire(k);
    if k in s1.records && s1.records[k].status == Completed {
      i := 0;
      OneLife(s1, steps[1..], k);
      assert steps[..0] == [];
    } else {
      i := CompletionComesFromOwner(s1, steps[1..], k);
      assert steps[..i + 1][1..] == steps[1..][..i];
      i := i + 1;
    }
  }

  /** An owner that lost its record to another never gets to finalize it again,
      not even after the record has been deleted and made anew. */
  lemma {:induction false} SupersededForGood(s: Proto, steps: seq<Step>, o: Owner, k: string, v: Verdict)
    requires o < s.next && (k in s.records ==> s.records[k].lockOwner != o)
    ensures Finalize(ApplyAll(s, steps).records, k, o, v).None?
    decreases |steps|
  {
    if steps != [] {
      SupersededForGood(Apply(s, steps[0]), steps[1..], o, k, v);
    }
  }

  // ----- whose record it is

  /** The key is one of requests with this operation and scope. */
  ghost predicate Names(k: string, operation: string, scope: string) {
    Proper(operation, scope) && exists key: string :: k == KeyText(operation, scope, key)
  }

  ghost predicate RecordsNamed(t: Records) {
    forall k :: k in t ==> Names(k, t[k].operation, t[k].scope)
  }

  ghost predicate ClaimNamed(step: Step) {
    match step
    case TryReserve(c, _) => Names(c.key, c.operation, c.scope)
    case TryReclaim(c, _, _) => Names(c.key, c.operation, c.scope)
    case TryRetryFailed(c, _) => Names(c.key, c.operation, c.scope)
    case _ => true
  }

  ghost predicate AllClaimsNamed(steps: seq<Step>) {
    forall i :: 0 <= i < |steps| ==> ClaimNamed(steps[i])
  }

  lemma StepKeepsNamed(s: Proto, step: Step)
    requires RecordsNamed(s.records) && ClaimNamed(step)
    ensures RecordsNamed(Apply(s, step).records)
  {
  }

  lemma {:induction false} RunKeepsNamed(s: Proto, steps: seq<Step>)
    requires RecordsNamed(s.records) && AllClaimsNamed(steps)
    ensures RecordsNamed(ApplyAll(s, steps).records)
    decreases |steps|
  {
    if steps != [] {
      assert ClaimNamed(steps[0]);
      StepKeepsNamed(s, steps[0]);
      RunKeepsNamed(Apply(s, steps[0]), steps[1..]);
    }
  }

  /** The claims that requests make are of that kind. */
  lemma RequestsMakeNamedClaims(req: Request)
    requires Proper(req.operation, NormalizeScope(req.scope))
    ensures Names(ClaimOf(req).key, ClaimOf(req).operation, ClaimOf(req).scope)
  {
  }

  /** In every run the record a request finds under its key was made for its own
      operation and scope. */
  lemma RecordIsOwn(s: Proto, steps: seq<Step>, req: Request)
    requires RecordsNamed(s.records) && AllClaimsNamed(steps) && Proper(req.operation, NormalizeScope(req.scope))
    requires KeyOf(req) in ApplyAll(s, steps).records
    ensures var record := ApplyAll(s, steps).records[KeyOf(req)];
            record.operation == req.operation && record.scope == NormalizeScope(req.scope)
  {
    RunKeepsNamed(s, steps);
    var record := ApplyAll(s, steps).records[KeyOf(req)];
    var key :| KeyOf(req) == KeyText(record.operation, record.scope, key);
    KeyTextDecides(req.operation, NormalizeScope(req.scope), req.key, record.operation, record.scope, key);
  }

  // ----- racing reclaimers

  /** What happens around one attempt at the lock: the others' steps between its read and
      its write, and how old its clock reading is by then. */
  datatype Turn = Turn(others: seq<Step>, lag: nat)

  /** Every write that takes the lock computes its end from a clock reading that
      is less than a lock's length old. */
  predicate LagOk(step: Step) {
    match step
    case TryReserve(_, lag) => lag < LOCK_TIMEOUT
    case TryReclaim(_, _, lag) => lag < LOCK_TIMEOUT
    case TryRetryFailed(_, lag) => lag < LOCK_TIMEOUT
    case _ => true
  }

  predicate AllLagsOk(steps: seq<Step>) {
    forall i :: 0 <= i < |steps| ==> LagOk(steps[i])
  }

  /** No lock under k ends at e, and none will: that moment has passed. */
  predicate PassedBy(s: Proto, k: string, e: nat) {
    e <= s.clock && (k in s.records ==> s.records[k].lockExpiresAt != e)
  }

  lemma StepKeepsPassedBy(s: Proto, step: Step, k: string, e: nat)
    requires PassedBy(s, k, e) && LagOk(step)
    ensures PassedBy(Apply(s, step), k, e)
  {
  }

  lemma {:induction false} RunKeepsPassedBy(s: Proto, steps: seq<Step>, k: string, e: nat)
    requires PassedBy(s, k, e) && AllLagsOk(steps)
    ensures PassedBy(ApplyAll(s, steps), k, e)
    decreases |steps|
  {
    if steps != [] {
      assert LagOk(steps[0]);
      StepKeepsPassedBy(s, steps[0], k, e);
      RunKeepsPassedBy(Apply(s, steps[0]), steps[1..], k, e);
    }
  }

  /** Whoever expects a lock that somebody else has taken over comes too late for
      good, whatever finalizes, retries, deletions and new reservations follow. */
  lemma LateReclaimersLose(s: Proto, steps: seq<Step>, claim: Claim, e: nat, lag: nat)
    requires PassedBy(s, claim.key, e) && AllLagsOk(steps)
    ensures Apply(ApplyAll(s, steps), TryReclaim(claim, e, lag)) == ApplyAll(s, steps)
  {
    RunKeepsPassedBy(s, steps, claim.key, e);
  }

  /** A clock reading a whole lock's length old could bring an end that has passed
      back: the bound on the readings is needed, and is tight. */
  lemma OldClockRestoresLock(s: Proto, claim: Claim, e: nat)
    requires claim.key in s.records && s.records[claim.key].status == Failed && SameRequest(s.records[claim.key], claim)
    requires PassedBy(s, claim.key, e) && LOCK_TIMEOUT <= e
    ensures var lag := s.clock - (e - LOCK_TIMEOUT);
            var s' := Apply(s, TryRetryFailed(claim, lag));
            lag >= LOCK_TIMEOUT && !PassedBy(s', claim.key, e) && Apply(s', TryReclaim(claim, e, 0)) != s'
  {
  }

  /** All racers had read a lock that ended at `expected`; others act before each
      of their reclaims. */
  function Race(s: Proto, claim: Claim, expected: nat, racers: seq<Turn>): (Proto, seq<Owner>)
    decreases |racers|
  {
    if racers == [] then (s, [])
    else
      var met := ApplyAll(s, racers[0].others);
      var after := Apply(met, TryReclaim(claim, expected, racers[0].lag));
      var (end, winners) := Race(after, claim, expected, racers[1..]);
      (end, if after != met then [met.next] + winners else winners)
  }

  predicate RaceLagsOk(racers: seq<Turn>) {
    forall i :: 0 <= i < |racers| ==> racers[i].lag < LOCK_TIMEOUT && AllLagsOk(racers[i].others)
  }

  lemma {:induction false} NobodyWins(s: Proto, claim: Claim, expected: nat, racers: seq<Turn>)
    requires PassedBy(s, claim.key, expected) && RaceLagsOk(racers)
    ensures Race(s, claim, expected, racers).1 == []
    decreases |racers|
  {
    if racers != [] {
      RunKeepsPassedBy(s, racers[0].others, claim.key, expected);
      NobodyWins(ApplyAll(s, racers[0].others), claim, expected, racers[1..]);
    }
  }

  /** A reclaim that goes through leaves its expectation behind. */
  lemma WinnerPasses(s: Proto, claim: Claim, expected: nat, lag: nat)
    requires Apply(s, TryReclaim(claim, expected, lag)) != s && lag < LOCK_TIMEOUT
    ensures var s' := Apply(s, TryReclaim(claim, expected, lag));
            && PassedBy(s', claim.key, expected)
            && claim.key in s'.records && s'.records[claim.key].lockOwner == s.next
  {
  }

  /** Of any number of callers that saw the same expired lock, and whatever others
      do in between, at most one gets it; and the first does if it finds the
      record as it was read. */
  lemma {:induction false} ExactlyOneReclaimerWins(s: Proto, claim: Claim, expected: nat, racers: seq<Turn>)
    requires RaceLagsOk(racers)
    ensures |Race(s, claim, expected, racers).1| <= 1
    ensures racers != [] ==>
              var met := ApplyAll(s, racers[0].others);
              claim.key in met.records && met.records[claim.key].status == InProgress
              && SameRequest(met.records[claim.key], claim) && met.records[claim.key].lockExpiresAt == expected
              && expected <= ClockReading(met.clock, racers[0].lag)
              ==> Race(s, claim, expected, racers).1 == [met.next]
    decreases |racers|
  {
    if racers != [] {
      var met := ApplyAll(s, racers[0].others);
      var after := Apply(met, TryReclaim(claim, expected, racers[0].lag));
      if after != met {
        WinnerPasses(met, claim, expected, racers[0].lag);
        NobodyWins(after, claim, expected, racers[1..]);
      } else {
        ExactlyOneReclaimerWins(after, claim, expected, racers[1..]);
      }
    }
  }

  // ----- the service

  const MAX_RETRIES := 3

  datatype Reservation =
    | Replay(response: Response)
    | Granted(owner: Owner, key: string)
    | ConflictError

  /** The table, with the clock and the locks handed out so far. */
  class Table {
    var records: Records
    var clock: nat
    var grants: map<Owner, Grant>
    var next: Owner

    constructor ()
      ensures View() == START
    {
      records, clock, grants, next := map[], 0, map[], 0;
    }

    function View(): Proto
      reads this
    {
      Proto(records, clock, grants, next)
    }

    /** The bookkeeping of a conditional write that took the lock. */
    method Lock(key: string, record: Record)
      modifies this
      ensures View() == Proto(old(records)[key := record], old(clock),
                              old(grants)[old(next) := Grant(key, record.lockExpiresAt)], old(next) + 1)
    {
      records := records[key := record];
      grants := grants[next := Grant(key, record.lockExpiresAt)];
      next := next + 1;
    }

    method ReserveKey(claim: Claim, lag: nat) returns (owner: Option<Owner>)
      modifies this
      ensures View() == Apply(old(View()), TryReserve(claim, lag))
      ensures owner == if old(claim.key !in records) then Some(old(next)) else None
    {
      if claim.key in records {
        return None;
      }
      owner := Some(next);
      Lock(claim.key, NewRecord(claim, next, ClockReading(clock, lag)));
    }

    method ReclaimKey(claim: Claim, expected: nat, lag: nat) returns (owner: Option<Owner>)
      modifies this
      ensures View() == Apply(old(View()), TryReclaim(claim, expected, lag))
      ensures owner.Some? ==> owner.value == old(next) < next
      ensures owner.None? <==> View() == old(View())
    {
      var k, now := claim.key, ClockReading(clock, lag);
      if k !in records || records[k].status != InProgress || !SameRequest(records[k], claim)
         || records[k].lockExpiresAt != expected || records[k].lockExpiresAt > now {
        return None;
      }
      owner := Some(next);
      Lock(k, Relock(records[k], next, now));
    }

    method RetryFailedKey(claim: Claim, lag: nat) returns (owner: Option<Owner>)
      modifies this
      ensures View() == Apply(old(View()), TryRetryFailed(claim, lag))
      ensures owner.Some? ==> owner.value == old(next) < next
      ensures owner.None? <==> View() == old(View())
    {
      var k := claim.key;
      if k !in records || records[k].status != Failed || !SameRequest(records[k], claim) {
        return None;
      }
      owner := Some(next);
      Lock(k, Relock(records[k], next, ClockReading(clock, lag)));
    }

    /** Finalizing takes effect only while the record still names this owner. */
    method FinalizeKey(owner: Owner, v: Verdict) returns (ok: bool)
      requires owner in grants
      modifies this
      ensures View() == Apply(old(View()), TryFinalize(owner, v))
      ensures ok <==> Finalize(old(records), old(grants)[owner].key, owner, v).Some?
    {
      var k := grants[owner].key;
      ok := k in records && records[k].status == InProgress && records[k].lockOwner == owner;
      if ok {
        records := records[k := match v
                                case Success(response) => records[k].(status := Completed, response := Some(response))
                                case Failure(error) => records[k].(status := Failed, error := Some(error))];
      }
      grants := grants - {owner};
    }

    /** Everybody else's steps, one after the other. */
    method Others(steps: seq<Step>)
      modifies this
      ensures View() == ApplyAll(old(View()), steps)
    {
      var i := 0;
      while i < |steps|
        invariant 0 <= i <= |steps|
        invariant ApplyAll(View(), steps[i..]) == ApplyAll(old(View()), steps)
      {
        assert steps[i..][1..] == steps[i + 1..];
        match steps[i] {
          case Tick(d) => clock := clock + d;
          case TryReserve(claim, lag) => var _ := ReserveKey(claim, lag);
          case TryReclaim(claim, expected, lag) => var _ := ReclaimKey(claim, expected, lag);
          case TryRetryFailed(claim, lag) => var _ := RetryFailedKey(claim, lag);
          case TryFinalize(owner, v) => if owner in grants { var _ := FinalizeKey(owner, v); }
          case Crash(owner) => grants := grants - {owner};
          case Expire(key) =>
            if key in records && records[key].expiresAt * MICROS <= clock {
              records := records - {key};
            }
        }
        i := i + 1;
      }
    }
  }

  /** What a caller of check_and_reserve may rely on when it returns. A replay may
      come from a stale read, so it speaks of the record unless that has been
      deleted since. */
  ghost predicate ReservationOk(t: Table, req: Request, result: Reservation, firstNew: Owner, steps: seq<Step>)
    reads t
  {
    var k := KeyOf(req);
    match result
    case Replay(response) =>
      NoExpiry(steps, k) ==>
        k in t.records && t.records[k].status == Completed && t.records[k].fingerprint == req.fingerprint
        && (t.records[k].response.Some? ==> t.records[k].response.value == response)
    case Granted(owner, key) =>
      key == k && firstNew <= owner < t.next && owner in t.grants && t.grants[owner].key == k
      && k in t.records && t.records[k].status == InProgress && t.records[k].lockOwner == owner
      && t.records[k].fingerprint == req.fingerprint && t.records[k].operation == req.operation
      && t.records[k].scope == NormalizeScope(req.scope)
    case ConflictError => true
  }

  /** What the first attempt settles: `existing` is what it read, `met` the table
      its conditional write meets. */
  ghost predicate Settles(existing: Option<Record>, met: Proto, claim: Claim, lag: nat, result: Reservation) {
    var now := ClockReading(met.clock, lag);
    if existing.None? then
      claim.key !in met.records ==> result.Granted?
    else if existing.value.fingerprint != claim.fingerprint then result.ConflictError?
    else
      match existing.value.status
      case Completed =>
        result.Replay? && (existing.value.response.Some? ==> result.response == existing.value.response.value)
      case InProgress =>
        if existing.value.lockExpiresAt > now then result.ConflictError?
        else Get(met.records, claim.key) == existing && SameRequest(existing.value, claim) ==> result.Granted?
      case Failed => Get(met.records, claim.key) == existing && SameRequest(existing.value, claim) ==> result.Granted?
  }

  /** A conditional write that tries to take the lock for this claim. */
  predicate TriesFor(step: Step, claim: Claim) {
    match step
    case TryReserve(c, _) => c == claim
    case TryReclaim(c, _, _) => c == claim
    case TryRetryFailed(c, _) => c == claim
    case _ => false
  }

  function Min(a: nat, b: nat): nat {
    if a <= b then a else b
  }

  /** The history of a call: in each attempt the others' steps come between its
      read and its own write; the last attempt may not write. */
  function Woven(turns: seq<Turn>, own: seq<Step>, attempts: nat): seq<Step>
    requires attempts <= |turns|
  {
    if attempts == 0 then []
    else turns[0].others + own[..Min(1, |own|)] + Woven(turns[1..], own[Min(1, |own|)..], attempts - 1)
  }

  /** All of a call's own steps are attempts on its one key, one per attempt. */
  ghost predicate OwnOk(turns: seq<Turn>, claim: Claim, own: seq<Step>, attempts: nat, steps: seq<Step>)
    requires attempts <= |turns|
  {
    && |own| <= attempts && (forall i :: 0 <= i < |own| ==> TriesFor(own[i], claim))
    && steps == Woven(turns, own, attempts)
  }

  lemma WovenFirst(turns: seq<Turn>, claim: Claim, step: Step, own: seq<Step>, attempts: nat, steps: seq<Step>)
    requires turns != [] && attempts < |turns| && OwnOk(turns[1..], claim, own, attempts, steps)
    requires TriesFor(step, claim)
    ensures OwnOk(turns, claim, [step] + own, attempts + 1, turns[0].others + [step] + steps)
  {
    assert ([step] + own)[..1] == [step] && ([step] + own)[1..] == own;
  }

  lemma WovenOnly(turns: seq<Turn>, claim: Claim, own: seq<Step>)
    requires turns != [] && |own| <= 1 && forall i :: 0 <= i < |own| ==> TriesFor(own[i], claim)
    ensures OwnOk(turns, claim, own, 1, turns[0].others + own)
  {
    assert own[..Min(1, |own|)] == own && own[Min(1, |own|)..] == [];
    assert Woven(turns[1..], [], 0) == [];
  }

  lemma TailNoExpiry(a: seq<Step>, b: seq<Step>, k: string)
    ensures NoExpiry(a + b, k) ==> NoExpiry(b, k)
  {
    if NoExpiry(a + b, k) {
      forall i | 0 <= i < |b| ensures b[i] != Expire(k) {
        assert (a + b)[|a| + i] == b[i];
      }
    }
  }

  lemma OneMoreStep(before: Proto, steps: seq<Step>, step: Step, start: Proto)
    requires before == ApplyAll(start, steps)
    ensures ApplyAll(start, steps + [step]) == Apply(before, step)
  {
    ApplyAllAppend(start, steps, [step]);
    assert ApplyAll(before, [step]) == Apply(before, step);
  }

  lemma {:induction false} NextOnlyGrows(s: Proto, steps: seq<Step>)
    ensures s.next <= ApplyAll(s, steps).next
    decreases |steps|
  {
    if steps != [] {
      NextOnlyGrows(Apply(s, steps[0]), steps[1..]);
    }
  }

  /** One attempt; None asks for another. */
  method Attempt(t: Table, req: Request, turn: Turn) returns (result: Option<Reservation>, ghost own: seq<Step>)
    modifies t
    ensures t.View() == ApplyAll(old(t.View()), turn.others + own)
    ensures |own| <= 1 && (forall i :: 0 <= i < |own| ==> TriesFor(own[i], ClaimOf(req)))
    ensures |own| == 1 <==> result.None? || result.value.Granted?
    ensures result.Some? ==> ReservationOk(t, req, result.value, old(t.next), turn.others + own)
    ensures var existing, met := Get(old(t.records), KeyOf(req)), ApplyAll(old(t.View()), turn.others);
            if result.Some? then Settles(existing, met, ClaimOf(req), turn.lag, result.value)
            else forall later :: Settles(existing, met, ClaimOf(req), turn.lag, later)
  {
    var claim, lag := ClaimOf(req), turn.lag;
    var existing := Get(t.records, claim.key);
    ghost var start := t.View();
    t.Others(turn.others);
    NextOnlyGrows(start, turn.others);
    own := [];
    assert turn.others + own == turn.others;
    ghost var before, mine := t.View(), TryReserve(claim, lag);
    var granted;
    if existing.Some? {
      if existing.value.fingerprint != req.fingerprint {
        return Some(ConflictError), own;
      }
      match existing.value.status {
        case Completed =>
          if NoExpiry(turn.others, claim.key) {
            OneLife(start, turn.others, claim.key);
          }
          return Some(Replay(existing.value.response.GetOr(Response(200, "{}", None)))), own;
        case InProgress =>
          if existing.value.lockExpiresAt > ClockReading(t.clock, lag) {
            return Some(ConflictError), own;
          }
          mine := TryReclaim(claim, existing.value.lockExpiresAt, lag);
          granted := t.ReclaimKey(claim, existing.value.lockExpiresAt, lag);
        case Failed =>
          mine := TryRetryFailed(claim, lag);
          granted := t.RetryFailedKey(claim, lag);
      }
    } else {
      granted := t.ReserveKey(claim, lag);
    }
    OneMoreStep(before, turn.others, mine, start);
    own := [mine];
    result := if granted.Some? then Some(Granted(granted.value, claim.key)) else None;
  }

  lemma RecordIsOwnIf(s: Proto, steps: seq<Step>, req: Request)
    ensures RecordsNamed(s.records) && AllClaimsNamed(steps) && Proper(req.operation, NormalizeScope(req.scope)) ==>
              KeyOf(req) in ApplyAll(s, steps).records ==>
                ApplyAll(s, steps).records[KeyOf(req)].operation == req.operation
                && ApplyAll(s, steps).records[KeyOf(req)].scope == NormalizeScope(req.scope)
  {
    if RecordsNamed(s.records) && AllClaimsNamed(steps) && Proper(req.operation, NormalizeScope(req.scope))
       && KeyOf(req) in ApplyAll(s, steps).records {
      RecordIsOwn(s, steps, req);
    }
  }

  /** One call: at most four attempts, and in each nothing but the others' steps
      and then at most one write of its own, always for the same claim. The read
      at the top may be stale: the others' steps come after it. */
  method CheckAndReserve(t: Table, req: Request, turns: seq<Turn>, retryCount: nat)
    returns (result: Reservation, attempts: nat, ghost own: seq<Step>, ghost steps: seq<Step>)
    requires retryCount <= MAX_RETRIES && |turns| + retryCount > MAX_RETRIES
    modifies t
    ensures 1 <= attempts <= 4 - retryCount && OwnOk(turns, ClaimOf(req), own, attempts, steps)
    ensures |own| == attempts && !result.Granted? ==> result.ConflictError? && attempts == 4 - retryCount
    ensures t.View() == ApplyAll(old(t.View()), steps)
    ensures ReservationOk(t, req, result, old(t.next), steps)
    ensures Settles(Get(old(t.records), KeyOf(req)), ApplyAll(old(t.View()), turns[0].others), ClaimOf(req),
                    turns[0].lag, result)
    ensures && RecordsNamed(old(t.records)) && AllClaimsNamed(steps)
            && Proper(req.operation, NormalizeScope(req.scope)) && KeyOf(req) in t.records ==>
              && t.records[KeyOf(req)].operation == req.operation
              && t.records[KeyOf(req)].scope == NormalizeScope(req.scope)
    decreases MAX_RETRIES - retryCount, 1
  {
    ghost var start := t.View();
    var first;
    first, own := Attempt(t, req, turns[0]);
    attempts, steps := 1, turns[0].others + own;
    WovenOnly(turns, ClaimOf(req), own);
    RecordIsOwnIf(start, steps, req);
    if first.Some? {
      return first.value, attempts, own, steps;
    }
    ghost var ownMore, more;
    var again;
    result, again, ownMore, more := RetryReservation(t, req, turns[1..], retryCount);
    ApplyAllAppend(start, steps, more);
    NextOnlyGrows(start, steps);
    TailNoExpiry(steps, more, KeyOf(req));
    WovenFirst(turns, ClaimOf(req), own[0], ownMore, again, more);
    assert own == [own[0]];
    attempts, own, steps := attempts + again, own + ownMore, steps + more;
    RecordIsOwnIf(start, steps, req);
  }

  method RetryReservation(t: Table, req: Request, turns: seq<Turn>, retryCount: nat)
    returns (result: Reservation, attempts: nat, ghost own: seq<Step>, ghost steps: seq<Step>)
    requires retryCount <= MAX_RETRIES && |turns| + retryCount >= MAX_RETRIES
    modifies t
    ensures attempts <= 3 - retryCount && OwnOk(turns, ClaimOf(req), own, attempts, steps)
    ensures |own| == attempts && !result.Granted? ==> result.ConflictError? && attempts == 3 - retryCount
    ensures t.View() == ApplyAll(old(t.View()), steps)
    ensures ReservationOk(t, req, result, old(t.next), steps)
    decreases MAX_RETRIES - retryCount, 0
  {
    if retryCount >= MAX_RETRIES {
      return ConflictError, 0, [], [];
    }
    NormalizedScopeSameKey(req);
    result, attempts, own, steps :=
      CheckAndReserve(t, req.(scope := Some(NormalizeScope(req.scope))), turns, retryCount + 1);
  }
}
