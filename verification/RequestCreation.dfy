/** Creating a request: one transaction over all items, retried on conflict, with
    a fallback of conditional puts that undoes itself. */
module RequestCreation {
  import opened Marks
  import opened ByteOrder
  import IsoTime
  import Status = CitizenStatus

  datatype Key = Key(pk: string, sk: string)

  datatype Item = Item(key: Key, body: string)

  type Items = map<Key, string>

  ghost predicate DistinctKeys(items: seq<Item>) {
    forall i, j :: 0 <= i < j < |items| ==> items[i].key != items[j].key
  }

  /** The keys of the items a create writes, in the order it writes them. */
  function CreateKeys(requestId: string, phoneHash: string, codeHash: string, incidentId: string, now: string,
                      signature: string): seq<Key>
  {
    [Key("REQ#" + requestId, "META"),
     Key("REQ#" + requestId, "CURRENT"),
     Key("REQ#" + requestId, "EVENT#0000000001"),
     Key("TRACK#" + phoneHash, "CODE#" + codeHash),
     Key("INCIDENT#" + incidentId, "REQUEST#" + now + "#" + requestId),
     Key("PHONE#" + phoneHash, "UNIQUE"),
     Key("DUP#" + signature, "REQUEST#" + requestId)]
  }

  /** No two of them collide, whatever the ids and hashes. */
  lemma CreateKeysDistinct(items: seq<Item>, requestId: string, phoneHash: string, codeHash: string, incidentId: string,
                           now: string, signature: string)
    requires var keys := CreateKeys(requestId, phoneHash, codeHash, incidentId, now, signature);
             |items| == |keys| && forall i :: 0 <= i < |keys| ==> items[i].key == keys[i]
    ensures DistinctKeys(items)
  {
    var keys := CreateKeys(requestId, phoneHash, codeHash, incidentId, now, signature);
    assert forall i :: 0 <= i < 7 ==> keys[i].pk[0] == ['R', 'R', 'R', 'T', 'I', 'P', 'D'][i];
    assert keys[0].sk[0] == 'M' && keys[1].sk[0] == 'C' && keys[2].sk[0] == 'E';
  }

  lemma IndexKeysDiffer(a: string, now: string, id: string, now': string, id': string)
    requires id != id' && Without(now, '#') && Without(now', '#')
    ensures a + now + "#" + id != a + now' + "#" + id'
  {
    if a + now + "#" + id == a + now' + "#" + id' {
      assert a + now + "#" + id == a + (now + ['#'] + id) && a + now' + "#" + id' == a + (now' + ['#'] + id');
      assert (a + (now + ['#'] + id))[|a|..] == now + ['#'] + id;
      assert (a + (now' + ['#'] + id'))[|a|..] == now' + ['#'] + id';
      SplitAtFirst(now, now', id, id', '#');
    }
  }

  lemma AfterPrefix(a: string, x: string, y: string)
    ensures a + x == a + y <==> x == y
  {
    assert (a + x)[|a|..] == x && (a + y)[|a|..] == y;
  }

  /** Only items of one kind can have one key, but for those under the request's id. */
  lemma KeyKinds(id: string, phone: string, code: string, incident: string, now: string, signature: string,
                 id': string, phone': string, code': string, incident': string, now': string, signature': string,
                 i: nat, j: nat)
    requires i < 7 && j < 7 && i != j
    requires CreateKeys(id, phone, code, incident, now, signature)[i]
             == CreateKeys(id', phone', code', incident', now', signature')[j]
    ensures i < 3 && j < 3
  {
    var key := CreateKeys(id, phone, code, incident, now, signature)[i];
    assert key.pk[0] == ['R', 'R', 'R', 'T', 'I', 'P', 'D'][i];
    assert key.pk[0] == ['R', 'R', 'R', 'T', 'I', 'P', 'D'][j];
  }

  /** Creates of two requests write a common key exactly when their phones have one
      hash. */
  lemma CreatesMeetIff(id: string, phone: string, code: string, incident: string, now: string, signature: string,
                       id': string, phone': string, code': string, incident': string, now': string, signature': string)
    requires id != id' && Without(now, '#') && Without(now', '#')
    ensures var keys := CreateKeys(id, phone, code, incident, now, signature);
            var keys' := CreateKeys(id', phone', code', incident', now', signature');
            (exists key :: key in keys && key in keys') <==> phone == phone'
  {
    var keys := CreateKeys(id, phone, code, incident, now, signature);
    var keys' := CreateKeys(id', phone', code', incident', now', signature');
    if phone == phone' {
      assert keys[5] in keys && keys'[5] in keys' && keys[5] == keys'[5];
    }
    forall key | key in keys && key in keys' ensures phone == phone' {
      var i :| 0 <= i < 7 && keys[i] == key;
      var j :| 0 <= j < 7 && keys'[j] == key;
      if i != j {
        KeyKinds(id, phone, code, incident, now, signature, id', phone', code', incident', now', signature', i, j);
      }
      AfterPrefix("REQ#", id, id');
      AfterPrefix("TRACK#", phone, phone');
      AfterPrefix("PHONE#", phone, phone');
      AfterPrefix("REQUEST#", id, id');
      IndexKeysDiffer("REQUEST#", now, id, now', id');
    }
  }

  /** The first event lies where the queries for events look for version 1. */
  lemma FirstEventKey(id: string, phone: string, code: string, incident: string, now: string, signature: string)
    ensures CreateKeys(id, phone, code, incident, now, signature)[2].sk == Status.SortKey(1)
  {
    assert Padded(1, Status.KEY_DIGITS) == "0000000001";
  }

  /** The incident's index lists requests by the time they came in, and by id within
      one microsecond. */
  lemma IncidentIndexOrder(id: string, phone: string, code: string, incident: string, at: IsoTime.Timestamp,
                           signature: string, id': string, phone': string, code': string, at': IsoTime.Timestamp,
                           signature': string)
    requires IsoTime.Valid(at) && IsoTime.Valid(at')
    ensures var key := CreateKeys(id, phone, code, incident, IsoTime.Iso(at), signature)[4];
            var key' := CreateKeys(id', phone', code', incident, IsoTime.Iso(at'), signature')[4];
            && key.pk == key'.pk
            && (Less(key.sk, key'.sk)
                <==> IsoTime.Instant(at) < IsoTime.Instant(at')
                     || (IsoTime.Instant(at) == IsoTime.Instant(at') && Less(id, id')))
  {
    var t, t' := IsoTime.Iso(at), IsoTime.Iso(at');
    IsoTime.IsoFirst(at, at', "#" + id, "#" + id');
    LessCommonPrefix("#", id, id');
    LessCommonPrefix("REQUEST#", t + ("#" + id), t' + ("#" + id'));
    assert "REQUEST#" + t + "#" + id == "REQUEST#" + (t + ("#" + id));
    assert "REQUEST#" + t' + "#" + id' == "REQUEST#" + (t' + ("#" + id'));
  }

  /** What the lookups find: by phone and code, by signature, by incident. */
  lemma LookupKeysAgreeIff(id: string, phone: string, code: string, incident: string, now: string, signature: string,
                           id': string, phone': string, code': string, incident': string, now': string,
                           signature': string)
    ensures var keys := CreateKeys(id, phone, code, incident, now, signature);
            var keys' := CreateKeys(id', phone', code', incident', now', signature');
            && (keys[3] == keys'[3] <==> phone == phone' && code == code')
            && (keys[4].pk == keys'[4].pk <==> incident == incident')
            && (keys[6].pk == keys'[6].pk <==> signature == signature')
  {
    AfterPrefix("TRACK#", phone, phone');
    AfterPrefix("CODE#", code, code');
    AfterPrefix("INCIDENT#", incident, incident');
    AfterPrefix("DUP#", signature, signature');
  }

  /** The table `base` with those of the first n items stored that are in `kept`. */
  function With(base: Items, items: seq<Item>, n: nat, kept: set<nat>): Items
    requires n <= |items|
  {
    if n == 0 then base
    else if n - 1 in kept then With(base, items, n - 1, kept)[items[n - 1].key := items[n - 1].body]
    else With(base, items, n - 1, kept)
  }

  function UpTo(n: nat): (r: set<nat>)
    ensures forall i: nat :: i in r <==> i < n
  {
    if n == 0 then {} else UpTo(n - 1) + {n - 1}
  }

  lemma {:induction false} WithLookup(base: Items, items: seq<Item>, n: nat, kept: set<nat>)
    requires n <= |items| && DistinctKeys(items)
    ensures var t := With(base, items, n, kept);
            && (forall i :: 0 <= i < n && i in kept ==> items[i].key in t && t[items[i].key] == items[i].body)
            && (forall k :: (forall i :: 0 <= i < n && i in kept ==> items[i].key != k) ==>
                  (k in t <==> k in base) && (k in base ==> t[k] == base[k]))
  {
    if n > 0 {
      WithLookup(base, items, n - 1, kept);
    }
  }

  lemma {:induction false} WithAgrees(base: Items, items: seq<Item>, n: nat, kept: set<nat>, kept': set<nat>)
    requires n <= |items| && forall i :: 0 <= i < n ==> (i in kept <==> i in kept')
    ensures With(base, items, n, kept) == With(base, items, n, kept')
  {
    if n > 0 {
      WithAgrees(base, items, n - 1, kept, kept');
    }
  }

  /** Deleting one stored item whose key was free in `base`. */
  lemma {:induction false} WithoutOne(base: Items, items: seq<Item>, n: nat, kept: set<nat>, i: nat)
    requires i < n <= |items| && DistinctKeys(items) && i in kept && items[i].key !in base
    ensures With(base, items, n, kept) - {items[i].key} == With(base, items, n, kept - {i})
  {
    var t, t' := With(base, items, n - 1, kept), With(base, items, n - 1, kept - {i});
    if i == n - 1 {
      WithAgrees(base, items, n - 1, kept, kept - {i});
      WithLookup(base, items, n - 1, kept);
    } else {
      WithoutOne(base, items, n - 1, kept, i);
    }
  }

  lemma {:induction false} WithNothing(base: Items, items: seq<Item>, n: nat)
    requires n <= |items|
    ensures With(base, items, n, {}) == base
  {
    if n > 0 {
      WithNothing(base, items, n - 1);
    }
  }

  lemma {:induction false} WithBeyond(base: Items, items: seq<Item>, n: nat, m: nat, kept: set<nat>)
    requires n <= m <= |items| && forall i :: i in kept ==> i < n
    ensures With(base, items, m, kept) == With(base, items, n, kept)
  {
    if n < m {
      WithBeyond(base, items, n, m - 1, kept);
    }
  }

  // ----- the backend

  /** How the store answers a transaction. The three flags are the cancellation
      reasons and messages the repository looks for; they are independent. */
  datatype TransactOutcome =
    | Accepted
    | Cancelled(conflict: bool, validation: bool, keyMismatch: bool)
    | ValidationRejected    // ValidationException, or the local wrapper of it
    | OtherClientError

  datatype PutOutcome = Stored | ConditionalCheckFailed | PutError

  datatype Result = Created | ConflictError | ValidationError | ClientError

  /** Everything the backend will do: its answers to the transaction attempts,
      the puts that fail of their own accord and the rollback deletes that fail. */
  datatype Backend = Backend(transact: seq<TransactOutcome>, failingPuts: set<nat>, failingDeletes: set<nat>)

  const MAX_ATTEMPTS: nat := 3

  datatype Course = Done | FallBack | Raise(error: Result)

  predicate Retryable(o: TransactOutcome, attempt: nat) {
    o.Cancelled? && o.conflict && attempt + 1 < MAX_ATTEMPTS
  }

  /** What follows from an answer that is not retried. */
  function CourseAfter(o: TransactOutcome, local: bool): Course {
    match o
    case Accepted => Done
    case Cancelled(_, validation, keyMismatch) =>
      if validation then if keyMismatch then FallBack else Raise(ValidationError)
      else if local then FallBack
      else Raise(ConflictError)
    case ValidationRejected => if local then FallBack else Raise(ClientError)
    case OtherClientError => Raise(ClientError)
  }

  /** The fallback is for items whose key types the store rejects, and on the local
      stage for whatever the local store does not support. */
  lemma CourseIs(o: TransactOutcome, local: bool)
    ensures CourseAfter(o, local).Done? <==> o.Accepted?
    ensures CourseAfter(o, false).FallBack? <==> o.Cancelled? && o.validation && o.keyMismatch
    ensures CourseAfter(o, true).FallBack?
            <==> o.ValidationRejected? || (o.Cancelled? && (o.validation ==> o.keyMismatch))
    ensures CourseAfter(o, local) == Raise(ValidationError) <==> o.Cancelled? && o.validation && !o.keyMismatch
    ensures CourseAfter(o, local) == Raise(ConflictError) <==> !local && o.Cancelled? && !o.validation
    ensures CourseAfter(o, local) == Raise(ClientError) <==> o.OtherClientError? || (!local && o.ValidationRejected?)
  {
  }

  function Deciding(b: Backend, attempt: nat): (i: nat)
    requires attempt < MAX_ATTEMPTS && |b.transact| == MAX_ATTEMPTS
    ensures attempt <= i < MAX_ATTEMPTS
    decreases MAX_ATTEMPTS - attempt
  {
    if Retryable(b.transact[attempt], attempt) then Deciding(b, attempt + 1) else attempt
  }

  /** A transaction is tried up to three times, as long as it conflicts. */
  lemma {:induction false} DecidingIs(b: Backend, attempt: nat)
    requires attempt < 3 == |b.transact|
    ensures var i := Deciding(b, attempt);
            && attempt <= i < 3
            && (forall j :: attempt <= j < i ==> b.transact[j].Cancelled? && b.transact[j].conflict)
            && (i < 2 ==> !(b.transact[i].Cancelled? && b.transact[i].conflict))
    decreases 3 - attempt
  {
    if Retryable(b.transact[attempt], attempt) {
      DecidingIs(b, attempt + 1);
    }
  }

  /** The first item that cannot be put, if any: the call fails or its key is taken. */
  function FirstFailure(base: Items, items: seq<Item>, failing: set<nat>, i: nat): (n: nat)
    requires i <= |items|
    ensures i <= n <= |items|
    ensures n < |items| ==> n in failing || items[n].key in base
    ensures forall j :: i <= j < n ==> j !in failing && items[j].key !in base
    decreases |items| - i
  {
    if i == |items| || i in failing || items[i].key in base then i else FirstFailure(base, items, failing, i + 1)
  }

  /** What the fallback answers. */
  function FallbackResult(base: Items, items: seq<Item>, b: Backend): Result {
    var n := FirstFailure(base, items, b.failingPuts, 0);
    if n == |items| then Created else if n in b.failingPuts then ClientError else ConflictError
  }

  function Undeleted(n: nat, failingDeletes: set<nat>): set<nat> {
    set i | i in UpTo(n) && i in failingDeletes
  }

  /** Which items it leaves stored: all of them, or those before the failure
      whose rollback delete failed. */
  function FallbackLeft(base: Items, items: seq<Item>, b: Backend): set<nat> {
    var n := FirstFailure(base, items, b.failingPuts, 0);
    if n == |items| then UpTo(n) else Undeleted(n, b.failingDeletes)
  }

  /** Putting one more item. */
  lemma PutOne(base: Items, items: seq<Item>, n: nat)
    requires n < |items| && DistinctKeys(items)
    ensures var t := With(base, items, n, UpTo(n));
            && (items[n].key in t <==> items[n].key in base)
            && With(base, items, n + 1, UpTo(n + 1)) == t[items[n].key := items[n].body]
  {
    WithLookup(base, items, n, UpTo(n));
    WithAgrees(base, items, n, UpTo(n), UpTo(n + 1));
  }

  /** A failed fallback leaves a trace exactly when it had stored an item before
      the failure whose rollback delete failed. */
  lemma TraceExactlyWhenRollbackFailed(base: Items, items: seq<Item>, b: Backend)
    requires DistinctKeys(items) && FallbackResult(base, items, b) != Created
    ensures With(base, items, |items|, FallbackLeft(base, items, b)) != base
            <==> exists i :: 0 <= i < FirstFailure(base, items, b.failingPuts, 0) && i in b.failingDeletes
  {
    var left := FallbackLeft(base, items, b);
    if left == {} {
      WithNothing(base, items, |items|);
    } else {
      var i :| i in left;
      WithLookup(base, items, |items|, left);
      assert items[i].key in With(base, items, |items|, left);
    }
    assert forall i :: i in left <==> 0 <= i < FirstFailure(base, items, b.failingPuts, 0) && i in b.failingDeletes;
  }

  class Table {
    var stored: Items

    constructor ()
      ensures stored == map[]
    {
      stored := map[];
    }

    /** The transaction's puts carry no condition: they overwrite. */
    method TransactWrite(items: seq<Item>, outcome: TransactOutcome)
      modifies this
      ensures stored == if outcome.Accepted? then With(old(stored), items, |items|, UpTo(|items|)) else old(stored)
    {
      if outcome.Accepted? {
        var i := 0;
        while i < |items|
          invariant 0 <= i <= |items|
          invariant stored == With(old(stored), items, i, UpTo(|items|))
        {
          stored := stored[items[i].key := items[i].body];
          i := i + 1;
        }
      }
    }

    method PutIfAbsent(item: Item, fails: bool) returns (outcome: PutOutcome)
      modifies this
      ensures outcome == if fails then PutError else if item.key in old(stored) then ConditionalCheckFailed else Stored
      ensures stored == if outcome.Stored? then old(stored)[item.key := item.body] else old(stored)
    {
      if fails {
        return PutError;
      }
      if item.key in stored {
        return ConditionalCheckFailed;
      }
      stored := stored[item.key := item.body];
      return Stored;
    }

    /** Conditional puts in order; the first failure undoes the earlier ones,
        latest first. `left` are the items that remain stored. */
    method PutItemsWithRollback(items: seq<Item>, b: Backend) returns (outcome: PutOutcome, ghost left: set<nat>)
      requires DistinctKeys(items)
      modifies this
      ensures stored == With(old(stored), items, |items|, left)
      ensures left == FallbackLeft(old(stored), items, b)
      ensures var n := FirstFailure(old(stored), items, b.failingPuts, 0);
              outcome == if n == |items| then Stored
                         else if n in b.failingPuts then PutError
                         else ConditionalCheckFailed
    {
      ghost var base := stored;
      var n := 0;
      while n < |items|
        invariant 0 <= n <= |items|
        invariant stored == With(base, items, n, UpTo(n))
        invariant FirstFailure(base, items, b.failingPuts, 0) == FirstFailure(base, items, b.failingPuts, n)
      {
        PutOne(base, items, n);
        var put := PutIfAbsent(items[n], n in b.failingPuts);
        if !put.Stored? {
          left := Rollback(items, n, b.failingDeletes, base);
          WithBeyond(base, items, n, |items|, left);
          return put, left;
        }
        n := n + 1;
      }
      return Stored, UpTo(|items|);
    }

    method Rollback(items: seq<Item>, n: nat, failingDeletes: set<nat>, ghost base: Items)
      returns (ghost left: set<nat>)
      requires n <= |items| && DistinctKeys(items) && stored == With(base, items, n, UpTo(n))
      requires forall i :: 0 <= i < n ==> items[i].key !in base
      modifies this
      ensures stored == With(base, items, n, left)
      ensures left == Undeleted(n, failingDeletes)
    {
      left := UpTo(n);
      var j := n;
      while j > 0
        invariant 0 <= j <= n
        invariant left == set i | i in UpTo(n) && (i < j || i in failingDeletes)
        invariant stored == With(base, items, n, left)
      {
        j := j - 1;
        if j !in failingDeletes {
          WithoutOne(base, items, n, left, j);
          stored := stored - {items[j].key};
          left := left - {j};
        }
      }
    }

    /** Returns normally only with every item stored as given. When it raises, the
        table has changed exactly if the fallback was tried and a rollback delete
        of an item stored before the failure failed. */
    method CreateRescueRequest(items: seq<Item>, local: bool, b: Backend) returns (result: Result, ghost left: set<nat>)
      requires DistinctKeys(items) && |b.transact| == MAX_ATTEMPTS
      modifies this
      ensures result.Created? ==>
                forall i :: 0 <= i < |items| ==> items[i].key in stored && stored[items[i].key] == items[i].body
      ensures !result.Created? ==>
                (stored != old(stored)
                 <==> CourseAfter(b.transact[Deciding(b, 0)], local).FallBack?
                      && exists i :: 0 <= i < FirstFailure(old(stored), items, b.failingPuts, 0)
                                     && i in b.failingDeletes)
      ensures stored == With(old(stored), items, |items|, left)
      ensures match CourseAfter(b.transact[Deciding(b, 0)], local)
              case Done => result.Created? && left == UpTo(|items|)
              case Raise(error) => result == error && left == {}
              case FallBack =>
                result == FallbackResult(old(stored), items, b) && left == FallbackLeft(old(stored), items, b)
    {
      ghost var base := stored;
      var attempt := 0;
      WithNothing(base, items, |items|);
      while attempt < MAX_ATTEMPTS
        invariant 0 <= attempt < MAX_ATTEMPTS
        invariant Deciding(b, 0) == Deciding(b, attempt)
        invariant stored == base
        decreases MAX_ATTEMPTS - attempt
      {
        var outcome := b.transact[attempt];
        TransactWrite(items, outcome);
        if outcome.Accepted? {
          WithLookup(base, items, |items|, UpTo(|items|));
          return Created, UpTo(|items|);
        }
        if outcome.Cancelled? && outcome.conflict && attempt < MAX_ATTEMPTS - 1 {
          attempt := attempt + 1;
          continue;
        }
        match CourseAfter(outcome, local) {
          case Raise(error) =>
            return error, {};
          case FallBack =>
            result, left := FallBackToPuts(items, b);
            return;
          case Done =>
        }
      }
    }

    /** The fallback and the translation of its errors. */
    method FallBackToPuts(items: seq<Item>, b: Backend) returns (result: Result, ghost left: set<nat>)
      requires DistinctKeys(items)
      modifies this
      ensures stored == With(old(stored), items, |items|, left)
      ensures result == FallbackResult(old(stored), items, b) && left == FallbackLeft(old(stored), items, b)
      ensures result.Created? ==>
                forall i :: 0 <= i < |items| ==> items[i].key in stored && stored[items[i].key] == items[i].body
      ensures !result.Created? ==>
                (stored != old(stored)
                 <==> exists i :: 0 <= i < FirstFailure(old(stored), items, b.failingPuts, 0) && i in b.failingDeletes)
    {
      ghost var base := stored;
      var put;
      put, left := PutItemsWithRollback(items, b);
      result := match put
        case Stored => Created
        case ConditionalCheckFailed => ConflictError
        case PutError => ClientError;
      if result.Created? {
        WithLookup(base, items, |items|, left);
      } else {
        TraceExactlyWhenRollbackFailed(base, items, b);
      }
    }
  }

  /** With working rollbacks a failed create leaves no trace. */
  lemma FailedCreateLeavesNoTrace(base: Items, items: seq<Item>, b: Backend)
    requires DistinctKeys(items) && FallbackResult(base, items, b) != Created && b.failingDeletes == {}
    ensures With(base, items, |items|, FallbackLeft(base, items, b)) == base
  {
    TraceExactlyWhenRollbackFailed(base, items, b);
  }
}
