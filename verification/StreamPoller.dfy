/** The stream poller: a lease so that one poller drains the queue at a time, and
    a drain that stores each event before it deletes the message. */
module StreamPoller {
  import opened Wrappers
  import opened ByteOrder
  import opened Marks

  // ----- events and their keys

  /** A message body once parsed. An event's timestamp is what Date.parse makes
      of it; anything without both parts is wrapped as an unknown event. */
  datatype Body =
    | Event(eventId: Option<string>, timestamp: Option<int>, content: string)
    | Other(content: string)

  /** The random id and the clock of one delivery. */
  datatype Draw = Draw(uuid: string, now: nat)

  function NormalizeEvent(b: Body, d: Draw): (e: Body)
    ensures e.Event?
  {
    if b.Event? then b else Event(Some(d.uuid), Some(d.now), b.content)
  }

  /** What a stored item owes its message: an event is stored as it came, and
      anything else whole, under the id and time of its delivery. */
  predicate Carries(item: Body, b: Body, d: Draw) {
    && item.Event? && item.content == b.content
    && (b.Event? ==> item == b)
    && (b.Other? ==> item.eventId == Some(d.uuid) && item.timestamp == Some(d.now))
  }

  lemma NormalizingCarries(b: Body, d: Draw, e: Body)
    ensures e == NormalizeEvent(b, d) <==> Carries(e, b, d)
  {
  }

  const TIMESTAMP_WIDTH: nat := 13

  function Zeros(n: int): (z: string)
    ensures forall i :: 0 <= i < |z| ==> z[i] == '0'
  {
    if n <= 0 then [] else seq(n, _ => '0')
  }

  function PadStart(s: string, w: nat): string {
    Zeros(w - |s|) + s
  }

  /** String(n), padded with zeros on the left to 13 characters. */
  function PadTimestamp(n: int): string {
    if n >= 0 then Padded(n, TIMESTAMP_WIDTH) else PadStart("-" + Padded(-n, 1), TIMESTAMP_WIDTH)
  }

  function TimestampOf(e: Body, d: Draw): int
    requires e.Event?
  {
    if e.timestamp.Some? && e.timestamp.value != 0 then e.timestamp.value else d.now
  }

  function IdOf(e: Body, d: Draw): string
    requires e.Event?
  {
    if e.eventId.Some? && e.eventId.value != "" then e.eventId.value else d.uuid
  }

  function EventKey(timestamp: int, id: string): string {
    PadTimestamp(timestamp) + ['#'] + id
  }

  function BuildEventKey(e: Body, d: Draw): string
    requires e.Event?
  {
    EventKey(TimestampOf(e, d), IdOf(e, d))
  }

  /** The key one delivery of a message stores it under. */
  function KeyFor(b: Body, d: Draw): string {
    BuildEventKey(NormalizeEvent(b, d), d)
  }

  /** The event brings its own id and a usable timestamp. */
  predicate SelfKeyed(b: Body) {
    b.Event? && b.eventId.Some? && b.eventId.value != "" && b.timestamp.Some? && b.timestamp.value != 0
  }

  /** An event goes by its own time, unless that is missing, unreadable or zero,
      and by its own id, unless that is missing or empty; the delivery stands in. */
  lemma KeyForIs(b: Body, d: Draw)
    ensures b.Other? ==> KeyFor(b, d) == EventKey(d.now, d.uuid)
    ensures b.Event? && b.timestamp in {None, Some(0)} && b.eventId in {None, Some("")} ==>
              KeyFor(b, d) == EventKey(d.now, d.uuid)
    ensures b.Event? && b.timestamp in {None, Some(0)} && b.eventId !in {None, Some("")} ==>
              KeyFor(b, d) == EventKey(d.now, b.eventId.value)
    ensures b.Event? && b.timestamp !in {None, Some(0)} && b.eventId in {None, Some("")} ==>
              KeyFor(b, d) == EventKey(b.timestamp.value, d.uuid)
    ensures SelfKeyed(b) ==> KeyFor(b, d) == EventKey(b.timestamp.value, b.eventId.value)
  {
  }

  /** A negative timestamp keeps its sign, behind the zeros. */
  lemma PadNegative(n: int)
    requires n < 0
    ensures var z := Zeros(TIMESTAMP_WIDTH - |"-" + Padded(-n, 1)|);
            PadTimestamp(n) == z + ['-'] + Padded(-n, 1) && Without(z, '-')
  {
  }

  lemma PadHasNoHash(n: int)
    ensures Without(PadTimestamp(n), '#')
  {
  }

  lemma SignShows(n: int, m: int)
    requires n < 0 <= m
    ensures PadTimestamp(n) != PadTimestamp(m)
  {
    PadNegative(n);
    var z, p := Zeros(TIMESTAMP_WIDTH - |"-" + Padded(-n, 1)|), PadTimestamp(n);
    assert p[|z|] == '-';
  }

  lemma NegativesDiffer(n: int, m: int)
    requires n < 0 && m < 0 && PadTimestamp(n) == PadTimestamp(m)
    ensures n == m
  {
    PadNegative(n);
    PadNegative(m);
    var z, z' := Zeros(TIMESTAMP_WIDTH - |"-" + Padded(-n, 1)|), Zeros(TIMESTAMP_WIDTH - |"-" + Padded(-m, 1)|);
    SplitAtFirst(z, z', Padded(-n, 1), Padded(-m, 1), '-');
    PaddedValue(-n, 1);
    PaddedValue(-m, 1);
  }

  lemma PadTimestampInjective(n: int, m: int)
    requires PadTimestamp(n) == PadTimestamp(m)
    ensures n == m
  {
    if n >= 0 && m >= 0 {
      PaddedValue(n, TIMESTAMP_WIDTH);
      PaddedValue(m, TIMESTAMP_WIDTH);
    } else if n < 0 && m < 0 {
      NegativesDiffer(n, m);
    } else if n < 0 {
      SignShows(n, m);
    } else {
      SignShows(m, n);
    }
  }

  /** A key gives back its timestamp and id, whatever they are. */
  lemma EventKeyInjective(t1: int, id1: string, t2: int, id2: string)
    ensures EventKey(t1, id1) == EventKey(t2, id2) <==> t1 == t2 && id1 == id2
  {
    if EventKey(t1, id1) == EventKey(t2, id2) {
      PadHasNoHash(t1);
      PadHasNoHash(t2);
      SplitAtFirst(PadTimestamp(t1), PadTimestamp(t2), id1, id2, '#');
      PadTimestampInjective(t1, t2);
    }
  }

  lemma ShortKey(t: nat, id: string)
    requires t < Pow10(TIMESTAMP_WIDTH)
    ensures EventKey(t, id) == Fixed(t, TIMESTAMP_WIDTH) + (['#'] + id)
  {
  }

  /** Until the year 2286 a key is thirteen digits of time, a '#' and the id. */
  lemma KeyLayout(t: nat, id: string)
    requires t < 10_000_000_000_000
    ensures var key := EventKey(t, id);
            |key| == 14 + |id| && ValueOf(key[..13]) == t && key[13] == '#' && key[14..] == id
  {
    PaddedValue(t, TIMESTAMP_WIDTH);
    ShortKey(t, id);
    assert EventKey(t, id)[..13] == PadTimestamp(t);
  }

  /** A reader that resumes after a key sees later events only: keys sort by
      time, then by id. */
  lemma EventKeyOrder(t1: nat, id1: string, t2: nat, id2: string)
    requires t1 < Pow10(TIMESTAMP_WIDTH) && t2 < Pow10(TIMESTAMP_WIDTH)
    ensures Less(EventKey(t1, id1), EventKey(t2, id2)) <==> t1 < t2 || (t1 == t2 && Less(id1, id2))
  {
    ShortKey(t1, id1);
    ShortKey(t2, id2);
    LessFixedFirst(t1, t2, TIMESTAMP_WIDTH, ['#'] + id1, ['#'] + id2);
    LessCommonPrefix(['#'], id1, id2);
  }

  lemma SameKeyIff(b: Body, d: Draw, d': Draw)
    ensures var e, e' := NormalizeEvent(b, d), NormalizeEvent(b, d');
            KeyFor(b, d) == KeyFor(b, d') <==> TimestampOf(e, d) == TimestampOf(e', d') && IdOf(e, d) == IdOf(e', d')
  {
    var e, e' := NormalizeEvent(b, d), NormalizeEvent(b, d');
    EventKeyInjective(TimestampOf(e, d), IdOf(e, d), TimestampOf(e', d'), IdOf(e', d'));
  }

  /** Every delivery of a message stores it under the same key exactly when the
      event has its own id and a timestamp that parses to something but zero. */
  lemma RedeliveryKeepsKeyIff(b: Body)
    ensures (forall d, d' :: KeyFor(b, d) == KeyFor(b, d')) <==> SelfKeyed(b)
  {
    if !SelfKeyed(b) {
      var d, d' := Draw("a", 1), Draw("b", 2);
      SameKeyIff(b, d, d');
      assert KeyFor(b, d) != KeyFor(b, d');
    }
  }

  // ----- the lease and the queue

  type Owner = string
  type Id = nat

  const LEASE_MS: nat := 55000

  datatype Lease = Lease(owner: Owner, expiresAt: nat)

  predicate CanAcquire(lease: Option<Lease>, owner: Owner, now: nat) {
    lease.Some? ==> lease.value.expiresAt < now || lease.value.owner == owner
  }

  /** A running poller: until when it believes it has the lease, what is left of
      its batch, and whether the first of these has been stored already. */
  datatype Poller = Poller(until: nat, batch: seq<Id>, persisted: bool)

  /** `kept` is bookkeeping: the random id and clock with which each message was
      last stored. */
  datatype State = State(
    clock: nat,
    lease: Option<Lease>,
    sent: map<Id, Body>,
    queue: set<Id>,
    table: map<string, Body>,
    kept: map<Id, Draw>,
    pollers: map<Owner, Poller>)

  const START := State(0, None, map[], {}, map[], map[], map[])

  datatype Step =
    | Tick(d: nat)
    | Send(id: Id, body: Body)
    | Acquire(owner: Owner, lag: nat)
    | Receive(owner: Owner, ids: seq<Id>)
    | Persist(owner: Owner, draw: Draw)
    | Delete(owner: Owner)
    | Release(owner: Owner, lag: nat)
    | Crash(owner: Owner)

  /** What a receive returns: messages still queued, in any order. */
  function Batch(s: State, ids: seq<Id>): seq<Id> {
    if forall i :: 0 <= i < |ids| ==> ids[i] in s.queue then ids else []
  }

  predicate HasWork(s: State, owner: Owner) {
    owner in s.pollers && s.pollers[owner].batch != [] && s.pollers[owner].batch[0] in s.sent
  }

  function Apply(s: State, step: Step): State {
    match step
    case Tick(d) => s.(clock := s.clock + d)
    case Send(id, body) => if id in s.sent then s else s.(sent := s.sent[id := body], queue := s.queue + {id})
    case Acquire(o, lag) =>
      var now := ClockReading(s.clock, lag);
      if CanAcquire(s.lease, o, now) then
        s.(lease := Some(Lease(o, now + LEASE_MS)), pollers := s.pollers[o := Poller(now + LEASE_MS, [], false)])
      else s
    case Receive(o, ids) =>
      if o in s.pollers && !s.pollers[o].persisted then
        s.(pollers := s.pollers[o := s.pollers[o].(batch := Batch(s, ids))])
      else s
    case Persist(o, d) =>
      if HasWork(s, o) then
        var b := s.sent[s.pollers[o].batch[0]];
        s.(table := s.table[KeyFor(b, d) := NormalizeEvent(b, d)], kept := s.kept[s.pollers[o].batch[0] := d],
           pollers := s.pollers[o := s.pollers[o].(persisted := true)])
      else s
    case Delete(o) =>
      if HasWork(s, o) && s.pollers[o].persisted then
        var batch := s.pollers[o].batch;
        s.(queue := s.queue - {batch[0]},
           pollers := s.pollers[o := s.pollers[o].(batch := batch[1..], persisted := false)])
      else s
    case Release(o, lag) =>
      var mine := s.lease.Some? && s.lease.value.owner == o;
      s.(lease := if mine then Some(Lease(o, ClockReading(s.clock, lag))) else s.lease, pollers := s.pollers - {o})
    case Crash(o) => s.(pollers := s.pollers - {o})
  }

  function Run(s: State, steps: seq<Step>): State
    decreases |steps|
  {
    if steps == [] then s else Run(Apply(s, steps[0]), steps[1..])
  }

  // ----- the lease

  /** A poller whose lease has not run out is the one the lease names. */
  ghost predicate LeaseOk(s: State) {
    forall o :: o in s.pollers && s.pollers[o].until >= s.clock ==> s.lease == Some(Lease(o, s.pollers[o].until))
  }

  lemma StepKeepsLease(s: State, step: Step)
    requires LeaseOk(s)
    ensures LeaseOk(Apply(s, step))
  {
  }

  lemma {:induction false} RunKeepsLease(s: State, steps: seq<Step>)
    requires LeaseOk(s)
    ensures LeaseOk(Run(s, steps))
    decreases |steps|
  {
    if steps != [] {
      StepKeepsLease(s, steps[0]);
      RunKeepsLease(Apply(s, steps[0]), steps[1..]);
    }
  }

  /** At any time of any run at most one poller has an unexpired lease. A late
      release by anybody else leaves that lease as it is, and nobody else can
      take it. */
  lemma OneLeaseHolder(steps: seq<Step>, o: Owner, other: Owner, lag: nat)
    requires var s := Run(START, steps); o in s.pollers && s.pollers[o].until >= s.clock && other != o
    ensures var s := Run(START, steps);
            && !(other in s.pollers && s.pollers[other].until >= s.clock)
            && Apply(s, Release(other, lag)).lease == s.lease == Some(Lease(o, s.pollers[o].until))
            && !CanAcquire(s.lease, other, ClockReading(s.clock, lag))
  {
    RunKeepsLease(START, steps);
  }

  /** A lease taken at one reading of the clock lasts 55 seconds, against everybody
      but its owner, or up to its release. */
  lemma LeaseLasts(s: State, o: Owner, lag: nat, releaseLag: nat, other: Owner, now: nat)
    requires CanAcquire(s.lease, o, ClockReading(s.clock, lag)) && other != o
    ensures var s' := Apply(s, Acquire(o, lag));
            && CanAcquire(s'.lease, o, now)
            && (CanAcquire(s'.lease, other, now) <==> now > ClockReading(s.clock, lag) + 55_000)
            && (CanAcquire(Apply(s', Release(o, releaseLag)).lease, other, now)
                <==> now > ClockReading(s.clock, releaseLag))
  {
  }

  // ----- the drain

  /** The message has been stored, and the table has an item under the key it was
      last stored with; with `exact` that item is the message itself. */
  ghost predicate Recorded(s: State, id: Id, exact: bool)
    requires id in s.sent
  {
    && id in s.kept && KeyFor(s.sent[id], s.kept[id]) in s.table
    && (exact ==> Carries(s.table[KeyFor(s.sent[id], s.kept[id])], s.sent[id], s.kept[id]))
  }

  ghost predicate PollerOk(s: State, o: Owner, exact: bool)
    requires o in s.pollers
  {
    var p := s.pollers[o];
    p.persisted ==> p.batch != [] && p.batch[0] in s.sent && Recorded(s, p.batch[0], exact)
  }

  ghost predicate MessageOk(s: State, id: Id, exact: bool)
    requires id in s.sent
  {
    id in s.queue || Recorded(s, id, exact)
  }

  ghost predicate DrainOk(s: State, exact: bool) {
    && (forall o :: o in s.pollers ==> PollerOk(s, o, exact))
    && (forall id :: id in s.sent ==> MessageOk(s, id, exact))
  }

  /** A put that overwrites an item does so with the same event. */
  predicate Unambiguous(s: State, step: Step) {
    step.Persist? && HasWork(s, step.owner) ==>
      var b := s.sent[s.pollers[step.owner].batch[0]];
      KeyFor(b, step.draw) in s.table ==> Carries(s.table[KeyFor(b, step.draw)], b, step.draw)
  }

  predicate AllUnambiguous(s: State, steps: seq<Step>)
    decreases |steps|
  {
    steps != [] ==> Unambiguous(s, steps[0]) && AllUnambiguous(Apply(s, steps[0]), steps[1..])
  }

  /** Storing a message records it, and what was recorded stays recorded. */
  lemma PersistRecords(s: State, o: Owner, d: Draw, id: Id, exact: bool)
    requires HasWork(s, o) && (exact ==> Unambiguous(s, Persist(o, d))) && id in s.sent
    requires id == s.pollers[o].batch[0] || Recorded(s, id, exact)
    ensures Recorded(Apply(s, Persist(o, d)), id, exact)
  {
  }

  lemma PersistKeepsDrain(s: State, o: Owner, d: Draw, exact: bool)
    requires DrainOk(s, exact) && HasWork(s, o) && (exact ==> Unambiguous(s, Persist(o, d)))
    ensures DrainOk(Apply(s, Persist(o, d)), exact)
  {
    var s' := Apply(s, Persist(o, d));
    forall q | q in s'.pollers ensures PollerOk(s', q, exact) {
      if s'.pollers[q].persisted {
        assert PollerOk(s, q, exact);
        PersistRecords(s, o, d, s'.pollers[q].batch[0], exact);
      }
    }
    forall id | id in s'.sent ensures MessageOk(s', id, exact) {
      assert MessageOk(s, id, exact);
      if id !in s.queue {
        PersistRecords(s, o, d, id, exact);
      }
    }
  }

  lemma DeleteKeepsDrain(s: State, o: Owner, exact: bool)
    requires DrainOk(s, exact)
    ensures DrainOk(Apply(s, Delete(o)), exact)
  {
    var s' := Apply(s, Delete(o));
    assert HasWork(s, o) ==> PollerOk(s, o, exact);
    forall q | q in s'.pollers ensures PollerOk(s', q, exact) {
      assert PollerOk(s, q, exact);
    }
    forall id | id in s'.sent ensures MessageOk(s', id, exact) {
      assert MessageOk(s, id, exact);
    }
  }

  /** What the other steps leave alone. */
  lemma OtherLeaves(s: State, step: Step)
    requires !step.Persist? && !step.Delete?
    ensures var s' := Apply(s, step);
            && s'.table == s.table && s'.kept == s.kept && s.queue <= s'.queue
            && (forall id :: id in s.sent ==> id in s'.sent && s'.sent[id] == s.sent[id])
            && (forall id :: id in s'.sent ==> id in s.sent || id in s'.queue)
            && (forall q :: q in s'.pollers && s'.pollers[q].persisted ==>
                  q in s.pollers && s.pollers[q] == s'.pollers[q])
  {
  }

  lemma OtherKeepsDrain(s: State, step: Step, exact: bool)
    requires DrainOk(s, exact) && !step.Persist? && !step.Delete?
    ensures DrainOk(Apply(s, step), exact)
  {
    var s' := Apply(s, step);
    OtherLeaves(s, step);
    forall q | q in s'.pollers ensures PollerOk(s', q, exact) {
      assert s'.pollers[q].persisted ==> PollerOk(s, q, exact);
    }
    forall id | id in s'.sent ensures MessageOk(s', id, exact) {
      assert id in s.sent ==> MessageOk(s, id, exact);
    }
  }

  lemma StepKeepsDrain(s: State, step: Step, exact: bool)
    requires DrainOk(s, exact) && (exact ==> Unambiguous(s, step))
    ensures DrainOk(Apply(s, step), exact)
  {
    match step
    case Persist(o, d) =>
      if HasWork(s, o) {
        PersistKeepsDrain(s, o, d, exact);
      }
    case Delete(o) => DeleteKeepsDrain(s, o, exact);
    case _ => OtherKeepsDrain(s, step, exact);
  }

  lemma {:induction false} RunKeepsDrain(s: State, steps: seq<Step>, exact: bool)
    requires DrainOk(s, exact) && (exact ==> AllUnambiguous(s, steps))
    ensures DrainOk(Run(s, steps), exact)
    decreases |steps|
  {
    if steps != [] {
      StepKeepsDrain(s, steps[0], exact);
      RunKeepsDrain(Apply(s, steps[0]), steps[1..], exact);
    }
  }

  /** No message is ever lost, whoever crashes and however leases overlap: it is
      still in the queue or there is an item under the key it was stored with,
      and that item is its event if no two events share an id and a timestamp. */
  lemma NoMessageLost(steps: seq<Step>, id: Id)
    requires id in Run(START, steps).sent
    ensures var s := Run(START, steps);
            && (id in s.queue || Recorded(s, id, false))
            && (AllUnambiguous(START, steps) ==> id in s.queue || Recorded(s, id, true))
  {
    var s := Run(START, steps);
    RunKeepsDrain(START, steps, false);
    assert MessageOk(s, id, false);
    if AllUnambiguous(START, steps) {
      RunKeepsDrain(START, steps, true);
      assert MessageOk(s, id, true);
    }
  }

  /** Two messages that have left the queue have two items, unless they agree on
      the id and the timestamp they were stored with. */
  lemma SeparateItems(steps: seq<Step>, id1: Id, id2: Id)
    requires var s := Run(START, steps); id1 in s.sent && id2 in s.sent && id1 !in s.queue && id2 !in s.queue
    ensures var s := Run(START, steps);
            && id1 in s.kept && id2 in s.kept
            && var b1, d1, b2, d2 := s.sent[id1], s.kept[id1], s.sent[id2], s.kept[id2];
               var e1, e2 := NormalizeEvent(b1, d1), NormalizeEvent(b2, d2);
               && KeyFor(b1, d1) in s.table && KeyFor(b2, d2) in s.table
               && (KeyFor(b1, d1) == KeyFor(b2, d2)
                   <==> TimestampOf(e1, d1) == TimestampOf(e2, d2) && IdOf(e1, d1) == IdOf(e2, d2))
  {
    NoMessageLost(steps, id1);
    NoMessageLost(steps, id2);
    var s := Run(START, steps);
    var d1, d2 := s.kept[id1], s.kept[id2];
    var e1, e2 := NormalizeEvent(s.sent[id1], d1), NormalizeEvent(s.sent[id2], d2);
    EventKeyInjective(TimestampOf(e1, d1), IdOf(e1, d1), TimestampOf(e2, d2), IdOf(e2, d2));
  }

  /** Each item lies under a key of the event it holds. */
  ghost predicate KeyedOk(s: State) {
    forall k :: k in s.table ==> s.table[k].Event? && exists d :: k == BuildEventKey(s.table[k], d)
  }

  lemma StepKeepsKeys(s: State, step: Step)
    requires KeyedOk(s)
    ensures KeyedOk(Apply(s, step))
  {
  }

  lemma {:induction false} RunKeepsKeys(s: State, steps: seq<Step>)
    requires KeyedOk(s)
    ensures KeyedOk(Run(s, steps))
    decreases |steps|
  {
    if steps != [] {
      StepKeepsKeys(s, steps[0]);
      RunKeepsKeys(Apply(s, steps[0]), steps[1..]);
    }
  }

  /** However often an event with its own id and timestamp is delivered, and by
      however many pollers, it is stored once. */
  lemma OneItemPerEvent(steps: seq<Step>, k1: string, k2: string)
    requires var table := Run(START, steps).table;
             k1 in table && k2 in table && table[k1] == table[k2] && SelfKeyed(table[k1])
    ensures k1 == k2
  {
    RunKeepsKeys(START, steps);
    var e := Run(START, steps).table[k1];
    var d1 :| k1 == BuildEventKey(e, d1);
    var d2 :| k2 == BuildEventKey(e, d2);
    RedeliveryKeepsKeyIff(e);
    assert KeyFor(e, d1) == KeyFor(e, d2);
  }

  // ----- the handler

  lemma {:induction false} RunAppend(s: State, a: seq<Step>, b: seq<Step>)
    ensures Run(s, a + b) == Run(Run(s, a), b)
    decreases |a|
  {
    if a == [] {
      assert a + b == b;
    } else {
      assert (a + b)[1..] == a[1..] + b;
      RunAppend(Apply(s, a[0]), a[1..], b);
    }
  }

  lemma Assoc(a: seq<Step>, b: seq<Step>, c: seq<Step>)
    ensures a + (b + c) == (a + b) + c
  {
  }

  lemma OneMore(s: State, steps: seq<Step>, step: Step)
    ensures Run(s, steps + [step]) == Apply(Run(s, steps), step)
  {
    RunAppend(s, steps, [step]);
    assert Run(Run(s, steps), [step]) == Apply(Run(s, steps), step);
  }

  /** A step of somebody other than `o`. A request id names one invocation. */
  predicate Foreign(step: Step, o: Owner) {
    match step
    case Tick(_) => true
    case Send(_, _) => true
    case _ => step.owner != o
  }

  predicate AllForeign(steps: seq<Step>, o: Owner) {
    forall i :: 0 <= i < |steps| ==> Foreign(steps[i], o)
  }

  /** `o` is running with this batch, and all that is queued was sent. */
  predicate Running(s: State, o: Owner, batch: seq<Id>, persisted: bool) {
    && o in s.pollers && s.pollers[o].batch == batch && s.pollers[o].persisted == persisted
    && s.queue <= s.sent.Keys
    && forall i :: 0 <= i < |batch| ==> batch[i] in s.sent
  }

  lemma {:induction false} ForeignLeaves(s: State, steps: seq<Step>, o: Owner, batch: seq<Id>, persisted: bool)
    requires AllForeign(steps, o) && Running(s, o, batch, persisted)
    ensures Running(Run(s, steps), o, batch, persisted)
    decreases |steps|
  {
    if steps != [] {
      assert Foreign(steps[0], o);
      ForeignLeaves(Apply(s, steps[0]), steps[1..], o, batch, persisted);
    }
  }

  // What an invocation receives in the course of a run, and how often it asks.

  predicate Asks(step: Step, o: Owner) {
    step.Receive? && step.owner == o
  }

  function Received(s: State, steps: seq<Step>, o: Owner): seq<Id>
    decreases |steps|
  {
    if steps == [] then []
    else (if Asks(steps[0], o) then Batch(s, steps[0].ids) else []) + Received(Apply(s, steps[0]), steps[1..], o)
  }

  function Receives(steps: seq<Step>, o: Owner): nat {
    if steps == [] then 0 else (if Asks(steps[0], o) then 1 else 0) + Receives(steps[1..], o)
  }

  lemma {:induction false} ReceivedAppend(s: State, a: seq<Step>, b: seq<Step>, o: Owner)
    ensures Received(s, a + b, o) == Received(s, a, o) + Received(Run(s, a), b, o)
    ensures Receives(a + b, o) == Receives(a, o) + Receives(b, o)
    decreases |a|
  {
    if a == [] {
      assert a + b == b;
    } else {
      assert (a + b)[1..] == a[1..] + b;
      ReceivedAppend(Apply(s, a[0]), a[1..], b, o);
    }
  }

  predicate Quiet(steps: seq<Step>, o: Owner) {
    forall i :: 0 <= i < |steps| ==> !Asks(steps[i], o)
  }

  lemma {:induction false} QuietReceivesNothing(s: State, steps: seq<Step>, o: Owner)
    requires Quiet(steps, o)
    ensures Received(s, steps, o) == [] && Receives(steps, o) == 0
    decreases |steps|
  {
    if steps != [] {
      assert !Asks(steps[0], o);
      QuietReceivesNothing(Apply(s, steps[0]), steps[1..], o);
    }
  }

  lemma QuietAppend(s: State, a: seq<Step>, b: seq<Step>, o: Owner)
    requires Quiet(b, o)
    ensures Received(s, a + b, o) == Received(s, a, o) && Receives(a + b, o) == Receives(a, o)
  {
    ReceivedAppend(s, a, b, o);
    QuietReceivesNothing(Run(s, a), b, o);
  }

  lemma ForeignIsQuiet(steps: seq<Step>, o: Owner)
    requires AllForeign(steps, o)
    ensures Quiet(steps, o)
  {
    forall i | 0 <= i < |steps| ensures !Asks(steps[i], o) {
      assert Foreign(steps[i], o);
    }
  }

  /** One turn's steps: others', then the receive, then steps that do not ask. */
  lemma TurnReceives(s: State, others: seq<Step>, ids: seq<Id>, rest: seq<Step>, o: Owner)
    requires AllForeign(others, o) && Quiet(rest, o)
    ensures var steps := others + [Receive(o, ids)] + rest;
            Received(s, steps, o) == Batch(Run(s, others), ids) && Receives(steps, o) == 1
  {
    ForeignIsQuiet(others, o);
    QuietReceivesNothing(s, others, o);
    var one := [Receive(o, ids)];
    ReceivedAppend(s, others, one, o);
    assert one[1..] == [];
    assert Received(Run(s, others), one, o) == Batch(Run(s, others), ids) + [];
    assert Receives(one, o) == 1 + Receives([], o);
    QuietAppend(s, others + one, rest, o);
  }

  predicate Gone(s: State, done: seq<Id>) {
    forall i :: 0 <= i < |done| ==> done[i] in s.sent && done[i] !in s.queue
  }

  /** A message once deleted never comes back. */
  lemma {:induction false} GoneStaysGone(s: State, steps: seq<Step>, done: seq<Id>)
    requires Gone(s, done)
    ensures Gone(Run(s, steps), done)
    decreases |steps|
  {
    if steps != [] {
      GoneStaysGone(Apply(s, steps[0]), steps[1..], done);
    }
  }

  lemma OneMoreGone(s: State, earlier: seq<Id>, done: seq<Id>, id: Id)
    requires Gone(s, earlier + done) && Gone(s, [id])
    ensures Gone(s, earlier + (done + [id]))
  {
    assert earlier + (done + [id]) == (earlier + done) + [id];
    assert [id][0] == id;
  }

  /** How the backend and the clock treat one message, and what others do
      between storing and deleting it. */
  datatype Delivery = Delivery(draw: Draw, persistOk: bool, deleteOk: bool, timeUp: bool, others: seq<Step>)

  /** What others do before a receive, whether it succeeds, what it finds, and how
      the messages fare. */
  datatype Turn = Turn(others: seq<Step>, receiveOk: bool, received: seq<Id>, deliveries: seq<Delivery>)

  predicate TurnOk(turn: Turn, o: Owner) {
    && AllForeign(turn.others, o) && |turn.deliveries| == |turn.received|
    && forall i :: 0 <= i < |turn.deliveries| ==> AllForeign(turn.deliveries[i].others, o)
  }

  predicate Succeeds(d: Delivery) {
    d.persistOk && d.deleteOk
  }

  /** How many of the messages from the i-th on are dealt with successfully. */
  function Successes(deliveries: seq<Delivery>, i: nat): (n: nat)
    requires i <= |deliveries|
    ensures n <= |deliveries| - i
    decreases |deliveries| - i
  {
    if i == |deliveries| || !Succeeds(deliveries[i]) then 0
    else if deliveries[i].timeUp then 1
    else 1 + Successes(deliveries, i + 1)
  }

  /** The steps one message gives rise to. */
  function MessageSteps(o: Owner, d: Delivery): seq<Step> {
    if !d.persistOk then []
    else [Persist(o, d.draw)] + d.others + if d.deleteOk then [Delete(o)] else []
  }

  /** Those of a batch from the i-th message on: up to the first failure or the
      end of the time. */
  function BatchSteps(o: Owner, deliveries: seq<Delivery>, i: nat): seq<Step>
    requires i <= |deliveries|
    decreases |deliveries| - i
  {
    if i == |deliveries| then []
    else
      MessageSteps(o, deliveries[i])
      + if Succeeds(deliveries[i]) && !deliveries[i].timeUp then BatchSteps(o, deliveries, i + 1) else []
  }

  /** From the i-th message on nothing fails and time does not run out. */
  predicate GoesOn(deliveries: seq<Delivery>, i: nat)
    requires i <= |deliveries|
    decreases |deliveries| - i
  {
    i < |deliveries| ==> Succeeds(deliveries[i]) && !deliveries[i].timeUp && GoesOn(deliveries, i + 1)
  }

  predicate Smooth(turn: Turn) {
    turn.receiveOk && GoesOn(turn.deliveries, 0)
  }

  /** The steps of one turn that starts in state s. */
  function TurnSteps(s: State, o: Owner, turn: Turn): seq<Step> {
    if !turn.receiveOk then turn.others
    else
      turn.others + [Receive(o, turn.received)]
      + if Batch(Run(s, turn.others), turn.received) == [] then [] else BatchSteps(o, turn.deliveries, 0)
  }

  /** Whether another turn follows, time permitting. */
  predicate TurnGoesOn(s: State, o: Owner, turn: Turn) {
    turn.receiveOk && (Batch(Run(s, turn.others), turn.received) == [] || GoesOn(turn.deliveries, 0))
  }

  /** The steps of the loop from the i-th turn on. */
  function LoopSteps(s: State, o: Owner, turns: seq<Turn>, i: nat): seq<Step>
    requires i <= |turns|
    decreases |turns| - i
  {
    if i == |turns| then []
    else
      var first := TurnSteps(s, o, turns[i]);
      first + if TurnGoesOn(s, o, turns[i]) then LoopSteps(Run(s, first), o, turns, i + 1) else []
  }

  lemma MessageIsQuiet(o: Owner, d: Delivery)
    requires AllForeign(d.others, o)
    ensures Quiet(MessageSteps(o, d), o)
  {
    ForeignIsQuiet(d.others, o);
  }

  lemma {:induction false} BatchIsQuiet(o: Owner, deliveries: seq<Delivery>, i: nat)
    requires i <= |deliveries| && forall j :: 0 <= j < |deliveries| ==> AllForeign(deliveries[j].others, o)
    ensures Quiet(BatchSteps(o, deliveries, i), o)
    decreases |deliveries| - i
  {
    if i < |deliveries| {
      MessageIsQuiet(o, deliveries[i]);
      BatchIsQuiet(o, deliveries, i + 1);
    }
  }

  datatype End = LeaseUnavailable | Completed | Raised

  /** The lease item, the stream table and the queue. */
  class Stream {
    var clock: nat
    var lease: Option<Lease>
    var sent: map<Id, Body>
    var queue: set<Id>
    var table: map<string, Body>
    var kept: map<Id, Draw>
    var pollers: map<Owner, Poller>

    constructor ()
      ensures View() == START
    {
      clock, lease, sent, queue, table, kept, pollers := 0, None, map[], {}, map[], map[], map[];
    }

    function View(): State
      reads this
    {
      State(clock, lease, sent, queue, table, kept, pollers)
    }

    method AcquireLease(o: Owner, lag: nat) returns (ok: bool)
      modifies this
      ensures View() == Apply(old(View()), Acquire(o, lag))
      ensures ok <==> CanAcquire(old(lease), o, ClockReading(old(clock), lag))
    {
      var now := ClockReading(clock, lag);
      if lease.Some? && lease.value.expiresAt >= now && lease.value.owner != o {
        return false;
      }
      lease := Some(Lease(o, now + LEASE_MS));
      pollers := pollers[o := Poller(now + LEASE_MS, [], false)];
      return true;
    }

    method ReleaseLease(o: Owner, lag: nat)
      modifies this
      ensures View() == Apply(old(View()), Release(o, lag))
    {
      if lease.Some? && lease.value.owner == o {
        lease := Some(Lease(o, ClockReading(clock, lag)));
      }
      pollers := pollers - {o};
    }

    /** Everybody else's steps, one after the other. */
    method Others(steps: seq<Step>)
      modifies this
      ensures View() == Run(old(View()), steps)
    {
      var i := 0;
      while i < |steps|
        invariant 0 <= i <= |steps|
        invariant Run(View(), steps[i..]) == Run(old(View()), steps)
      {
        assert steps[i..][1..] == steps[i + 1..];
        var s := Apply(View(), steps[i]);
        clock, lease, sent, queue, table := s.clock, s.lease, s.sent, s.queue, s.table;
        kept, pollers := s.kept, s.pollers;
        i := i + 1;
      }
    }

    method ReceiveMessages(o: Owner, received: seq<Id>) returns (messages: seq<Id>)
      requires Running(View(), o, [], false)
      modifies this
      ensures View() == Apply(old(View()), Receive(o, received))
      ensures messages == Batch(old(View()), received) && Running(View(), o, messages, false)
    {
      messages := Batch(View(), received);
      pollers := pollers[o := pollers[o].(batch := messages)];
    }

    method PersistEvent(o: Owner, batch: seq<Id>, draw: Draw)
      requires batch != [] && Running(View(), o, batch, false)
      modifies this
      ensures View() == Apply(old(View()), Persist(o, draw)) && Running(View(), o, batch, true)
      ensures Recorded(View(), batch[0], true)
    {
      var body := sent[batch[0]];
      table := table[KeyFor(body, draw) := NormalizeEvent(body, draw)];
      kept := kept[batch[0] := draw];
      pollers := pollers[o := pollers[o].(persisted := true)];
    }

    method DeleteMessage(o: Owner, batch: seq<Id>)
      requires batch != [] && Running(View(), o, batch, true)
      modifies this
      ensures View() == Apply(old(View()), Delete(o)) && Running(View(), o, batch[1..], false)
      ensures Gone(View(), [batch[0]])
    {
      queue := queue - {batch[0]};
      pollers := pollers[o := pollers[o].(batch := batch[1..], persisted := false)];
    }

    /** Store the event; then others may act before the message is deleted. */
    method StoreEvent(o: Owner, batch: seq<Id>, delivery: Delivery) returns (ghost steps: seq<Step>)
      requires batch != [] && Running(View(), o, batch, false) && AllForeign(delivery.others, o)
      modifies this
      ensures steps == [Persist(o, delivery.draw)] + delivery.others
      ensures View() == Run(old(View()), steps) && Running(View(), o, batch, true)
    {
      ghost var start, first := View(), [Persist(o, delivery.draw)];
      PersistEvent(o, batch, delivery.draw);
      assert Run(start, first) == Apply(start, first[0]);
      ForeignLeaves(View(), delivery.others, o, batch, true);
      Others(delivery.others);
      RunAppend(start, first, delivery.others);
      steps := first + delivery.others;
    }

    /** Store the event, then delete the message; a failing call ends it there. */
    method ProcessMessage(o: Owner, batch: seq<Id>, delivery: Delivery) returns (ok: bool, ghost steps: seq<Step>)
      requires batch != [] && Running(View(), o, batch, false) && AllForeign(delivery.others, o)
      modifies this
      ensures View() == Run(old(View()), steps) && steps == MessageSteps(o, delivery)
      ensures ok <==> Succeeds(delivery)
      ensures ok ==> Running(View(), o, batch[1..], false) && Gone(View(), [batch[0]])
      ensures delivery.persistOk && delivery.others == [] ==> batch[0] in sent && Recorded(View(), batch[0], true)
    {
      steps := [];
      if !delivery.persistOk {
        return false, steps;
      }
      ghost var start := View();
      steps := StoreEvent(o, batch, delivery);
      if !delivery.deleteOk {
        return false, steps;
      }
      DeleteMessage(o, batch);
      OneMore(start, steps, Delete(o));
      steps := steps + [Delete(o)];
      return true, steps;
    }

    /** The messages in order, until a call fails or time is up. */
    method ProcessBatch(o: Owner, messages: seq<Id>, deliveries: seq<Delivery>, ghost earlier: seq<Id>)
      returns (processed: nat, ok: bool, timeUp: bool, ghost steps: seq<Step>)
      requires |deliveries| == |messages| && forall i :: 0 <= i < |deliveries| ==> AllForeign(deliveries[i].others, o)
      requires Running(View(), o, messages, false) && Gone(View(), earlier)
      modifies this
      ensures View() == Run(old(View()), steps) && steps == BatchSteps(o, deliveries, 0)
      ensures processed == Successes(deliveries, 0) && Gone(View(), earlier + messages[..processed])
      ensures ok && !timeUp <==> GoesOn(deliveries, 0)
      ensures ok && !timeUp ==> processed == |messages| && Running(View(), o, [], false)
      ensures !ok ==> processed < |deliveries| && !Succeeds(deliveries[processed])
    {
      ghost var start := View();
      processed, ok, timeUp, steps := 0, true, false, [];
      assert earlier + messages[..0] == earlier;
      while processed < |messages| && ok && !timeUp
        invariant 0 <= processed <= |messages|
        invariant View() == Run(start, steps)
        invariant BatchSteps(o, deliveries, 0)
                  == steps + if ok && !timeUp then BatchSteps(o, deliveries, processed) else []
        invariant Successes(deliveries, 0) == processed + if ok && !timeUp then Successes(deliveries, processed) else 0
        invariant GoesOn(deliveries, 0) <==> ok && !timeUp && GoesOn(deliveries, processed)
        invariant ok && !timeUp ==> Running(View(), o, messages[processed..], false)
        invariant !ok ==> processed < |messages| && !Succeeds(deliveries[processed])
        invariant Gone(View(), earlier + messages[..processed])
        decreases |messages| - processed, ok
      {
        var d := deliveries[processed];
        Assoc(steps, MessageSteps(o, d),
              if Succeeds(d) && !d.timeUp then BatchSteps(o, deliveries, processed + 1) else []);
        ok, steps := NextMessage(o, messages, d, processed, earlier, start, steps);
        if ok {
          timeUp := d.timeUp;
          processed := processed + 1;
        }
      }
    }

    /** The loop's body, and what it does not disturb. */
    method NextMessage(o: Owner, messages: seq<Id>, delivery: Delivery, i: nat, ghost earlier: seq<Id>,
                       ghost start: State, ghost steps: seq<Step>)
      returns (ok: bool, ghost steps': seq<Step>)
      requires i < |messages| && AllForeign(delivery.others, o)
      requires Running(View(), o, messages[i..], false) && Gone(View(), earlier + messages[..i])
      requires View() == Run(start, steps)
      modifies this
      ensures steps' == steps + MessageSteps(o, delivery)
      ensures View() == Run(start, steps')
      ensures ok <==> Succeeds(delivery)
      ensures Gone(View(), earlier + messages[..if ok then i + 1 else i])
      ensures ok ==> Running(View(), o, messages[i + 1..], false)
    {
      ghost var before, did := View(), [];
      ok, did := ProcessMessage(o, messages[i..], delivery);
      GoneStaysGone(before, did, earlier + messages[..i]);
      RunAppend(start, steps, did);
      steps' := steps + did;
      if ok {
        assert messages[i..][0] == messages[i] && messages[i..][1..] == messages[i + 1..];
        OneMoreGone(View(), earlier, messages[..i], messages[i]);
        assert messages[..i] + [messages[i]] == messages[..i + 1];
      }
    }

    /** The handler's loop body: receive a batch and process it. */
    method OneTurn(o: Owner, turn: Turn, ghost earlier: seq<Id>)
      returns (processed: nat, ok: bool, timeUp: bool, ghost done: seq<Id>, ghost steps: seq<Step>)
      requires TurnOk(turn, o) && Running(View(), o, [], false) && Gone(View(), earlier)
      modifies this
      ensures View() == Run(old(View()), steps) && steps == TurnSteps(old(View()), o, turn)
      ensures ok && !timeUp <==> TurnGoesOn(old(View()), o, turn)
      ensures ok && !timeUp ==> Running(View(), o, [], false)
      ensures !ok ==> !turn.receiveOk || exists d :: d in turn.deliveries && !Succeeds(d)
      ensures processed == |done| && Gone(View(), earlier + done)
      ensures var messages := Batch(Run(old(View()), turn.others), turn.received);
              if !turn.receiveOk || messages == [] then done == []
              else done == messages[..Successes(turn.deliveries, 0)]
      ensures ok && !timeUp ==> Received(old(View()), steps, o) == done && Receives(steps, o) == 1
      ensures done <= Received(old(View()), steps, o) && Receives(steps, o) <= 1
    {
      ghost var start := View();
      ForeignLeaves(start, turn.others, o, [], false);
      Others(turn.others);
      GoneStaysGone(start, turn.others, earlier);
      processed, ok, timeUp, done, steps := 0, turn.receiveOk, false, [], turn.others;
      assert earlier + done == earlier;
      if !ok {
        ForeignIsQuiet(steps, o);
        QuietReceivesNothing(start, steps, o);
        return;
      }
      ghost var met := View();
      var messages := ReceiveMessages(o, turn.received);
      steps := steps + [Receive(o, turn.received)];
      OneMore(start, turn.others, Receive(o, turn.received));
      GoneStaysGone(start, steps, earlier);
      ghost var rest := [];
      assert steps + rest == steps;
      if messages != [] {
        processed, ok, timeUp, rest := ProcessBatch(o, messages, turn.deliveries, earlier);
        done := messages[..processed];
        RunAppend(start, steps, rest);
        BatchIsQuiet(o, turn.deliveries, 0);
      }
      TurnReceives(start, turn.others, turn.received, rest, o);
      steps := steps + rest;
    }

    /** One invocation: the lease, the turns, and the lease given up again however
        the loop ends. Each message counted as processed is gone for good; if
        nothing fails and time lasts, these are all that were received. */
    method Handler(o: Owner, turns: seq<Turn>, lag: nat, releaseLag: nat)
      returns (processed: nat, end: End, ghost done: seq<Id>, ghost steps: seq<Step>)
      requires View().queue <= View().sent.Keys && forall i :: 0 <= i < |turns| ==> TurnOk(turns[i], o)
      modifies this
      ensures View() == Run(old(View()), steps)
      ensures var leased := Apply(old(View()), Acquire(o, lag));
              steps == [Acquire(o, lag)]
                       + if end.LeaseUnavailable? then [] else LoopSteps(leased, o, turns, 0) + [Release(o, releaseLag)]
      ensures end.LeaseUnavailable? <==> !CanAcquire(old(lease), o, ClockReading(old(clock), lag))
      ensures end.LeaseUnavailable? ==> View() == old(View()) && processed == 0
      ensures !end.LeaseUnavailable? ==>
                o !in pollers && (lease.Some? && lease.value.owner == o ==> lease.value.expiresAt <= clock)
      ensures processed == |done| && Gone(View(), done) && done <= Received(old(View()), steps, o)
      ensures !end.LeaseUnavailable? && (forall i :: 0 <= i < |turns| ==> Smooth(turns[i])) ==>
                end.Completed? && Receives(steps, o) == |turns| && done == Received(old(View()), steps, o)
    {
      ghost var start := View();
      processed, done, steps := 0, [], [Acquire(o, lag)];
      assert Run(start, steps) == Apply(start, Acquire(o, lag)) && steps[1..] == [];
      QuietReceivesNothing(start, steps, o);
      var leased := AcquireLease(o, lag);
      if !leased {
        assert steps + [] == steps;
        return processed, LeaseUnavailable, done, steps;
      }
      ghost var did;
      processed, end, done, did := DrainAndRelease(o, turns, releaseLag);
      RunAppend(start, steps, did);
      ReceivedAppend(start, steps, did, o);
      steps := steps + did;
    }

    /** The loop and the release after it. */
    method DrainAndRelease(o: Owner, turns: seq<Turn>, releaseLag: nat)
      returns (processed: nat, end: End, ghost done: seq<Id>, ghost steps: seq<Step>)
      requires Running(View(), o, [], false) && forall i :: 0 <= i < |turns| ==> TurnOk(turns[i], o)
      modifies this
      ensures View() == Run(old(View()), steps)
      ensures steps == LoopSteps(old(View()), o, turns, 0) + [Release(o, releaseLag)]
      ensures !end.LeaseUnavailable?
      ensures o !in pollers && (lease.Some? && lease.value.owner == o ==> lease.value.expiresAt <= clock)
      ensures processed == |done| && Gone(View(), done) && done <= Received(old(View()), steps, o)
      ensures (forall i :: 0 <= i < |turns| ==> Smooth(turns[i])) ==>
                end.Completed? && Receives(steps, o) == |turns| && done == Received(old(View()), steps, o)
    {
      ghost var start := View();
      processed, end, done, steps := DrainQueue(o, turns);
      ghost var last := Release(o, releaseLag);
      GoneStaysGone(View(), [last], done);
      assert Run(View(), [last]) == Apply(View(), last);
      OneMore(start, steps, last);
      QuietAppend(start, steps, [last], o);
      ReleaseLease(o, releaseLag);
      steps := steps + [last];
    }

    /** One more turn, in terms of the whole run so far. */
    method NextTurn(o: Owner, turn: Turn, processed: nat, ghost done: seq<Id>, ghost start: State,
                    ghost steps: seq<Step>)
      returns (processed': nat, ok: bool, timeUp: bool, ghost done': seq<Id>, ghost steps': seq<Step>)
      requires TurnOk(turn, o) && Running(View(), o, [], false) && View() == Run(start, steps)
      requires processed == |done| && Gone(View(), done) && done == Received(start, steps, o)
      modifies this
      ensures steps' == steps + TurnSteps(old(View()), o, turn) && View() == Run(start, steps')
      ensures View() == Run(old(View()), TurnSteps(old(View()), o, turn))
      ensures ok && !timeUp <==> TurnGoesOn(old(View()), o, turn)
      ensures ok && !timeUp ==> Running(View(), o, [], false)
      ensures processed' == |done'| && Gone(View(), done') && done' <= Received(start, steps', o)
      ensures ok && !timeUp ==> done' == Received(start, steps', o) && Receives(steps', o) == Receives(steps, o) + 1
    {
      var more;
      ghost var did, did';
      more, ok, timeUp, did, did' := OneTurn(o, turn, done);
      RunAppend(start, steps, did');
      ReceivedAppend(start, steps, did', o);
      processed', done', steps' := processed + more, done + did, steps + did';
    }

    /** The loop, while time remains. */
    method DrainQueue(o: Owner, turns: seq<Turn>)
      returns (processed: nat, end: End, ghost done: seq<Id>, ghost steps: seq<Step>)
      requires Running(View(), o, [], false) && forall i :: 0 <= i < |turns| ==> TurnOk(turns[i], o)
      modifies this
      ensures View() == Run(old(View()), steps) && steps == LoopSteps(old(View()), o, turns, 0)
      ensures !end.LeaseUnavailable?
      ensures processed == |done| && Gone(View(), done) && done <= Received(old(View()), steps, o)
      ensures (forall i :: 0 <= i < |turns| ==> Smooth(turns[i])) ==>
                end.Completed? && Receives(steps, o) == |turns| && done == Received(old(View()), steps, o)
    {
      ghost var start := View();
      processed, end, done, steps := 0, Completed, [], [];
      var used, timeUp := 0, false;
      while used < |turns| && !timeUp && end.Completed?
        invariant 0 <= used <= |turns| && !end.LeaseUnavailable?
        invariant View() == Run(start, steps)
        invariant end.Completed? && !timeUp ==> Running(View(), o, [], false)
        invariant LoopSteps(start, o, turns, 0)
                  == steps + if end.Completed? && !timeUp then LoopSteps(View(), o, turns, used) else []
        invariant processed == |done| && Gone(View(), done) && done <= Received(start, steps, o)
        invariant end.Completed? && !timeUp ==> done == Received(start, steps, o) && Receives(steps, o) == used
        invariant (forall i :: 0 <= i < |turns| ==> Smooth(turns[i])) ==> end.Completed? && !timeUp
        decreases |turns| - used
      {
        var turn, fine := turns[used], true;
        ghost var first, goes := TurnSteps(View(), o, turn), TurnGoesOn(View(), o, turn);
        Assoc(steps, first, if goes then LoopSteps(Run(View(), first), o, turns, used + 1) else []);
        processed, fine, timeUp, done, steps := NextTurn(o, turn, processed, done, start, steps);
        used := used + 1;
        if !fine {
          end := Raised;
        }
      }
    }
  }
}
