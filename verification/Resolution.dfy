/** Whatever the writers have done to it, an open request can still be brought to
    its end, and how many steps that takes. */
module Resolution {
  import opened Wrappers
  import opened RequestLifecycle
  import opened RequestStore
  import opened Writers
  import opened EventLog
  import opened Outcomes

  /** Staff who have read CURRENT ask for this status and bring all it can need. */
  function Ask(w: World, r: RequestId, target: Status, f: Fresh): Act {
    Do(r, Get(w.store.current, r),
       Transition(target, "staff", Payload(Some("unit"), Some("reason"), Null, None, None), None), f)
  }

  /** They get it exactly if the request is open and the status may follow, and
      otherwise nothing changes. */
  lemma AskedForIff(w: World, r: RequestId, target: Status, f: Fresh)
    requires Inv(w) && r in w.store.current && f.now != ""
    ensures var a, c := Ask(w, r, target, f), w.store.current[r];
            && Enabled(w, a) && ClockOk(a) && Inv(Step(w, a)) && r in Step(w, a).store.current
            && (if !IsTerminal(c.status) && MayFollow(c.status, target)
                then Step(w, a).store.current[r].status == target
                else Step(w, a) == w)
  {
    var a, c := Ask(w, r, target, f), w.store.current[r];
    assert RequestOk(w, r);
    assert c == PastOf(w, r)[|PastOf(w, r)| - 1];
    StepKeepsInv(w, a);
    TransitionDecidedIff(c, a.call, f);
    if Decide(Some(c), a.call, f).Append? {
      CommitsExactlyWhenCurrent(w, r, c, a.call, f);
      TransitionLeaves(w, r, c, a.call, f);
    }
  }

  function Next(s: Status): Status {
    match s
    case SUBMITTED => ASSIGNED
    case TRIAGED => ASSIGNED
    case ASSIGNED => IN_PROGRESS
    case _ => RESOLVED
  }

  /** How many transitions a request is away from being resolved. */
  function Left(s: Status): nat {
    if s == SUBMITTED then 3 else 4 - Rank(s)
  }

  /** What staff can do one after the other. */
  ghost predicate ByStaff(w: World, r: RequestId, targets: seq<Status>, f: Fresh)
    decreases |targets|
  {
    targets != [] ==>
      var a := Ask(w, r, targets[0], f);
      Enabled(w, a) && ByStaff(Step(w, a), r, targets[1..], f)
  }

  function Asked(w: World, r: RequestId, targets: seq<Status>, f: Fresh): World
    decreases |targets|
  {
    if targets == [] then w else Asked(Step(w, Ask(w, r, targets[0], f)), r, targets[1..], f)
  }

  predicate Reaches(w: World, r: RequestId, s: Status) {
    r in w.store.current && w.store.current[r].status == s
  }

  /** From any state that keeps the invariant, and so from every reachable one, staff
      can resolve an open request in that many transitions. */
  lemma {:induction false} CanBeResolved(w: World, r: RequestId, f: Fresh) returns (targets: seq<Status>)
    requires Inv(w) && r in w.store.current && f.now != "" && w.store.current[r].status != CANCELLED
    ensures |targets| == Left(w.store.current[r].status) && ByStaff(w, r, targets, f)
    ensures Reaches(Asked(w, r, targets, f), r, RESOLVED)
    decreases Left(w.store.current[r].status)
  {
    targets := [];
    var s := w.store.current[r].status;
    if s != RESOLVED {
      AskedForIff(w, r, Next(s), f);
      var rest := CanBeResolved(Step(w, Ask(w, r, Next(s), f)), r, f);
      targets := [Next(s)] + rest;
      assert targets[1..] == rest;
    }
  }

  /** And in no fewer, whatever they ask for. */
  lemma {:induction false} NotInFewer(w: World, r: RequestId, targets: seq<Status>, f: Fresh)
    requires Inv(w) && r in w.store.current && f.now != ""
    requires Reaches(Asked(w, r, targets, f), r, RESOLVED)
    ensures w.store.current[r].status != CANCELLED && |targets| >= Left(w.store.current[r].status)
    decreases |targets|
  {
    if targets != [] {
      AskedForIff(w, r, targets[0], f);
      NotInFewer(Step(w, Ask(w, r, targets[0], f)), r, targets[1..], f);
    }
  }
}
