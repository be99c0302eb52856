/** What the citizen status page shows: CURRENT read at one version, and the
    newest page of events queried a little later. */
module CitizenStatus {
  import opened Wrappers
  import opened ByteOrder
  import opened RequestStore

  const PREFIX := "EVENT#"
  const KEY_DIGITS: nat := 10
  const PAGE: nat := 20
  const SHOWN: nat := 5

  function SortKey(v: nat): string {
    PREFIX + Padded(v, KEY_DIGITS)
  }

  /** Keys are "EVENT#" and ten digits. */
  lemma KeyLayout(v: nat)
    requires v < 10_000_000_000
    ensures var key := SortKey(v); |key| == 16 && key[..6] == "EVENT#" && ValueOf(key[6..]) == v
  {
    PaddedValue(v, KEY_DIGITS);
    assert SortKey(v)[..6] == PREFIX && SortKey(v)[6..] == Padded(v, KEY_DIGITS);
  }

  // ----- the query

  ghost predicate EventKeys(keys: set<string>, page: seq<string>) {
    forall i :: 0 <= i < |page| ==> page[i] in keys && PREFIX <= page[i]
  }

  /** What a descending query answers: matching keys, latest first, and if it
      leaves any out then it is full and those come after all it returned. */
  ghost predicate DescendingPage(keys: set<string>, limit: nat, page: seq<string>) {
    && |page| <= limit
    && EventKeys(keys, page)
    && (forall i, j :: 0 <= i < j < |page| ==> Less(page[j], page[i]))
    && (forall k :: k in keys && PREFIX <= k && k !in page ==>
          |page| == limit && forall i :: 0 <= i < |page| ==> Less(k, page[i]))
  }

  /** One request's partition: its event items are those of the log. */
  ghost predicate Holds(items: map<string, Event>, log: Log, w: nat) {
    && (forall v :: 1 <= v <= w ==> v in log && SortKey(v) in items && items[SortKey(v)] == log[v])
    && forall k :: k in items && PREFIX <= k ==> exists v :: 1 <= v <= w && k == SortKey(v)
  }

  lemma SortKeyOrder(u: nat, v: nat)
    requires u < Pow10(KEY_DIGITS) && v < Pow10(KEY_DIGITS)
    ensures Less(SortKey(u), SortKey(v)) <==> u < v
    ensures SortKey(u) == SortKey(v) <==> u == v
  {
    PaddedOrder(u, v, KEY_DIGITS);
    LessCommonPrefix(PREFIX, Padded(u, KEY_DIGITS), Padded(v, KEY_DIGITS));
    assert SortKey(u)[|PREFIX|..] == Padded(u, KEY_DIGITS) && SortKey(v)[|PREFIX|..] == Padded(v, KEY_DIGITS);
  }

  /** The same about version numbers: descending, and only the oldest are left out. */
  ghost predicate Newest(us: seq<nat>, w: nat, limit: nat) {
    && |us| <= limit
    && (forall i :: 0 <= i < |us| ==> 1 <= us[i] <= w)
    && (forall i, j :: 0 <= i < j < |us| ==> us[j] < us[i])
    && (forall v :: 1 <= v <= w && v !in us ==> |us| == limit && forall i :: 0 <= i < |us| ==> v < us[i])
  }

  lemma {:induction false} NewestAt(us: seq<nat>, w: nat, limit: nat, i: nat)
    requires Newest(us, w, limit) && i < |us|
    ensures us[i] == w - i
  {
    if i > 0 {
      NewestAt(us, w, limit, i - 1);
    }
    forall j | 0 <= j < i ensures us[j] != w - i {
      NewestAt(us, w, limit, j);
    }
    assert us[i] < w - i ==> w - i !in us;
  }

  lemma NewestLength(us: seq<nat>, w: nat, limit: nat)
    requires Newest(us, w, limit)
    ensures |us| == if w <= limit then w else limit
  {
    var n := |us|;
    if n > 0 {
      NewestAt(us, w, limit, n - 1);
    }
    if n < w && n < limit {
      assert w - n in us;
      var p :| 0 <= p < n && us[p] == w - n;
      NewestAt(us, w, limit, p);
    }
  }

  /** The keys of the page are those of these versions. */
  ghost predicate Numbers(us: seq<nat>, page: seq<string>, w: nat) {
    |us| == |page| && forall i :: 0 <= i < |us| ==> 1 <= us[i] <= w && page[i] == SortKey(us[i])
  }

  lemma VersionOfKey(items: map<string, Event>, log: Log, w: nat, k: string) returns (v: nat)
    requires Holds(items, log, w) && k in items && PREFIX <= k
    ensures 1 <= v <= w && k == SortKey(v)
  {
    v :| 1 <= v <= w && k == SortKey(v);
  }

  lemma {:induction false} VersionsOfPage(items: map<string, Event>, log: Log, w: nat, page: seq<string>)
    returns (us: seq<nat>)
    requires Holds(items, log, w) && EventKeys(items.Keys, page)
    ensures Numbers(us, page, w)
  {
    us := [];
    if page != [] {
      var last := |page| - 1;
      us := VersionsOfPage(items, log, w, page[..last]);
      var v := VersionOfKey(items, log, w, page[last]);
      us := us + [v];
    }
  }

  lemma LeftOut(items: map<string, Event>, log: Log, w: nat, limit: nat, page: seq<string>, us: seq<nat>, v: nat)
    requires Holds(items, log, w) && w < Pow10(KEY_DIGITS) && DescendingPage(items.Keys, limit, page)
    requires Numbers(us, page, w)
    requires 1 <= v <= w && v !in us
    ensures |us| == limit && forall i :: 0 <= i < |us| ==> v < us[i]
  {
    var k := SortKey(v);
    assert k in items.Keys && PREFIX <= k;
    forall i | 0 <= i < |page| ensures page[i] != k {
      SortKeyOrder(us[i], v);
    }
    assert k !in page;
    forall i | 0 <= i < |us| ensures v < us[i] {
      assert Less(k, page[i]);
      SortKeyOrder(v, us[i]);
    }
  }

  lemma PageVersionsNewest(items: map<string, Event>, log: Log, w: nat, limit: nat, page: seq<string>, us: seq<nat>)
    requires Holds(items, log, w) && w < Pow10(KEY_DIGITS) && DescendingPage(items.Keys, limit, page)
    requires Numbers(us, page, w)
    ensures Newest(us, w, limit)
  {
    forall i, j | 0 <= i < j < |us| ensures us[j] < us[i] {
      assert Less(page[j], page[i]);
      SortKeyOrder(us[j], us[i]);
    }
    forall v | 1 <= v <= w && v !in us ensures |us| == limit && forall i :: 0 <= i < |us| ==> v < us[i] {
      LeftOut(items, log, w, limit, page, us, v);
    }
  }

  lemma NewestIsDown(us: seq<nat>, w: nat, limit: nat)
    requires Newest(us, w, limit)
    ensures |us| == if w <= limit then w else limit
    ensures forall i :: 0 <= i < |us| ==> i < w && us[i] == w - i
  {
    NewestLength(us, w, limit);
    forall i | 0 <= i < |us| ensures us[i] == w - i {
      NewestAt(us, w, limit, i);
    }
  }

  lemma PageVersions(items: map<string, Event>, log: Log, w: nat, limit: nat, page: seq<string>) returns (us: seq<nat>)
    requires Holds(items, log, w) && w < Pow10(KEY_DIGITS) && DescendingPage(items.Keys, limit, page)
    ensures Numbers(us, page, w) && Newest(us, w, limit)
  {
    us := VersionsOfPage(items, log, w, page);
    PageVersionsNewest(items, log, w, limit, page, us);
  }

  lemma NumbersOfNewest(us: seq<nat>, page: seq<string>, w: nat, limit: nat)
    requires Numbers(us, page, w) && Newest(us, w, limit)
    ensures |page| == if w <= limit then w else limit
    ensures forall i :: 0 <= i < |page| ==> i < w && page[i] == SortKey(w - i)
  {
    NewestIsDown(us, w, limit);
    assert forall i :: 0 <= i < |page| ==> us[i] == w - i;
  }

  /** The page is the newest events, latest first, as many as fit. */
  lemma PageIsNewest(items: map<string, Event>, log: Log, w: nat, limit: nat, page: seq<string>)
    requires Holds(items, log, w) && w < Pow10(KEY_DIGITS) && DescendingPage(items.Keys, limit, page)
    ensures |page| == if w <= limit then w else limit
    ensures forall i :: 0 <= i < |page| ==> i < w && page[i] == SortKey(w - i)
  {
    var us := PageVersions(items, log, w, limit, page);
    NumbersOfNewest(us, page, w, limit);
  }

  /** What list_events returns for a page of keys. */
  function EventsAt(items: map<string, Event>, page: seq<string>): (events: seq<Event>)
    requires forall i :: 0 <= i < |page| ==> page[i] in items
    ensures |events| == |page| && forall i :: 0 <= i < |page| ==> events[i] == items[page[i]]
  {
    seq(|page|, i requires 0 <= i < |page| => items[page[i]])
  }

  // ----- the selection

  function AtMost(events: seq<Event>, version: nat): seq<Event> {
    if events == [] then []
    else (if events[0].version <= version then [events[0]] else []) + AtMost(events[1..], version)
  }

  function FirstAt(events: seq<Event>, version: Option<nat>): Option<Event> {
    if events == [] then None
    else if Some(events[0].version) == version then Some(events[0])
    else FirstAt(events[1..], version)
  }

  function Shown(events: seq<Event>): seq<Event> {
    if |events| <= SHOWN then events else events[..SHOWN]
  }

  function RecentEvents(all: seq<Event>, version: Option<nat>): seq<Event> {
    var bounded := if version.Some? then AtMost(all, version.value) else all;
    if bounded != [] then Shown(bounded) else Shown(all)
  }

  function LatestEvent(all: seq<Event>, version: Option<nat>): Option<Event> {
    var recent := RecentEvents(all, version);
    FirstAt(recent, version).OrElse(if recent != [] then Some(recent[0]) else None)
  }

  /** The n events from version v downwards. */
  function Down(log: Log, v: nat, n: nat): (events: seq<Event>)
    requires n <= v && forall u :: v - n < u <= v ==> u in log
    ensures |events| == n && forall i :: 0 <= i < n ==> events[i] == log[v - i]
  {
    if n == 0 then [] else [log[v]] + Down(log, v - 1, n - 1)
  }

  /** The versions w-n+1..w of a log are there, each under its own number. */
  ghost predicate Reaches(log: Log, w: nat, n: nat) {
    n <= w && forall u :: w - n < u <= w ==> u in log && log[u].version == u
  }

  lemma DownStep(log: Log, w: nat, n: nat, v: nat)
    requires Reaches(log, w, n) && n > 0
    ensures AtMost(Down(log, w, n), v) == (if w <= v then [log[w]] else []) + AtMost(Down(log, w - 1, n - 1), v)
  {
    assert Down(log, w, n)[1..] == Down(log, w - 1, n - 1);
  }

  lemma {:induction false} AllAtMost(log: Log, w: nat, n: nat, v: nat)
    requires Reaches(log, w, n) && w <= v
    ensures AtMost(Down(log, w, n), v) == Down(log, w, n)
  {
    if n > 0 {
      DownStep(log, w, n, v);
      AllAtMost(log, w - 1, n - 1, v);
    }
  }

  lemma {:induction false} AtMostOfDown(log: Log, w: nat, n: nat, v: nat)
    requires Reaches(log, w, n) && v <= w
    ensures AtMost(Down(log, w, n), v) == if w - v < n then Down(log, v, n - (w - v)) else []
  {
    if v == w {
      AllAtMost(log, w, n, v);
      assert n - (w - v) == n;
    } else if n > 0 {
      DownStep(log, w, n, v);
      AtMostOfDown(log, w - 1, n - 1, v);
      assert (n - 1) - (w - 1 - v) == n - (w - v);
    }
  }

  function Min(a: nat, b: nat): nat {
    if a <= b then a else b
  }

  lemma ShownOfDown(log: Log, v: nat, n: nat)
    requires Reaches(log, v, n)
    ensures Shown(Down(log, v, n)) == Down(log, v, Min(SHOWN, n))
  {
  }

  /** What is shown of the n newest of w events for CURRENT at version v, which
      the query may be ahead of or behind. */
  lemma RecentOfDown(log: Log, w: nat, n: nat, v: nat)
    requires Reaches(log, w, n)
    ensures RecentEvents(Down(log, w, n), Some(v))
            == if v <= w < v + n then Down(log, v, Min(SHOWN, n - (w - v))) else Down(log, w, Min(SHOWN, n))
  {
    if w < v {
      AllAtMost(log, w, n, v);
      ShownOfDown(log, w, n);
    } else {
      AtMostOfDown(log, w, n, v);
      if w - v < n {
        ShownOfDown(log, v, n - (w - v));
      } else {
        ShownOfDown(log, w, n);
      }
    }
  }

  lemma {:induction false} NotShown(log: Log, w: nat, n: nat, v: nat)
    requires Reaches(log, w, n) && !(w - n < v <= w)
    ensures FirstAt(Down(log, w, n), Some(v)) == None
  {
    if n > 0 {
      assert Down(log, w, n)[1..] == Down(log, w - 1, n - 1);
      NotShown(log, w - 1, n - 1, v);
    }
  }

  /** The log as a whole has reached version m; a query may see less of it. */
  lemma ReachesLess(log: Log, m: nat, w: nat, n: nat)
    requires Reaches(log, m, m) && n <= w <= m
    ensures Reaches(log, w, n)
  {
  }

  predicate Shows(e: Option<Event>, v: nat) {
    e.Some? && e.value.version == v
  }

  lemma LatestOfDownIff(log: Log, w: nat, v: nat)
    requires Reaches(log, w, w) && v >= 1
    ensures Shows(LatestEvent(Down(log, w, Min(PAGE, w)), Some(v)), v) <==> v <= w <= v + 19
    ensures LatestEvent(Down(log, w, Min(PAGE, w)), Some(v))
            == if w == 0 then None else Some(log[if v <= w <= v + 19 then v else w])
  {
    var n := Min(PAGE, w);
    RecentOfDown(log, w, n, v);
    if v <= w <= v + 19 {
      assert RecentEvents(Down(log, w, n), Some(v))[0] == log[v];
    } else {
      NotShown(log, w, Min(SHOWN, n), v);
      assert n > 0 ==> RecentEvents(Down(log, w, n), Some(v))[0] == log[w];
    }
  }

  lemma PageIsDown(items: map<string, Event>, log: Log, w: nat, page: seq<string>)
    requires Holds(items, log, w) && w < Pow10(KEY_DIGITS) && DescendingPage(items.Keys, PAGE, page)
    ensures EventsAt(items, page) == Down(log, w, Min(PAGE, w))
  {
    PageIsNewest(items, log, w, PAGE, page);
  }

  /** CURRENT was read at version v, and the query, which may lag behind that or
      run ahead of it, saw the log up to w: the latest event shown is the one
      CURRENT stands for exactly if the query is not behind and at most 19 events
      ahead, and otherwise the last one seen. */
  lemma LatestIsCurrentIff(items: map<string, Event>, log: Log, m: nat, w: nat, page: seq<string>, v: nat)
    requires Reaches(log, m, m) && 1 <= v <= m && w <= m
    requires Holds(items, log, w) && w < Pow10(KEY_DIGITS) && DescendingPage(items.Keys, PAGE, page)
    ensures Shows(LatestEvent(EventsAt(items, page), Some(v)), v) <==> v <= w <= v + 19
    ensures LatestEvent(EventsAt(items, page), Some(v))
            == if w == 0 then None else Some(log[if v <= w <= v + 19 then v else w])
  {
    PageIsDown(items, log, w, page);
    ReachesLess(log, m, w, w);
    LatestOfDownIff(log, w, v);
  }

  /** Two descents are equal only if they start and stop together. */
  lemma DownsDiffer(log: Log, v: nat, n: nat, u: nat, m: nat)
    requires Reaches(log, v, n) && Reaches(log, u, m) && m > 0
    ensures Down(log, v, n) == Down(log, u, m) <==> v == u && n == m
  {
    var a, b := Down(log, v, n), Down(log, u, m);
    assert b[0] == log[u] && (n > 0 ==> a[0] == log[v]);
  }

  lemma RecentOfDownIff(log: Log, m: nat, w: nat, v: nat)
    requires Reaches(log, m, m) && 1 <= v <= m && w <= m
    ensures Reaches(log, v, Min(SHOWN, v)) && Reaches(log, w, Min(PAGE, w))
    ensures RecentEvents(Down(log, w, Min(PAGE, w)), Some(v)) == Down(log, v, Min(SHOWN, v))
            <==> v <= w && (w - v <= 15 || w <= PAGE)
  {
    var n := Min(PAGE, w);
    ReachesLess(log, m, w, n);
    ReachesLess(log, m, v, Min(SHOWN, v));
    RecentOfDown(log, w, n, v);
    if v <= w < v + n {
      ReachesLess(log, m, v, Min(SHOWN, n - (w - v)));
      DownsDiffer(log, v, Min(SHOWN, n - (w - v)), v, Min(SHOWN, v));
    } else {
      ReachesLess(log, m, w, Min(SHOWN, n));
      DownsDiffer(log, w, Min(SHOWN, n), v, Min(SHOWN, v));
    }
  }

  /** The recent events are the newest five at or below the version of CURRENT,
      in descending order, exactly if the query is not behind CURRENT, and at most
      15 events ahead or of a log that fits the page. */
  lemma RecentAreNewestIff(items: map<string, Event>, log: Log, m: nat, w: nat, page: seq<string>, v: nat)
    requires Reaches(log, m, m) && 1 <= v <= m && w <= m
    requires Holds(items, log, w) && w < Pow10(KEY_DIGITS) && DescendingPage(items.Keys, PAGE, page)
    ensures RecentEvents(EventsAt(items, page), Some(v)) == Down(log, v, Min(SHOWN, v))
            <==> v <= w && (w - v <= 15 || w <= PAGE)
  {
    PageIsDown(items, log, w, page);
    RecentOfDownIff(log, m, w, v);
  }
}
