/** The locally cached incident catalog: names in bijective base 26, sequence
    numbers allocated through a zero-padded sort key, and the sync that hands
    them out. */
module IncidentCatalog {
  import opened ByteOrder
  import opened Whitespace
  import opened Wrappers

  // ----- names

  function Letter(r: nat): (c: char)
    requires r < 26
    ensures 'A' <= c <= 'Z' && c as int == 'A' as int + r
  {
    'A' + r as char
  }

  predicate IsName(s: string) {
    forall i :: 0 <= i < |s| ==> 'A' <= s[i] <= 'Z'
  }

  function Alpha(n: nat): (s: string)
    ensures IsName(s)
    ensures s == "" <==> n == 0
  {
    if n == 0 then "" else Alpha((n - 1) / 26) + [Letter((n - 1) % 26)]
  }

  /** The inverse: A=1 .. Z=26, most significant letter first. */
  function Ordinal(s: string): (n: nat)
    requires IsName(s)
  {
    if s == "" then 0 else 26 * Ordinal(s[..|s| - 1]) + (s[|s| - 1] as int - 'A' as int) + 1
  }

  function Reversed(s: string): (r: string)
    ensures |r| == |s|
  {
    if s == "" then "" else Reversed(s[1..]) + [s[0]]
  }

  lemma {:induction false} ReversedAppend(s: string, c: char)
    ensures Reversed(s + [c]) == [c] + Reversed(s)
  {
    if s != "" {
      assert (s + [c])[1..] == s[1..] + [c];
      ReversedAppend(s[1..], c);
    }
  }

  method ToAlpha(sequence: int) returns (name: string)
    ensures name == if sequence > 0 then Alpha(sequence) else "A"
  {
    var value, letters := sequence, "";
    while value > 0
      invariant sequence <= 0 ==> value == sequence && letters == ""
      invariant sequence > 0 ==> value >= 0 && Alpha(sequence) == Alpha(value) + Reversed(letters)
      decreases value
    {
      ReversedAppend(letters, Letter((value - 1) % 26));
      letters := letters + [Letter((value - 1) % 26)];
      value := (value - 1) / 26;
    }
    name := Reversed(letters);
    if name == "" {
      name := "A";
    }
  }

  /** Every number is recovered from its name. */
  lemma {:induction false} OrdinalOfAlpha(n: nat)
    ensures Ordinal(Alpha(n)) == n
  {
    if n > 0 {
      var q := (n - 1) / 26;
      OrdinalOfAlpha(q);
      assert Alpha(n)[..|Alpha(n)| - 1] == Alpha(q);
    }
  }

  /** Every string of letters is the name of its number. */
  lemma {:induction false} AlphaOfOrdinal(s: string)
    requires IsName(s)
    ensures Alpha(Ordinal(s)) == s
  {
    if s != "" {
      var t := s[..|s| - 1];
      AlphaOfOrdinal(t);
      var d := s[|s| - 1] as int - 'A' as int;
      assert (Ordinal(s) - 1) / 26 == Ordinal(t) && (Ordinal(s) - 1) % 26 == d;
      assert s == t + [s[|s| - 1]];
    }
  }

  predicate Shortlex(a: string, b: string) {
    |a| < |b| || (|a| == |b| && Less(a, b))
  }

  lemma DigitsOrder(n: nat, m: nat)
    requires n < m
    ensures n / 26 < m / 26 || (n / 26 == m / 26 && n % 26 < m % 26)
  {
  }

  /** Names grow in shortlex order. */
  lemma {:induction false} AlphaIncreases(n: nat, m: nat)
    requires n < m
    ensures Shortlex(Alpha(n), Alpha(m))
    decreases m
  {
    if n > 0 {
      var p, q := (n - 1) / 26, (m - 1) / 26;
      var c, d := [Letter((n - 1) % 26)], [Letter((m - 1) % 26)];
      DigitsOrder(n - 1, m - 1);
      if p < q {
        AlphaIncreases(p, q);
        if |Alpha(p)| == |Alpha(q)| {
          LessAsymmetric(Alpha(p), Alpha(q));
          LessByHead(Alpha(p), Alpha(q), c, d);
        }
      } else {
        LessCommonPrefix(Alpha(p), c, d);
        assert c[0] < d[0];
      }
    }
  }

  /** The number of names shorter than L letters: (26^L - 26) / 25. */
  function ShorterNames(L: nat): nat
    requires L >= 1
  {
    if L == 1 then 0 else 26 * ShorterNames(L - 1) + 26
  }

  function Pow26(L: nat): nat {
    if L == 0 then 1 else 26 * Pow26(L - 1)
  }

  lemma {:induction false} ShorterNamesClosedForm(L: nat)
    requires L >= 1
    ensures 25 * ShorterNames(L) == Pow26(L) - 26
  {
    if L > 1 {
      ShorterNamesClosedForm(L - 1);
    } else {
      assert Pow26(1) == 26 * Pow26(0);
    }
  }

  lemma {:induction false} AlphaLengthBounds(n: nat)
    requires n >= 1
    ensures ShorterNames(|Alpha(n)|) < n <= ShorterNames(|Alpha(n)| + 1)
  {
    var q := (n - 1) / 26;
    if q > 0 {
      AlphaLengthBounds(q);
    } else {
      assert Alpha(q) == "" && |Alpha(n)| == 1 && ShorterNames(2) == 26 * ShorterNames(1) + 26;
    }
  }

  lemma {:induction false} ShorterNamesGrow(L: nat, M: nat)
    requires 1 <= L <= M
    ensures ShorterNames(L) <= ShorterNames(M)
  {
    if L < M {
      ShorterNamesGrow(L, M - 1);
    }
  }

  /** n has L letters exactly when (26^L - 26)/25 < n <= (26^(L+1) - 26)/25. */
  lemma AlphaLength(n: nat, L: nat)
    requires n >= 1 && L >= 1
    ensures |Alpha(n)| == L <==> Pow26(L) - 26 < 25 * n <= Pow26(L + 1) - 26
  {
    AlphaLengthBounds(n);
    ShorterNamesClosedForm(L);
    ShorterNamesClosedForm(L + 1);
    var k := |Alpha(n)|;
    if k < L {
      ShorterNamesGrow(k + 1, L);
    } else if L < k {
      ShorterNamesGrow(L + 1, k);
    }
  }

  // ----- items

  /** A stored number may have come back with a fraction, of which only the whole
      part is used, or may be missing. */
  datatype Sequence = Whole(n: nat) | Fractional(whole: nat) | Missing

  /** What the remote service says about an incident, apart from its id. */
  datatype Remote = Remote(
    incidentType: string, status: string, description: string, createdAt: string, updatedAt: string)

  datatype Raw = Raw(incidentId: Option<string>, remote: Remote)

  datatype Item = Item(
    incidentId: string, remote: Remote, incidentName: Option<string>, incidentSequence: Sequence,
    lastSyncedAt: string, sortKey: string)

  type Items = map<string, Item>

  /** Sequence numbers are padded to this width in sort keys. */
  const DIGITS: nat := 6

  function SortKey(sequence: nat, id: string): string {
    Padded(sequence, DIGITS) + ("#" + id)
  }

  function ResolveSequence(existing: Option<Item>, next: nat): nat {
    match existing
    case None => next
    case Some(item) =>
      match item.incidentSequence
      case Whole(n) => n
      case Fractional(n) => n
      case Missing => next
  }

  function BuildName(sequence: nat): string {
    "Incident" + if sequence > 0 then Alpha(sequence) else "A"
  }

  function NameOf(existing: Option<Item>, sequence: nat): string {
    if existing.Some? && existing.value.incidentName.Some? && existing.value.incidentName.value != ""
    then existing.value.incidentName.value else BuildName(sequence)
  }

  // ----- the next sequence number

  /** What the descending index query with limit 1 returns. */
  ghost predicate IsLast(items: Items, id: string) {
    id in items && forall j :: j in items ==> !Less(items[id].sortKey, items[j].sortKey)
  }

  ghost predicate IsNext(items: Items, next: nat) {
    if |items| == 0 then next == 1
    else exists id {:trigger IsLast(items, id)} ::
      IsLast(items, id) && next == ResolveSequence(Some(items[id]), 0) + 1
  }

  lemma NotLess(x: string, y: string, j: string)
    ensures !Less(x, x)
    ensures Less(y, x) && !Less(y, j) ==> !Less(x, j)
  {
    if Less(x, x) { LessAsymmetric(x, x); }
    if Less(y, x) && Less(x, j) { LessTransitive(y, x, j); }
  }

  lemma {:induction false} LastAmong(items: Items, ids: set<string>) returns (id: string)
    requires ids != {} && ids <= items.Keys
    ensures id in ids && forall j :: j in ids ==> !Less(items[id].sortKey, items[j].sortKey)
    decreases ids
  {
    var x :| x in ids;
    if ids == {x} {
      id := x;
      if Less(items[x].sortKey, items[x].sortKey) { LessAsymmetric(items[x].sortKey, items[x].sortKey); }
    } else {
      var y := LastAmong(items, ids - {x});
      id := if Less(items[y].sortKey, items[x].sortKey) then x else y;
      forall j | j in ids ensures !Less(items[id].sortKey, items[j].sortKey) {
        NotLess(items[x].sortKey, items[y].sortKey, items[j].sortKey);
      }
    }
  }

  // ----- one sync

  datatype Tally = Tally(created: nat, updated: nat, skipped: nat)

  datatype Progress = Progress(items: Items, next: nat, tally: Tally)

  function SyncedItem(existing: Option<Item>, sequence: nat, id: string, raw: Raw, syncedAt: string): Item {
    Item(id, raw.remote, Some(NameOf(existing, sequence)), Whole(sequence), syncedAt, SortKey(sequence, id))
  }

  function SyncOne(p: Progress, raw: Raw, syncedAt: string): Progress {
    if raw.incidentId.None? || Strip(raw.incidentId.value) == "" then
      p.(tally := p.tally.(skipped := p.tally.skipped + 1))
    else
      var id := Strip(raw.incidentId.value);
      var existing := Get(p.items, id);
      var sequence := ResolveSequence(existing, p.next);
      Progress(p.items[id := SyncedItem(existing, sequence, id, raw, syncedAt)],
               if existing.None? then p.next + 1 else p.next,
               if existing.None? then p.tally.(created := p.tally.created + 1)
               else p.tally.(updated := p.tally.updated + 1))
  }

  function SyncAll(p: Progress, raws: seq<Raw>, syncedAt: string): Progress {
    if raws == [] then p else SyncOne(SyncAll(p, raws[..|raws| - 1], syncedAt), raws[|raws| - 1], syncedAt)
  }

  lemma SyncNext(p: Progress, raws: seq<Raw>, i: nat, syncedAt: string)
    requires i < |raws|
    ensures SyncAll(p, raws[..i + 1], syncedAt) == SyncOne(SyncAll(p, raws[..i], syncedAt), raws[i], syncedAt)
  {
    assert raws[..i + 1][..i] == raws[..i];
  }

  // ----- what a sync stores

  predicate Names(raw: Raw, id: string) {
    raw.incidentId.Some? && id != "" && Strip(raw.incidentId.value) == id
  }

  /** Incidents that were not fetched stay as they are. */
  lemma {:induction false} UnfetchedStay(p: Progress, raws: seq<Raw>, syncedAt: string, id: string)
    requires forall i :: 0 <= i < |raws| ==> !Names(raws[i], id)
    ensures Get(SyncAll(p, raws, syncedAt).items, id) == Get(p.items, id)
  {
    if raws != [] {
      assert !Names(raws[|raws| - 1], id);
      UnfetchedStay(p, raws[..|raws| - 1], syncedAt, id);
    }
  }

  /** The others have the remote fields that were fetched for them last. */
  lemma {:induction false} LastFetchIsStored(p: Progress, raws: seq<Raw>, syncedAt: string, i: nat, id: string)
    requires i < |raws| && Names(raws[i], id) && forall j :: i < j < |raws| ==> !Names(raws[j], id)
    ensures var items := SyncAll(p, raws, syncedAt).items;
            && id in items && items[id].incidentId == id
            && items[id].remote == raws[i].remote && items[id].lastSyncedAt == syncedAt
  {
    if i < |raws| - 1 {
      assert !Names(raws[|raws| - 1], id);
      LastFetchIsStored(p, raws[..|raws| - 1], syncedAt, i, id);
    }
  }

  predicate HasNumber(item: Item, n: nat) {
    item.incidentSequence in {Whole(n), Fractional(n)}
  }

  /** A number once given stays, less its fraction, and so does a name. */
  lemma {:induction false} NumberStays(p: Progress, raws: seq<Raw>, syncedAt: string, id: string, n: nat, name: string)
    requires id in p.items && HasNumber(p.items[id], n) && p.items[id].incidentName == Some(name) && name != ""
    ensures var items := SyncAll(p, raws, syncedAt).items;
            && id in items && HasNumber(items[id], n) && items[id].incidentName == Some(name)
            && ((exists i :: 0 <= i < |raws| && Names(raws[i], id)) ==> items[id].incidentSequence == Whole(n))
  {
    if raws != [] {
      NumberStays(p, raws[..|raws| - 1], syncedAt, id, n, name);
    }
  }

  /** An incident without a number gets the next one and does not use it up:
      the first new incident after it gets the same. */
  lemma NumberlessSharesNumber(p: Progress, stored: Raw, added: Raw, syncedAt: string, id: string, newId: string)
    requires Names(stored, id) && Names(added, newId) && newId !in p.items
    requires id in p.items && p.items[id].incidentSequence.Missing?
    ensures var items := SyncAll(p, [stored, added], syncedAt).items;
            id in items && newId in items
            && items[id].incidentSequence == Whole(p.next) == items[newId].incidentSequence
  {
    assert [stored, added][..1] == [stored] && [stored][..0] == [];
    assert SyncAll(p, [stored], syncedAt) == SyncOne(p, stored, syncedAt);
    assert SyncAll(p, [stored, added], syncedAt) == SyncOne(SyncOne(p, stored, syncedAt), added, syncedAt);
  }

  lemma FirstNames()
    ensures BuildName(1) == "IncidentA" && BuildName(26) == "IncidentZ" && BuildName(27) == "IncidentAA"
  {
    assert Alpha(1) == "A" && Alpha(26) == "Z" && Alpha(27) == "AA";
  }

  class Catalog {
    var items: Items

    constructor ()
      ensures items == map[]
    {
      items := map[];
    }

    method GetNextIncidentSequence() returns (next: nat)
      ensures IsNext(items, next)
    {
      if |items| == 0 {
        return 1;
      }
      var id := QueryLast();
      next := ResolveSequence(Some(items[id]), 0) + 1;
    }

    /** The index query, as a scan for the greatest sort key. */
    method QueryLast() returns (id: string)
      requires |items| > 0
      ensures IsLast(items, id)
    {
      var rest := items.Keys;
      ghost var _ := LastAmong(items, items.Keys);
      id :| id in rest;
      rest := rest - {id};
      NotLess(items[id].sortKey, items[id].sortKey, items[id].sortKey);
      while rest != {}
        invariant id in items && id !in rest && rest <= items.Keys
        invariant forall j :: j in items && j !in rest ==> !Less(items[id].sortKey, items[j].sortKey)
        decreases rest
      {
        var x :| x in rest;
        forall j | j in items && j !in rest ensures
            (Less(items[id].sortKey, items[x].sortKey) ==> !Less(items[x].sortKey, items[j].sortKey)) {
          NotLess(items[x].sortKey, items[id].sortKey, items[j].sortKey);
        }
        NotLess(items[x].sortKey, items[id].sortKey, items[x].sortKey);
        if Less(items[id].sortKey, items[x].sortKey) {
          id := x;
        }
        rest := rest - {x};
      }
    }

    /** A sync that stops, for whatever reason, after `stopAfter` iterations. */
    method Sync(raws: seq<Raw>, syncedAt: string, stopAfter: nat) returns (tally: Tally, ghost first: nat)
      modifies this
      ensures IsNext(old(items), first)
      ensures var done := raws[..if stopAfter < |raws| then stopAfter else |raws|];
              var p := SyncAll(Progress(old(items), first, Tally(0, 0, 0)), done, syncedAt);
              items == p.items && tally == p.tally
    {
      var nextSequence := GetNextIncidentSequence();
      first := nextSequence;
      tally := SyncFrom(raws, syncedAt, stopAfter, nextSequence);
    }

    method SyncFrom(raws: seq<Raw>, syncedAt: string, stopAfter: nat, first: nat) returns (tally: Tally)
      modifies this
      ensures var done := raws[..if stopAfter < |raws| then stopAfter else |raws|];
              var p := SyncAll(Progress(old(items), first, Tally(0, 0, 0)), done, syncedAt);
              items == p.items && tally == p.tally
    {
      var existingItems, nextSequence := items, first;
      var created, updated, skipped := 0, 0, 0;
      var i := 0;
      ghost var p0 := Progress(items, first, Tally(0, 0, 0));
      var end := if stopAfter < |raws| then stopAfter else |raws|;
      while i < end
        invariant 0 <= i <= end <= |raws|
        invariant existingItems == items
        invariant SyncAll(p0, raws[..i], syncedAt) == Progress(items, nextSequence, Tally(created, updated, skipped))
      {
        var raw := raws[i];
        SyncNext(p0, raws, i, syncedAt);
        i := i + 1;
        if raw.incidentId.None? || Strip(raw.incidentId.value) == "" {
          skipped := skipped + 1;
          continue;
        }
        var id := Strip(raw.incidentId.value);
        var existing := Get(existingItems, id);
        var item := UpsertIncident(id, raw, existing, nextSequence, syncedAt);
        existingItems := existingItems[id := item];
        if existing.None? {
          nextSequence := nextSequence + 1;
          created := created + 1;
        } else {
          updated := updated + 1;
        }
      }
      tally := Tally(created, updated, skipped);
    }

    method UpsertIncident(id: string, raw: Raw, existing: Option<Item>, next: nat, syncedAt: string)
      returns (item: Item)
      modifies this
      ensures item == SyncedItem(existing, ResolveSequence(existing, next), id, raw, syncedAt)
      ensures items == old(items)[id := item]
    {
      item := SyncedItem(existing, ResolveSequence(existing, next), id, raw, syncedAt);
      items := items[id := item];
    }
  }

  // ----- what every run of syncs keeps

  /** The i-th incident of the list has number i + 1. */
  ghost predicate Holds(items: Items, order: seq<string>, i: nat)
    requires i < |order|
  {
    order[i] in items && items[order[i]].incidentSequence == Whole(i + 1)
  }

  ghost predicate InPlace(items: Items, order: seq<string>, id: string)
    requires id in items
  {
    && items[id].incidentSequence.Whole? && 1 <= items[id].incidentSequence.n <= |order|
    && order[items[id].incidentSequence.n - 1] == id
  }

  /** `order` lists the incidents by sequence number, 1, 2, 3 and so on. */
  ghost predicate Counted(items: Items, order: seq<string>) {
    && |items| == |order|
    && (forall i {:trigger Holds(items, order, i)} :: 0 <= i < |order| ==> Holds(items, order, i))
    && (forall id {:trigger InPlace(items, order, id)} :: id in items ==> InPlace(items, order, id))
  }

  /** Name and sort key are those of the number. */
  ghost predicate Labelled(item: Item, id: string) {
    && item.incidentSequence.Whole?
    && item.incidentName == Some(BuildName(item.incidentSequence.n))
    && item.sortKey == SortKey(item.incidentSequence.n, id)
  }

  ghost predicate Numbered(items: Items, order: seq<string>) {
    Counted(items, order) && forall id {:trigger Labelled(items[id], id)} :: id in items ==> Labelled(items[id], id)
  }

  lemma SyncedItemLabelled(existing: Option<Item>, next: nat, id: string, raw: Raw, syncedAt: string)
    requires existing.Some? ==> Labelled(existing.value, id)
    ensures var item := SyncedItem(existing, ResolveSequence(existing, next), id, raw, syncedAt);
            && Labelled(item, id)
            && (existing.Some? ==> item.incidentSequence == existing.value.incidentSequence
                                   && item.incidentName == existing.value.incidentName)
  {
  }

  /** Later items keep the earlier sequence numbers and names. */
  ghost predicate Keeps(items: Items, items': Items) {
    forall id :: id in items ==>
      && id in items' && items'[id].incidentSequence == items[id].incidentSequence
      && items'[id].incidentName == items[id].incidentName
  }

  lemma CountedAgain(items: Items, order: seq<string>, id: string, item: Item)
    requires Counted(items, order) && id in items && item.incidentSequence == items[id].incidentSequence
    ensures Counted(items[id := item], order)
  {
    var items' := items[id := item];
    assert items'.Keys == items.Keys;
    forall i | 0 <= i < |order| ensures Holds(items', order, i) {
      assert Holds(items, order, i);
    }
    forall j | j in items' ensures InPlace(items', order, j) {
      assert InPlace(items, order, j);
    }
  }

  lemma SizeWithNew(items: Items, id: string, item: Item)
    requires id !in items
    ensures |items[id := item]| == |items| + 1
  {
    assert items[id := item].Keys == items.Keys + {id};
  }

  lemma HoldsStill(items: Items, order: seq<string>, id: string, item: Item, i: nat)
    requires id !in items && i < |order| && Holds(items, order, i)
    ensures Holds(items[id := item], order + [id], i)
  {
  }

  lemma InPlaceStill(items: Items, order: seq<string>, id: string, item: Item, j: string)
    requires id !in items && j in items && InPlace(items, order, j)
    ensures InPlace(items[id := item], order + [id], j)
  {
  }

  lemma CountedNew(items: Items, order: seq<string>, id: string, item: Item)
    requires Counted(items, order) && id !in items && item.incidentSequence == Whole(|order| + 1)
    ensures Counted(items[id := item], order + [id])
  {
    var items', order' := items[id := item], order + [id];
    SizeWithNew(items, id, item);
    forall i | 0 <= i < |order'| ensures Holds(items', order', i) {
      if i < |order| {
        assert Holds(items, order, i);
        HoldsStill(items, order, id, item, i);
      }
    }
    forall j | j in items' ensures InPlace(items', order', j) {
      if j != id {
        assert InPlace(items, order, j);
        InPlaceStill(items, order, id, item, j);
      }
    }
  }

  lemma LabelledAfter(items: Items, id: string, item: Item)
    requires forall j {:trigger Labelled(items[j], j)} :: j in items ==> Labelled(items[j], j)
    requires Labelled(item, id)
    ensures var items' := items[id := item];
            forall j {:trigger Labelled(items'[j], j)} :: j in items' ==> Labelled(items'[j], j)
  {
  }

  lemma RecordKeepsNumbering(p: Progress, order: seq<string>, id: string, raw: Raw, syncedAt: string)
    returns (order': seq<string>)
    requires Numbered(p.items, order) && p.next == |order| + 1
    ensures var existing := Get(p.items, id);
            var items' := p.items[id := SyncedItem(existing, ResolveSequence(existing, p.next), id, raw, syncedAt)];
            && Numbered(items', order') && |order'| == |order| + (if id in p.items then 0 else 1)
            && order <= order' && Keeps(p.items, items')
  {
    order' := if id in p.items then order else order + [id];
    var existing := Get(p.items, id);
    var item := SyncedItem(existing, ResolveSequence(existing, p.next), id, raw, syncedAt);
    if id in p.items {
      assert Labelled(p.items[id], id);
    }
    SyncedItemLabelled(existing, p.next, id, raw, syncedAt);
    if id in p.items {
      CountedAgain(p.items, order, id, item);
    } else {
      CountedNew(p.items, order, id, item);
    }
    LabelledAfter(p.items, id, item);
  }

  lemma SyncOneKeepsNumbering(p: Progress, order: seq<string>, raw: Raw, syncedAt: string) returns (order': seq<string>)
    requires Numbered(p.items, order) && p.next == |order| + 1
    ensures var p' := SyncOne(p, raw, syncedAt);
            && Numbered(p'.items, order') && p'.next == |order'| + 1 && order <= order' && Keeps(p.items, p'.items)
  {
    order' := order;
    if raw.incidentId.Some? && Strip(raw.incidentId.value) != "" {
      order' := RecordKeepsNumbering(p, order, Strip(raw.incidentId.value), raw, syncedAt);
    }
  }

  lemma {:induction false} SyncKeepsNumbering(p: Progress, order: seq<string>, raws: seq<Raw>, syncedAt: string)
    returns (order': seq<string>)
    requires Numbered(p.items, order) && p.next == |order| + 1
    ensures var p' := SyncAll(p, raws, syncedAt);
            && Numbered(p'.items, order') && p'.next == |order'| + 1 && order <= order' && Keeps(p.items, p'.items)
  {
    order' := order;
    if raws != [] {
      var mid := SyncKeepsNumbering(p, order, raws[..|raws| - 1], syncedAt);
      order' := SyncOneKeepsNumbering(SyncAll(p, raws[..|raws| - 1], syncedAt), mid, raws[|raws| - 1], syncedAt);
    }
  }

  /** fetched = created + updated + skipped */
  lemma {:induction false} TalliesAddUp(p: Progress, raws: seq<Raw>, syncedAt: string)
    ensures var t, t0 := SyncAll(p, raws, syncedAt).tally, p.tally;
            t.created + t.updated + t.skipped == t0.created + t0.updated + t0.skipped + |raws|
  {
    if raws != [] {
      TalliesAddUp(p, raws[..|raws| - 1], syncedAt);
    }
  }

  lemma SortKeyIs(n: nat, d: nat, id: string)
    requires d == Width(n, DIGITS)
    ensures SortKey(n, id) == Fixed(n, d) + (['#'] + id)
  {
    PaddedIsFixed(n, DIGITS);
    assert "#" + id == ['#'] + id;
  }

  lemma WidthSix(n: nat)
    ensures Width(n, DIGITS) == DIGITS <==> n <= 999_999
  {
    assert Pow10(6) == 1_000_000;
    if n <= 999_999 {
      WidthIs(n, DIGITS, DIGITS);
    }
  }

  /** Sort-key order is sequence order among numbers of one width, in particular
      up to six digits. */
  lemma SortKeyOrder(n: nat, m: nat, a: string, b: string)
    requires Width(n, DIGITS) == Width(m, DIGITS) && n != m
    ensures Less(SortKey(n, a), SortKey(m, b)) <==> n < m
  {
    SortKeyIs(n, Width(n, DIGITS), a);
    SortKeyIs(m, Width(n, DIGITS), b);
    LessFixedFirst(n, m, Width(n, DIGITS), ['#'] + a, ['#'] + b);
  }

  lemma LastDigitApart(n: nat, d: nat, x: string)
    requires d > 0 && n < Pow10(d)
    ensures n / 10 < Pow10(d - 1)
    ensures Fixed(n, d) + x == Fixed(n / 10, d - 1) + ([Digit(n % 10)] + x)
  {
  }

  /** The mark sorts before any digit. */
  lemma LongerAgainst(n: nat, m: nat, d: nat, x: string, y: string, a: string, b: string)
    requires d > 0 && n < Pow10(d) && m < Pow10(d - 1) && y != [] && y[0] == '#'
    requires a == Fixed(n, d) + x && b == Fixed(m, d - 1) + y
    ensures Less(a, b) <==> n / 10 < m
  {
    var last := [Digit(n % 10)];
    LastDigitApart(n, d, x);
    LessFixedFirst(n / 10, m, d - 1, last + x, y);
    assert (last + x)[0] == last[0];
  }

  lemma NinesWidth(e: nat, nines: nat)
    requires e >= DIGITS && nines == Pow10(e) - 1
    ensures Width(nines, DIGITS) == e && nines < Pow10(e)
  {
    WidthIs(nines, DIGITS, e);
  }

  /** A number of d > 6 digits sorts before the largest of d - 1 digits exactly
      when it is not one of the ten largest of d digits. */
  lemma LongerSortsEarlyIff(n: nat, d: nat, nines: nat, a: string, b: string)
    requires d > DIGITS && Width(n, DIGITS) == d && nines == Pow10(d - 1) - 1
    ensures Less(SortKey(n, a), SortKey(nines, b)) <==> n / 10 < nines
  {
    NinesWidth(d - 1, nines);
    SortKeyIs(n, d, a);
    SortKeyIs(nines, d - 1, b);
    LongerAgainst(n, nines, d, ['#'] + a, ['#'] + b, SortKey(n, a), SortKey(nines, b));
  }

  /** A number sorts after every shorter one if all its digits but the last are
      nines. */
  lemma {:induction false} ShorterFirst(m: nat, e: nat, n: nat, d: nat, x: string, y: string)
    requires 1 <= e < d && m < Pow10(e) && n < Pow10(d) && n / 10 + 1 == Pow10(d - 1)
    ensures Less(Fixed(m, e) + (['#'] + x), Fixed(n, d) + y)
    decreases d
  {
    var last := [Digit(n % 10)];
    LastDigitApart(n, d, y);
    if e == d - 1 {
      LessFixedFirst(m, n / 10, e, ['#'] + x, last + y);
    } else {
      ShorterFirst(m, e, n / 10, d - 1, x, last + y);
    }
  }

  // ----- which number is allocated next

  /** The greatest sort key among the numbers 1..n is that of n. */
  predicate Fresh(n: nat) {
    n <= 999_999 || n / 10 + 1 == Pow10(Width(n, DIGITS) - 1)
  }

  /** The number with the greatest sort key. */
  function Top(n: nat): nat
    requires n > 0
  {
    if Fresh(n) then n else Pow10(Width(n, DIGITS) - 1) - 1
  }

  lemma TopInRange(n: nat)
    requires n > 0
    ensures 1 <= Top(n) <= n && (Top(n) == n <==> Fresh(n))
  {
    WidthSix(n);
    var d := Width(n, DIGITS);
    if !Fresh(n) {
      Pow10Grows(1, d - 1);
    }
  }

  lemma WidthMonotone(m: nat, n: nat)
    requires m <= n
    ensures Width(m, DIGITS) <= Width(n, DIGITS)
  {
    var e, d := Width(m, DIGITS), Width(n, DIGITS);
    if d < e {
      Pow10Grows(d, e - 1);
    }
  }

  lemma ShorterByKey(m: nat, t: nat, a: string, b: string)
    requires Width(m, DIGITS) < Width(t, DIGITS) && t / 10 + 1 == Pow10(Width(t, DIGITS) - 1)
    ensures Less(SortKey(m, a), SortKey(t, b))
  {
    SortKeyIs(m, Width(m, DIGITS), a);
    SortKeyIs(t, Width(t, DIGITS), b);
    ShorterFirst(m, Width(m, DIGITS), t, Width(t, DIGITS), a, ['#'] + b);
  }

  lemma NotAmongLast(m: nat, n: nat)
    requires m <= n && Width(m, DIGITS) == Width(n, DIGITS) && !Fresh(n)
    ensures m / 10 + 1 < Pow10(Width(n, DIGITS) - 1)
  {
  }

  lemma BelowFresh(n: nat, m: nat, a: string, b: string)
    requires m < n && Fresh(n)
    ensures Less(SortKey(m, a), SortKey(n, b))
  {
    WidthSix(n);
    WidthMonotone(m, n);
    if Width(m, DIGITS) == Width(n, DIGITS) {
      SortKeyOrder(m, n, a, b);
    } else {
      ShorterByKey(m, n, a, b);
    }
  }

  lemma NinesBelowNines(d: nat)
    requires d > 0
    ensures (Pow10(d) - 1) / 10 + 1 == Pow10(d - 1)
  {
  }

  lemma NotFreshIsLong(n: nat)
    requires !Fresh(n)
    ensures Width(n, DIGITS) > DIGITS
  {
    WidthSix(n);
  }

  lemma NinesFacts(n: nat, d: nat, t: nat)
    requires !Fresh(n) && d == Width(n, DIGITS) && t == Pow10(d - 1) - 1
    ensures d > DIGITS && Width(t, DIGITS) == d - 1 && t / 10 + 1 == Pow10(d - 2)
  {
    NotFreshIsLong(n);
    NinesWidth(d - 1, t);
    NinesBelowNines(d - 1);
  }

  lemma FewerDigits(m: nat, d: nat, t: nat)
    requires d > 0 && Width(m, DIGITS) == d - 1 && t == Pow10(d - 1) - 1
    ensures m <= t
  {
  }

  lemma BelowNines(n: nat, m: nat, d: nat, t: nat, a: string, b: string)
    requires m <= n && !Fresh(n) && d == Width(n, DIGITS) && t == Pow10(d - 1) - 1 && m != t
    ensures Less(SortKey(m, a), SortKey(t, b))
  {
    NinesFacts(n, d, t);
    WidthMonotone(m, n);
    if Width(m, DIGITS) == d {
      NotAmongLast(m, n);
      LongerSortsEarlyIff(m, d, t, a, b);
    } else if Width(m, DIGITS) == d - 1 {
      SortKeyOrder(m, t, a, b);
      FewerDigits(m, d, t);
    } else {
      ShorterByKey(m, t, a, b);
    }
  }

  /** All other numbers up to n sort before the top one. */
  lemma OthersBelowTop(n: nat, m: nat, a: string, b: string)
    requires 1 <= m <= n && m != Top(n)
    ensures Less(SortKey(m, a), SortKey(Top(n), b))
  {
    if Fresh(n) {
      BelowFresh(n, m, a, b);
    } else {
      BelowNines(n, m, Width(n, DIGITS), Top(n), a, b);
    }
  }

  /** What the descending query finds in a numbered catalog. */
  lemma LastIsTop(items: Items, order: seq<string>, id: string)
    requires Numbered(items, order) && IsLast(items, id)
    ensures |order| > 0 && items[id].incidentSequence == Whole(Top(|order|))
  {
    assert Labelled(items[id], id) && InPlace(items, order, id);
    var n, m := |order|, items[id].incidentSequence.n;
    TopInRange(n);
    var top := order[Top(n) - 1];
    assert Holds(items, order, Top(n) - 1);
    assert Labelled(items[top], top);
    if m != Top(n) {
      OthersBelowTop(n, m, id, top);
    }
  }

  /** The number allocated next is unused exactly while the catalog has at most
      999999 incidents or a number of incidents whose digits are all nines but
      the last. Otherwise it is the power of ten with as many digits, which some
      incident has already. */
  lemma NextIsFreshIff(items: Items, order: seq<string>, next: nat)
    requires Numbered(items, order) && IsNext(items, next)
    ensures next == |order| + 1 <==> Fresh(|order|)
    ensures !Fresh(|order|) ==> next == Pow10(Width(|order|, DIGITS) - 1) <= |order| && Holds(items, order, next - 1)
  {
    if |items| > 0 {
      var id :| IsLast(items, id) && next == ResolveSequence(Some(items[id]), 0) + 1;
      LastIsTop(items, order, id);
      TopInRange(|order|);
      assert !Fresh(|order|) ==> Holds(items, order, next - 1);
    }
  }

  /** One sync as the environment sees it. */
  datatype Sync = Sync(raws: seq<Raw>, syncedAt: string)

  ghost predicate SyncStep(items: Items, s: Sync, items': Items) {
    exists first {:trigger IsNext(items, first)} ::
      IsNext(items, first) && items' == SyncAll(Progress(items, first, Tally(0, 0, 0)), s.raws, s.syncedAt).items
  }

  ghost predicate SyncedAt(states: seq<Items>, syncs: seq<Sync>, k: nat)
    requires k < |syncs| < |states|
  {
    Fresh(|states[k]|) && SyncStep(states[k], syncs[k], states[k + 1])
  }

  /** states[k+1] results from states[k] by syncing; an interrupted sync is one
      of fewer records. Each starts from a number of incidents after which the
      next number is fresh, such as any up to 999999. */
  ghost predicate SyncRun(states: seq<Items>, syncs: seq<Sync>) {
    && |states| == |syncs| + 1 && states[0] == map[]
    && (forall k {:trigger SyncedAt(states, syncs, k)} :: 0 <= k < |syncs| ==> SyncedAt(states, syncs, k))
  }

  lemma SyncStepKeepsNumbering(items: Items, order: seq<string>, s: Sync, items': Items) returns (order': seq<string>)
    requires Numbered(items, order) && Fresh(|items|) && SyncStep(items, s, items')
    ensures Numbered(items', order') && order <= order' && Keeps(items, items')
  {
    var first :| IsNext(items, first)
                 && items' == SyncAll(Progress(items, first, Tally(0, 0, 0)), s.raws, s.syncedAt).items;
    NextIsFreshIff(items, order, first);
    order' := SyncKeepsNumbering(Progress(items, first, Tally(0, 0, 0)), order, s.raws, s.syncedAt);
  }

  lemma KeepsTransitive(items: Items, items1: Items, items2: Items)
    requires Keeps(items, items1) && Keeps(items1, items2)
    ensures Keeps(items, items2)
  {
  }

  /** Over every run every state is numbered 1..n without gaps or repeats, and
      no incident ever loses its first number or name. */
  lemma {:induction false} RunKeepsNumbering(states: seq<Items>, syncs: seq<Sync>) returns (order: seq<string>)
    requires SyncRun(states, syncs)
    ensures Numbered(states[|syncs|], order)
    ensures forall k :: 0 <= k <= |syncs| ==> Keeps(states[k], states[|syncs|])
    decreases |syncs|
  {
    if syncs == [] {
      order := [];
    } else {
      var last := |syncs| - 1;
      var earlier := states[..|syncs|];
      assert SyncedAt(states, syncs, last);
      forall k | 0 <= k < last ensures SyncedAt(earlier, syncs[..last], k) {
        assert SyncedAt(states, syncs, k);
      }
      var order0 := RunKeepsNumbering(earlier, syncs[..last]);
      order := SyncStepKeepsNumbering(states[last], order0, syncs[last], states[last + 1]);
      forall k | 0 <= k <= |syncs| ensures Keeps(states[k], states[|syncs|]) {
        if k < |syncs| {
          assert Keeps(earlier[k], earlier[last]);
          KeepsTransitive(states[k], states[last], states[|syncs|]);
        }
      }
    }
  }

  lemma NamesDistinct(n: nat, m: nat)
    requires n > 0 && m > 0
    ensures BuildName(n) == BuildName(m) <==> n == m
  {
    OrdinalOfAlpha(n);
    OrdinalOfAlpha(m);
    assert BuildName(n)[8..] == Alpha(n) && BuildName(m)[8..] == Alpha(m);
  }

  /** Distinct incidents have distinct numbers. */
  lemma NumbersAreDistinct(items: Items, order: seq<string>, a: string, b: string)
    requires Numbered(items, order) && a in items && b in items && a != b
    ensures items[a].incidentSequence != items[b].incidentSequence
  {
    assert InPlace(items, order, a) && InPlace(items, order, b);
  }

  lemma NameIsBuilt(item: Item, id: string)
    requires Labelled(item, id)
    ensures item.incidentSequence.Whole? && item.incidentName == Some(BuildName(item.incidentSequence.n))
  {
  }

  /** And distinct names. */
  lemma NamesAreDistinct(items: Items, order: seq<string>, a: string, b: string)
    requires Numbered(items, order) && a in items && b in items && a != b
    ensures items[a].incidentName != items[b].incidentName
  {
    NumbersAreDistinct(items, order, a, b);
    assert InPlace(items, order, a) && InPlace(items, order, b);
    NameIsBuilt(items[a], a);
    NameIsBuilt(items[b], b);
    NamesDistinct(items[a].incidentSequence.n, items[b].incidentSequence.n);
  }
}
