/** Removing the requests whose incident is no longer in the catalog. */
module Maintenance {
  import opened Wrappers
  import opened Whitespace

  datatype Key = Key(pk: string, sk: string)

  /** The attributes a scan projects. None: missing or not a string. */
  datatype Item = Item(itemType: Option<string>, requestId: Option<string>, incidentId: Option<string>)

  datatype Ref = Ref(key: Key, item: Item)

  type Items = map<Key, Item>

  function Concat(pages: seq<seq<Ref>>): seq<Ref> {
    if pages == [] then [] else Concat(pages[..|pages| - 1]) + pages[|pages| - 1]
  }

  function KeysOf(refs: seq<Ref>): set<Key> {
    set ref | ref in refs :: ref.key
  }

  /** What a scan sees: every item of the table once, in some order. */
  ghost predicate Enumerates(refs: seq<Ref>, table: Items) {
    && (forall i :: 0 <= i < |refs| ==> refs[i].key in table && table[refs[i].key] == refs[i].item)
    && table.Keys == KeysOf(refs)
    && (forall i, j :: 0 <= i < j < |refs| ==> refs[i].key != refs[j].key)
  }

  function KnownIncidents(catalog: seq<Option<string>>): set<string> {
    set id | id in catalog && id.Some? && Strip(id.value) != "" :: id.value
  }

  predicate IsMaster(item: Item) {
    item.itemType == Some("MASTER") && item.requestId.Some? && item.requestId.value != ""
  }

  predicate IsOrphan(item: Item, known: set<string>) {
    IsMaster(item) && (item.incidentId.None? || item.incidentId.value !in known)
  }

  /** The requests with a master that names no known incident. */
  function OrphanIds(table: Items, known: set<string>): set<string> {
    set k | k in table && IsOrphan(table[k], known) :: table[k].requestId.GetOr("")
  }

  predicate BelongsTo(item: Item, ids: set<string>) {
    item.requestId.Some? && item.requestId.value in ids
  }

  function Kept(table: Items, ids: set<string>): Items {
    map k | k in table && !BelongsTo(table[k], ids) :: table[k]
  }

  /** The table once the items under these keys have been looked at. */
  function KeptAfter(table: Items, ids: set<string>, seen: set<Key>): Items {
    map k | k in table && !(k in seen && BelongsTo(table[k], ids)) :: table[k]
  }

  lemma KeptEnds(table: Items, ids: set<string>)
    ensures KeptAfter(table, ids, KeysOf([])) == table
    ensures KeptAfter(table, ids, table.Keys) == Kept(table, ids)
    ensures ids == {} ==> Kept(table, ids) == table
  {
  }

  lemma LookAtOne(table: Items, ids: set<string>, seen: set<Key>, k: Key)
    requires k in table && k !in seen
    ensures var before, after := KeptAfter(table, ids, seen), KeptAfter(table, ids, seen + {k});
            if BelongsTo(table[k], ids) then after == before - {k} && |before| == |after| + 1 else after == before
  {
  }

  lemma NextKey(refs: seq<Ref>, table: Items, i: nat)
    requires Enumerates(refs, table) && i < |refs|
    ensures refs[i].key !in KeysOf(refs[..i]) && refs[i].key in table && table[refs[i].key] == refs[i].item
    ensures KeysOf(refs[..i + 1]) == KeysOf(refs[..i]) + {refs[i].key}
  {
  }

  lemma OrphansOfScan(refs: seq<Ref>, table: Items, known: set<string>)
    requires Enumerates(refs, table)
    ensures (set ref | ref in refs && IsOrphan(ref.item, known) :: ref.item.requestId.GetOr(""))
            == OrphanIds(table, known)
  {
  }

  class RequestTable {
    var items: Items

    constructor ()
      ensures items == map[]
    {
      items := map[];
    }

    method ScanKeysAndRefs(pages: seq<seq<Ref>>) returns (refs: seq<Ref>)
      requires Enumerates(Concat(pages), items)
      ensures refs == Concat(pages)
    {
      refs := [];
      var n := 0;
      while n < |pages|
        invariant 0 <= n <= |pages|
        invariant refs == Concat(pages[..n])
      {
        assert pages[..n + 1][..n] == pages[..n];
        refs := refs + pages[n];
        n := n + 1;
      }
      assert pages[..n] == pages;
    }

    method DeleteRequestsByIds(ids: set<string>, pages: seq<seq<Ref>>) returns (deleted: nat)
      requires Enumerates(Concat(pages), items)
      modifies this
      ensures items == Kept(old(items), ids)
      ensures |old(items)| == |items| + deleted
    {
      deleted := 0;
      if ids == {} {
        KeptEnds(items, ids);
        return;
      }
      var refs := ScanKeysAndRefs(pages);
      KeptEnds(items, ids);
      assert refs[..0] == [];
      var i := 0;
      while i < |refs|
        invariant 0 <= i <= |refs|
        invariant items == KeptAfter(old(items), ids, KeysOf(refs[..i]))
        invariant |old(items)| == |items| + deleted
      {
        NextKey(refs, old(items), i);
        LookAtOne(old(items), ids, KeysOf(refs[..i]), refs[i].key);
        if refs[i].item.requestId.Some? && refs[i].item.requestId.value in ids {
          items := items - {refs[i].key};
          deleted := deleted + 1;
        }
        i := i + 1;
      }
      assert refs[..i] == refs;
    }

    /** Exactly the items of the orphaned requests go, and the counts are right. */
    method DeleteOrphanedRequests(catalog: seq<Option<string>>, pages: seq<seq<Ref>>, morePages: seq<seq<Ref>>)
      returns (deletedRequests: nat, deletedItems: nat)
      requires Enumerates(Concat(pages), items) && Enumerates(Concat(morePages), items)
      modifies this
      ensures items == Kept(old(items), OrphanIds(old(items), KnownIncidents(catalog)))
      ensures deletedRequests == |OrphanIds(old(items), KnownIncidents(catalog))|
      ensures |old(items)| == |items| + deletedItems
    {
      var known := KnownIncidents(catalog);
      var refs := ScanKeysAndRefs(pages);
      var orphans := set ref | ref in refs && IsOrphan(ref.item, known) :: ref.item.requestId.GetOr("");
      OrphansOfScan(refs, items, known);
      deletedItems := DeleteRequestsByIds(orphans, morePages);
      deletedRequests := |orphans|;
    }
  }

  /** Afterwards every master names a known incident, every request is either
      untouched or gone as a whole, and a second pass finds nothing to do. */
  lemma NoOrphansRemain(table: Items, known: set<string>)
    ensures var ids := OrphanIds(table, known);
            var after := Kept(table, ids);
            && (forall k :: k in after && IsMaster(after[k]) ==>
                  after[k].incidentId.Some? && after[k].incidentId.value in known)
            && (forall k :: k in table && table[k].requestId.Some? && table[k].requestId.value in ids ==> k !in after)
            && (forall k :: k in table && !(table[k].requestId.Some? && table[k].requestId.value in ids) ==>
                  k in after && after[k] == table[k])
            && OrphanIds(after, known) == {} && Kept(after, OrphanIds(after, known)) == after
  {
  }

  /** The known incidents are the catalog's, but for blank ids. */
  lemma KnownIff(catalog: seq<Option<string>>, id: string)
    ensures id in KnownIncidents(catalog) <==> Some(id) in catalog && !AllSpace(id)
  {
    BlankIff(id);
  }

  /** A request survives exactly when each of its masters names an incident of the
      catalog. */
  lemma SurvivesIff(table: Items, catalog: seq<Option<string>>, r: string)
    requires r != "" && exists k :: k in table && IsMaster(table[k]) && table[k].requestId == Some(r)
    ensures var after := Kept(table, OrphanIds(table, KnownIncidents(catalog)));
            (forall k :: k in table && table[k].requestId == Some(r) ==> k in after)
            <==> (forall k :: k in table && table[k].itemType == Some("MASTER") && table[k].requestId == Some(r) ==>
                    && table[k].incidentId.Some? && table[k].incidentId in catalog
                    && !AllSpace(table[k].incidentId.value))
  {
    forall id: string ensures id in KnownIncidents(catalog) <==> Some(id) in catalog && !AllSpace(id) {
      KnownIff(catalog, id);
    }
  }
}
