/**
The data item cache of SystemStatusOsObserver: what a batch of reports leaves in it, and of which
items the clients are to hear.
*/
module ItemCache {
  import opened Options
  import opened Subscriptions

  type Cache = map<DataItemId, int>

  /** A reported item; accepted is what SystemStatus::eventDataItemNotify answers for it. */
  datatype DataItem = DataItem(id: DataItemId, value: int, accepted: bool)

  // ---------------------------------------------------------------- what a batch changes

  /** updateCache: the new cache, and whether the entry of the item was added or changed. */
  function Updated(cache: Cache, known: set<DataItemId>, item: Option<DataItem>): (Cache, bool) {
    if item.None? || !item.value.accepted then (cache, false)
    else
      var DataItem(id, value, _) := item.value;
      if id in cache then (cache[id := value], cache[id] != value)
      else if id in known then (cache[id := value], true)
      else (cache, false)
  }

  ghost function CacheAfter(cache: Cache, known: set<DataItemId>, v: seq<Option<DataItem>>): Cache {
    if v == [] then cache
    else Updated(CacheAfter(cache, known, v[..|v| - 1]), known, v[|v| - 1]).0
  }

  /** The ids for which updateCache returned true somewhere in the batch. */
  ghost function ToBeSent(cache: Cache, known: set<DataItemId>, v: seq<Option<DataItem>>): set<DataItemId> {
    if v == [] then {}
    else
      var n := |v| - 1;
      ToBeSent(cache, known, v[..n]) +
      (if Updated(CacheAfter(cache, known, v[..n]), known, v[n]).1 then {v[n].value.id} else {})
  }

  /** An item of the batch at which the cache entry of id is added or changed. */
  ghost predicate ChangesAt(cache: Cache, known: set<DataItemId>, v: seq<Option<DataItem>>, i: nat, id: DataItemId)
    requires i < |v|
  {
    var before, after := CacheAfter(cache, known, v[..i]), CacheAfter(cache, known, v[..i + 1]);
    id in after && (id !in before || before[id] != after[id])
  }

  /** An id is sent exactly when some item of the batch changed its cache entry. */
  lemma {:induction false} SentIffEntryChanged(cache: Cache, known: set<DataItemId>, v: seq<Option<DataItem>>,
                                               id: DataItemId)
    ensures id in ToBeSent(cache, known, v) <==> exists i :: 0 <= i < |v| && ChangesAt(cache, known, v, i, id)
  {
    if v != [] {
      var n := |v| - 1;
      var u := v[..n];
      SentIffEntryChanged(cache, known, u, id);
      assert forall i :: 0 <= i <= n ==> u[..i] == v[..i];
      assert forall i :: 0 <= i < n ==> (ChangesAt(cache, known, u, i, id) <==> ChangesAt(cache, known, v, i, id));
      assert v[..n + 1] == v;
      var updated := Updated(CacheAfter(cache, known, u), known, v[n]).1;
      assert updated && v[n].value.id == id <==> ChangesAt(cache, known, v, n, id);
    }
  }

  /** What notify hands to its message: a null per reported item, then the items that can be created. */
  ghost function Batch(dlist: seq<DataItem>, known: set<DataItemId>): seq<Option<DataItem>> {
    seq(|dlist|, _ => None) + Created(dlist, known)
  }

  ghost function Created(dlist: seq<DataItem>, known: set<DataItemId>): seq<Option<DataItem>> {
    if dlist == [] then []
    else
      var n := |dlist| - 1;
      Created(dlist[..n], known) + if dlist[n].id in known then [Some(dlist[n])] else []
  }

  /** Sent items are cached, so a delivery has a value for each. */
  lemma {:induction false} SentIsCached(cache: Cache, known: set<DataItemId>, v: seq<Option<DataItem>>)
    ensures ToBeSent(cache, known, v) <= CacheAfter(cache, known, v).Keys
    ensures cache.Keys <= CacheAfter(cache, known, v).Keys
  {
    if v != [] {
      SentIsCached(cache, known, v[..|v| - 1]);
    }
  }

  // ---------------------------------------------------------------- the cache and the batch

  /** Item i of the batch is an accepted report of id. */
  predicate AcceptedAt(v: seq<Option<DataItem>>, i: nat, id: DataItemId) {
    i < |v| && v[i].Some? && v[i].value.accepted && v[i].value.id == id
  }

  /** The value of the last accepted report of id, if there is one. */
  ghost function LastValue(v: seq<Option<DataItem>>, id: DataItemId): Option<int> {
    if v == [] then None
    else if AcceptedAt(v, |v| - 1, id) then Some(v[|v| - 1].value.value)
    else LastValue(v[..|v| - 1], id)
  }

  ghost function Entry(cache: Cache, id: DataItemId): Option<int> { if id in cache then Some(cache[id]) else None }

  /** What is known of id after a batch: its last accepted report, or else what was cached before. */
  ghost function LatestOf(cache: Cache, v: seq<Option<DataItem>>, id: DataItemId): Option<int> {
    if LastValue(v, id).Some? then LastValue(v, id) else Entry(cache, id)
  }

  ghost predicate LastAcceptedAt(v: seq<Option<DataItem>>, i: nat, id: DataItemId) {
    AcceptedAt(v, i, id) && forall j :: i < j < |v| ==> !AcceptedAt(v, j, id)
  }

  /** The last report is just that: no accepted one of the id comes later. */
  lemma {:induction false} LastValueIsLast(v: seq<Option<DataItem>>, id: DataItemId, i: nat)
    ensures LastAcceptedAt(v, i, id) ==> LastValue(v, id) == Some(v[i].value.value)
    ensures AcceptedAt(v, i, id) ==> LastValue(v, id).Some?
  {
    if v != [] && !AcceptedAt(v, |v| - 1, id) {
      var u := v[..|v| - 1];
      LastValueIsLast(u, id, i);
      assert forall j: nat :: j < |u| ==> (AcceptedAt(u, j, id) <==> AcceptedAt(v, j, id));
    }
  }

  lemma LastValueSnoc(v: seq<Option<DataItem>>, x: Option<DataItem>, id: DataItemId)
    ensures LastValue(v + [x], id) ==
      if x.Some? && x.value.accepted && x.value.id == id then Some(x.value.value) else LastValue(v, id)
  {
    assert (v + [x])[..|v|] == v;
  }

  /** Items that can be created, or are cached already, are cached with their latest value; no others are. */
  lemma {:induction false} CacheIsLatest(cache: Cache, known: set<DataItemId>, v: seq<Option<DataItem>>,
                                         id: DataItemId)
    ensures Entry(CacheAfter(cache, known, v), id) ==
      if id in known || id in cache then LatestOf(cache, v, id) else None
  {
    if v != [] {
      CacheIsLatest(cache, known, v[..|v| - 1], id);
    }
  }

  /** Item i brings something new: an accepted report that differs from the latest one before it. */
  ghost predicate NewsAt(cache: Cache, v: seq<Option<DataItem>>, i: nat, id: DataItemId) {
    AcceptedAt(v, i, id) && LatestOf(cache, v[..i], id) != Some(v[i].value.value)
  }

  /** An id is sent exactly if it is cached or can be, and some item of the batch brings news of it. */
  lemma {:induction false} SentIffNews(cache: Cache, known: set<DataItemId>, v: seq<Option<DataItem>>, id: DataItemId)
    ensures id in ToBeSent(cache, known, v) <==>
      (id in known || id in cache) && SomeNews(cache, v, id)
  {
    if v != [] {
      var n := |v| - 1;
      SentIffNews(cache, known, v[..n], id);
      CacheIsLatest(cache, known, v[..n], id);
      NewsStep(cache, v, id);
    }
  }

  ghost predicate SomeNews(cache: Cache, v: seq<Option<DataItem>>, id: DataItemId) {
    exists i :: 0 <= i < |v| && NewsAt(cache, v, i, id)
  }

  lemma NewsStep(cache: Cache, v: seq<Option<DataItem>>, id: DataItemId)
    requires v != []
    ensures SomeNews(cache, v, id) <==> NewsAt(cache, v, |v| - 1, id) || SomeNews(cache, v[..|v| - 1], id)
  {
    var u := v[..|v| - 1];
    forall i: nat | i < |u| ensures NewsAt(cache, u, i, id) == NewsAt(cache, v, i, id) {
      assert u[..i] == v[..i];
    }
    if SomeNews(cache, u, id) {
      var i :| 0 <= i < |u| && NewsAt(cache, u, i, id);
      assert NewsAt(cache, v, i, id);
    }
  }

  /** The batch of notify: the reports in their order, but those that cannot be created, and nothing else. */
  lemma {:induction false} BatchIsReports(dlist: seq<DataItem>, known: set<DataItemId>, id: DataItemId)
    ensures LastValue(Batch(dlist, known), id) == if id in known then LastReport(dlist, id) else None
  {
    NothingInNulls(seq(|dlist|, _ => None), Created(dlist, known), id);
    CreatedIsReports(dlist, known, id);
  }

  ghost function LastReport(dlist: seq<DataItem>, id: DataItemId): Option<int> {
    if dlist == [] then None
    else
      var x := dlist[|dlist| - 1];
      if x.id == id && x.accepted then Some(x.value) else LastReport(dlist[..|dlist| - 1], id)
  }

  lemma {:induction false} CreatedIsReports(dlist: seq<DataItem>, known: set<DataItemId>, id: DataItemId)
    ensures LastValue(Created(dlist, known), id) == if id in known then LastReport(dlist, id) else None
  {
    if dlist != [] {
      var n := |dlist| - 1;
      CreatedIsReports(dlist[..n], known, id);
      var before := Created(dlist[..n], known);
      assert before + [] == before;
      LastValueSnoc(before, Some(dlist[n]), id);
    }
  }

  lemma {:induction false} NothingInNulls(nulls: seq<Option<DataItem>>, v: seq<Option<DataItem>>, id: DataItemId)
    requires forall i :: 0 <= i < |nulls| ==> nulls[i].None?
    ensures LastValue(nulls + v, id) == LastValue(v, id)
    decreases |nulls| + |v|
  {
    if v != [] {
      var n := |v| - 1;
      assert (nulls + v)[..|nulls + v| - 1] == nulls + v[..n];
      NothingInNulls(nulls, v[..n], id);
    } else if nulls != [] {
      assert nulls + v == nulls && nulls[..|nulls| - 1] + [] == nulls[..|nulls| - 1];
      NothingInNulls(nulls[..|nulls| - 1], [], id);
    }
  }

  /** After notify, every item that can be created has the value it was last reported with, if it was. */
  lemma {:induction false} NotifyCaches(cache: Cache, known: set<DataItemId>, dlist: seq<DataItem>, id: DataItemId)
    ensures Entry(CacheAfter(cache, known, Batch(dlist, known)), id) ==
      if id in known && LastReport(dlist, id).Some? then LastReport(dlist, id) else Entry(cache, id)
  {
    CacheIsLatest(cache, known, Batch(dlist, known), id);
    BatchIsReports(dlist, known, id);
  }

  ghost predicate ReportedNews(cache: Cache, dlist: seq<DataItem>, i: nat, id: DataItemId) {
    && i < |dlist| && dlist[i].id == id && dlist[i].accepted
    && var before := LastReport(dlist[..i], id);
       (if before.Some? then before else Entry(cache, id)) != Some(dlist[i].value)
  }

  lemma {:induction false} NullsChangeNothing(cache: Cache, known: set<DataItemId>, nulls: seq<Option<DataItem>>,
                                              v: seq<Option<DataItem>>)
    requires forall i :: 0 <= i < |nulls| ==> nulls[i].None?
    ensures CacheAfter(cache, known, nulls + v) == CacheAfter(cache, known, v)
    ensures ToBeSent(cache, known, nulls + v) == ToBeSent(cache, known, v)
    decreases |nulls| + |v|
  {
    if v != [] {
      assert (nulls + v)[..|nulls + v| - 1] == nulls + v[..|v| - 1];
      NullsChangeNothing(cache, known, nulls, v[..|v| - 1]);
    } else if nulls != [] {
      var before := nulls[..|nulls| - 1];
      assert nulls + v == nulls && before + [] == before;
      NullsChangeNothing(cache, known, before, []);
    }
  }

  /** And it is sent exactly if one of its reports differs from the one before, or from what was cached. */
  lemma {:induction false} NotifySends(cache: Cache, known: set<DataItemId>, dlist: seq<DataItem>, id: DataItemId)
    ensures id in ToBeSent(cache, known, Batch(dlist, known)) <==>
      id in known && SomeReportedNews(cache, dlist, id)
  {
    NullsChangeNothing(cache, known, seq(|dlist|, _ => None), Created(dlist, known));
    CreatedSends(cache, known, dlist, id);
  }

  lemma {:induction false} CreatedSends(cache: Cache, known: set<DataItemId>, dlist: seq<DataItem>, id: DataItemId)
    ensures id in ToBeSent(cache, known, Created(dlist, known)) <==>
      id in known && SomeReportedNews(cache, dlist, id)
  {
    if dlist != [] {
      var n := |dlist| - 1;
      var u := Created(dlist[..n], known);
      CreatedSends(cache, known, dlist[..n], id);
      NewsOfPrefix(cache, dlist, id);
      CacheIsLatest(cache, known, u, id);
      CreatedIsReports(dlist[..n], known, id);
      if dlist[n].id in known { OneMoreCreated(cache, known, u, dlist[n]); }
      assert u + [] == u;
    }
  }

  lemma OneMoreCreated(cache: Cache, known: set<DataItemId>, u: seq<Option<DataItem>>, x: DataItem)
    requires x.id in known
    ensures ToBeSent(cache, known, u + [Some(x)]) == ToBeSent(cache, known, u) +
      if x.accepted && Entry(CacheAfter(cache, known, u), x.id) != Some(x.value) then {x.id} else {}
  {
    assert (u + [Some(x)])[..|u|] == u;
  }

  ghost predicate SomeReportedNews(cache: Cache, dlist: seq<DataItem>, id: DataItemId) {
    exists i :: 0 <= i < |dlist| && ReportedNews(cache, dlist, i, id)
  }

  lemma NewsOfPrefix(cache: Cache, dlist: seq<DataItem>, id: DataItemId)
    requires dlist != []
    ensures SomeReportedNews(cache, dlist, id) <==>
      ReportedNews(cache, dlist, |dlist| - 1, id) || SomeReportedNews(cache, dlist[..|dlist| - 1], id)
  {
    var u := dlist[..|dlist| - 1];
    forall i: nat | i < |u| ensures ReportedNews(cache, u, i, id) == ReportedNews(cache, dlist, i, id) {
      assert u[..i] == dlist[..i];
    }
    if SomeReportedNews(cache, u, id) {
      var i :| 0 <= i < |u| && ReportedNews(cache, u, i, id);
      assert ReportedNews(cache, dlist, i, id);
    }
  }
}
