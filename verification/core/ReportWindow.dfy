/** The bounded reports of SystemStatus, against the log of every change that was ever reported. */
module ReportWindow {

  /** A stored item: its value, and mUtcReported. */
  datatype Item<V> = Item(value: V, mUtcReported: int)

  /** What a class of items defines: when two are equal, and how a new one takes in the current one. */
  datatype Kind<!V> = Kind(equals: (V, V) -> bool, collate: (V, V) -> V)

  datatype Event<V> = Reported(item: Item<V>) | Default(item: Item<V>)

  const MAX_ITEM := 5

  /** The entry that an event adds to the log, if it adds one. */
  function Entry<V>(kind: Kind<V>, log: seq<V>, e: Event<V>): seq<V> {
    if e.Default? || log == [] then [e.item.value]
    else
      var v := kind.collate(e.item.value, log[|log| - 1]);
      if kind.equals(log[|log| - 1], v) then [] else [v]
  }

  /** The unbounded log: a reported item equal to its predecessor adds nothing. */
  function Log<V>(kind: Kind<V>, events: seq<Event<V>>): (log: seq<V>)
    ensures log == [] <==> events == []
  {
    if events == [] then []
    else
      var before := Log(kind, events[..|events| - 1]);
      before + Entry(kind, before, events[|events| - 1])
  }

  function Last<V>(n: nat, log: seq<V>): seq<V> {
    if |log| > n then log[|log| - n..] else log
  }

  function Values<V>(items: seq<Item<V>>): (values: seq<V>)
    ensures |values| == |items| && forall i :: 0 <= i < |items| ==> values[i] == items[i].value
  {
    seq(|items|, i requires 0 <= i < |items| => items[i].value)
  }

  /** Pushing to the window, and dropping its front, is pushing to the log. */
  lemma PushSlides<V>(n: nat, log: seq<V>, v: V)
    requires n > 0
    ensures Last(n, log + [v]) == Last(n, Last(n, log) + [v])
    ensures log != [] ==> Last(n, log) != [] && Last(n, log)[|Last(n, log)| - 1] == log[|log| - 1]
  {
  }

  lemma LogStep<V>(kind: Kind<V>, events: seq<Event<V>>, e: Event<V>)
    ensures Log(kind, events + [e]) == Log(kind, events) + Entry(kind, Log(kind, events), e)
  {
    assert (events + [e])[..|events|] == events;
  }

  class Report<V> {
    const kind: Kind<V>
    var items: seq<Item<V>>
    ghost var events: seq<Event<V>>

    /** The window holds the last entries of the log, and its newest item was last reported by the last event. */
    ghost predicate Valid()
      reads this
    {
      && Values(items) == Last(MAX_ITEM, Log(kind, events))
      && (items == [] <==> events == [])
      && (items != [] ==> items[|items| - 1].mUtcReported == events[|events| - 1].item.mUtcReported)
    }

    constructor (kind: Kind<V>)
      ensures Valid() && events == [] && this.kind == kind
    {
      this.kind := kind;
      items, events := [], [];
    }

    /** setIteminReport, which tells whether the item was a change. */
    method SetItemInReport(s: Item<V>) returns (changed: bool)
      requires Valid()
      modifies this
      ensures Valid() && events == old(events) + [Reported(s)]
      ensures changed <==> Log(kind, events) != Log(kind, old(events))
      ensures |items| == if |Log(kind, events)| < 5 then |Log(kind, events)| else 5
      ensures items != [] && items[|items| - 1].mUtcReported == s.mUtcReported
      ensures var n := |old(items)|;
        if n == 0 then changed && items == [s]
        else
          var current := old(items)[n - 1].value;
          var v := kind.collate(s.value, current);
          && (changed <==> !kind.equals(current, v))
          && (if changed then items[|items| - 1].value == v else Values(items) == Values(old(items)))
    {
      LogStep(kind, events, Reported(s));
      PushSlides(MAX_ITEM, Log(kind, events), s.value);
      events := events + [Reported(s)];
      var item := s;
      var n := |items|;
      if n > 0 {
        item := Item(kind.collate(s.value, items[n - 1].value), s.mUtcReported);
        if kind.equals(items[n - 1].value, item.value) {
          ghost var was := items;
          items := items[n - 1 := Item(items[n - 1].value, item.mUtcReported)];
          assert Values(items) == Values(was);
          return false;
        }
      }
      PushItem(item, Log(kind, old(events)));
      return true;
    }

    method SetDefaultItemInReport(s: Item<V>)
      requires Valid()
      modifies this
      ensures Valid() && events == old(events) + [Default(s)]
      ensures |items| == if |Log(kind, events)| < 5 then |Log(kind, events)| else 5
      ensures items != [] && items[|items| - 1] == s
    {
      LogStep(kind, events, Default(s));
      events := events + [Default(s)];
      PushItem(s, Log(kind, old(events)));
    }

    method PushItem(s: Item<V>, ghost log: seq<V>)
      requires Values(items) == Last(MAX_ITEM, log)
      modifies `items
      ensures Values(items) == Last(MAX_ITEM, log + [s.value])
      ensures items != [] && items[|items| - 1] == s
    {
      PushSlides(MAX_ITEM, log, s.value);
      ghost var was := items;
      items := items + [s];
      assert Values(items) == Values(was) + [s.value];
      if |items| > MAX_ITEM {
        assert Values(items[1..]) == Values(items)[1..];
        items := items[1..];
      }
    }

    /** getIteminReport: the last entry of the log, at the time it was last reported. */
    method GetItemInReport() returns (out: seq<Item<V>>)
      requires Valid()
      ensures events == [] ==> out == []
      ensures events != [] ==>
        var log := Log(kind, events);
        out == [Item(log[|log| - 1], events[|events| - 1].item.mUtcReported)]
    {
      if events != [] { PushSlides(MAX_ITEM, Log(kind, events), events[0].item.value); }
      out := [];
      if |items| >= 1 {
        out := [items[|items| - 1]];
      }
    }
  }

  /** A default item is always the newest entry, whatever was there: the latest-only query yields just it. */
  lemma DefaultIsLatest<V>(kind: Kind<V>, events: seq<Event<V>>, s: Item<V>)
    ensures var log, log' := Log(kind, events), Log(kind, events + [Default(s)]);
      |log'| == |log| + 1 && log'[..|log|] == log && log'[|log|] == s.value
  {
    LogStep(kind, events, Default(s));
  }

  /** A reported item adds the value it collates to, unless that is equal to the newest entry. */
  lemma ReportIsLatest<V>(kind: Kind<V>, events: seq<Event<V>>, s: Item<V>)
    ensures var log, log' := Log(kind, events), Log(kind, events + [Reported(s)]);
      if events == [] then log' == [s.value]
      else
        var last := log[|log| - 1];
        var v := kind.collate(s.value, last);
        if kind.equals(last, v) then log' == log
        else |log'| == |log| + 1 && log'[..|log|] == log && log'[|log|] == v
  {
    LogStep(kind, events, Reported(s));
    assert Log(kind, events) + [] == Log(kind, events);
  }

  /** The items of a run that has no default items. */
  predicate OnlyReports<V>(events: seq<Event<V>>) { forall i :: 0 <= i < |events| ==> events[i].Reported? }

  /** In a log of reported items no entry is equal to the one before it. */
  lemma {:induction false} NoEntryRepeats<V>(kind: Kind<V>, events: seq<Event<V>>, i: nat)
    requires OnlyReports(events) && i + 1 < |Log(kind, events)|
    ensures !kind.equals(Log(kind, events)[i], Log(kind, events)[i + 1])
  {
    var before := events[..|events| - 1];
    if i + 1 < |Log(kind, before)| { NoEntryRepeats(kind, before, i); }
  }

  /** mAllTypes is the set of the bits of the mask. */
  datatype NetworkInfo = NetworkInfo(mAllTypes: set<nat>, mConnected: bool)

  /** SystemStatusNetworkInfo::equals. */
  predicate NetworkEquals(a: NetworkInfo, b: NetworkInfo) { a.mAllTypes == b.mAllTypes }

  /** SystemStatusNetworkInfo::collate. */
  function NetworkCollate(s: NetworkInfo, current: NetworkInfo): NetworkInfo {
    if s.mConnected then s.(mAllTypes := s.mAllTypes + current.mAllTypes)
    else if s.mAllTypes != {} then s.(mAllTypes := current.mAllTypes - s.mAllTypes)
    else s
  }

  const NETWORK: Kind<NetworkInfo> := Kind(NetworkEquals, NetworkCollate)

  /** The first event connects its types whatever it says, and every other one if it is connected. */
  predicate Connects(events: seq<Event<NetworkInfo>>, i: nat, kind: nat)
    requires i < |events|
  {
    kind in events[i].item.value.mAllTypes && (i == 0 || events[i].item.value.mConnected)
  }

  /** An item that is not connected disconnects its own types, or all of them if it has none. */
  predicate Disconnects(v: NetworkInfo, kind: nat) {
    !v.mConnected && (v.mAllTypes == {} || kind in v.mAllTypes)
  }

  ghost predicate NoneDisconnects(events: seq<Event<NetworkInfo>>, i: nat, kind: nat) {
    forall j :: i < j < |events| ==> !Disconnects(events[j].item.value, kind)
  }

  /** The type is connected by one event, and disconnected by none since. */
  ghost predicate IsConnected(events: seq<Event<NetworkInfo>>, kind: nat) {
    exists i :: 0 <= i < |events| && Connects(events, i, kind) && NoneDisconnects(events, i, kind)
  }

  /** Although reports are dropped, the newest entry has exactly the types that the reports connect. */
  lemma {:induction false} LatestNetworkTypes(events: seq<Event<NetworkInfo>>, kind: nat)
    requires OnlyReports(events) && events != []
    ensures var log := Log(NETWORK, events);
      kind in log[|log| - 1].mAllTypes <==> IsConnected(events, kind)
  {
    var n := |events| - 1;
    var log := Log(NETWORK, events);
    if n == 0 {
      assert log == [events[0].item.value];
      assert NoneDisconnects(events, 0, kind);
    } else {
      LatestNetworkTypes(events[..n], kind);
      ConnectedStep(events, kind);
    }
  }

  lemma ConnectedStep(events: seq<Event<NetworkInfo>>, kind: nat)
    requires |events| > 1
    ensures var n := |events| - 1;
      IsConnected(events, kind) <==>
        Connects(events, n, kind) || (IsConnected(events[..n], kind) && !Disconnects(events[n].item.value, kind))
  {
    var n := |events| - 1;
    var before := events[..n];
    if Connects(events, n, kind) {
      assert NoneDisconnects(events, n, kind);
    } else if IsConnected(events, kind) {
      var i :| 0 <= i < |events| && Connects(events, i, kind) && NoneDisconnects(events, i, kind);
      assert Connects(before, i, kind) && NoneDisconnects(before, i, kind);
    } else if IsConnected(before, kind) && !Disconnects(events[n].item.value, kind) {
      var i :| 0 <= i < n && Connects(before, i, kind) && NoneDisconnects(before, i, kind);
      assert Connects(events, i, kind) && NoneDisconnects(events, i, kind);
    }
  }
}
