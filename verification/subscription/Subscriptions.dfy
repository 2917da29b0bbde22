/**
The subscription state of SystemStatusOsObserver as a value, the requests that change it, and
what holds over all runs of requests: who wants what, and what the framework was told.
*/
module Subscriptions {
  import opened Options
  import opened LocUnorderedSetMap

  datatype Client = Client(address: nat)
  datatype DataItemId = DataItemId(n: nat)

  /** registered holds, for each framework object, the items that are registered with it. */
  datatype Net = Net(
    c2d: map<Client, set<DataItemId>>, d2c: map<DataItemId, set<Client>>,
    obj: Option<nat>, registered: map<nat, set<DataItemId>>)

  /** The messages, in the order in which the message thread takes them; requestData is a Subscribe. */
  datatype Request =
    | SetObj(obj: nat)
    | Subscribe(client: Client, items: set<DataItemId>)
    | Unsubscribe(client: Client, items: set<DataItemId>)
    | UnsubscribeAll(client: Client)

  const Initial := Net(map[], map[], None, map[])

  /** The items that some client wants. */
  ghost function Wanted(n: Net): set<DataItemId> { n.d2c.Keys }

  ghost function Registered(n: Net): set<DataItemId> {
    if n.obj.None? then {} else Vals(n.registered, n.obj.value)
  }

  /** The framework, if there is one, is told to register items; it is not told of none. */
  ghost function Tell(n: Net, added: set<DataItemId>): Net {
    if n.obj.None? || added == {} then n
    else n.(registered := n.registered[n.obj.value := Registered(n) + added])
  }

  /** It is told to drop items. */
  ghost function Untell(n: Net, dropped: set<DataItemId>): Net {
    if n.obj.None? || dropped == {} then n
    else n.(registered := n.registered[n.obj.value := Registered(n) - dropped])
  }

  ghost function SubscribeStep(n: Net, client: Client, items: set<DataItemId>): Net {
    var n' := n.(c2d := Added(n.c2d, {client}, items), d2c := Added(n.d2c, items, {client}));
    Tell(n', Wanted(n') - Wanted(n))
  }

  ghost function UnsubscribeStep(n: Net, client: Client, items: set<DataItemId>): Net {
    var gone := Gone(n.c2d, {client}, items);
    var n' := n.(c2d := Trimmed(n.c2d, {client}, items), d2c := Trimmed(n.d2c, gone, {client}));
    Untell(n', Wanted(n) - Wanted(n'))
  }

  ghost function UnsubscribeAllStep(n: Net, client: Client): Net {
    var n' := n.(c2d := n.c2d - {client}, d2c := Trimmed(n.d2c, Vals(n.c2d, client), {client}));
    Untell(n', Wanted(n) - Wanted(n'))
  }

  /** A framework object that is set is told all the items, and its own registrations stay. */
  ghost function SetObjStep(n: Net, obj: nat): Net {
    Tell(n.(obj := Some(obj)), Wanted(n))
  }

  ghost function Step(n: Net, r: Request): Net {
    match r
    case SetObj(obj) => SetObjStep(n, obj)
    case Subscribe(client, items) => SubscribeStep(n, client, items)
    case Unsubscribe(client, items) => UnsubscribeStep(n, client, items)
    case UnsubscribeAll(client) => UnsubscribeAllStep(n, client)
  }

  ghost function Run(rs: seq<Request>): Net {
    if rs == [] then Initial else Step(Run(rs[..|rs| - 1]), rs[|rs| - 1])
  }

  lemma RunStep(rs: seq<Request>, r: Request)
    ensures Run(rs + [r]) == Step(Run(rs), r)
  {
    assert (rs + [r])[..|rs|] == rs;
  }

  /** A client that wants nothing is in no map, so there is nothing to take out. */
  lemma NothingToRemove(n: Net, client: Client)
    requires Paired(n.c2d, n.d2c) && Vals(n.c2d, client) == {}
    ensures UnsubscribeAllStep(n, client) == n
  {
    assert client !in n.c2d;
    assert n.c2d - {client} == n.c2d;
    assert Trimmed(n.d2c, {}, {client}) == n.d2c;
  }

  // ---------------------------------------------------------------- what each request keeps

  ghost predicate NetOk(n: Net) {
    Paired(n.c2d, n.d2c) && (n.obj.Some? ==> Wanted(n) <= Registered(n))
  }

  /** The framework has registered exactly the items that some client wants. */
  ghost predicate InStep(n: Net) { n.obj.Some? && Registered(n) == Wanted(n) }

  /** What the object has registered although nobody wants it. */
  ghost function Stale(n: Net): set<DataItemId> { Registered(n) - Wanted(n) }

  lemma InStepIfNoneStale(n: Net)
    requires NetOk(n) && n.obj.Some?
    ensures InStep(n) <==> Stale(n) == {}
  {
    if Stale(n) == {} {
      assert Registered(n) == Wanted(n) + Stale(n);
    }
  }

  lemma SubscribeKeeps(n: Net, client: Client, items: set<DataItemId>)
    requires NetOk(n)
    ensures var n' := SubscribeStep(n, client, items);
      && NetOk(n') && Wanted(n) <= Wanted(n')
      && (n.obj.Some? ==> Stale(n') == Stale(n) - Wanted(n'))
  {
    AddKeepsPairing(n.c2d, n.d2c, client, items);
  }

  /** Dropping the items that are no longer wanted, and no others, keeps the stale ones as they are. */
  lemma DropKeeps(n: Net, n': Net)
    requires NetOk(n) && Paired(n'.c2d, n'.d2c) && Wanted(n') <= Wanted(n)
    requires n'.obj == n.obj && n'.registered == n.registered
    ensures var n2 := Untell(n', Wanted(n) - Wanted(n'));
      NetOk(n2) && Wanted(n2) == Wanted(n') && (n.obj.Some? ==> Stale(n2) == Stale(n))
  {
    var dropped := Wanted(n) - Wanted(n');
    assert Wanted(n) == Wanted(n') + dropped;
    assert Registered(n) - dropped - Wanted(n') == Registered(n) - Wanted(n);
  }

  lemma UnsubscribeKeeps(n: Net, client: Client, items: set<DataItemId>)
    requires NetOk(n)
    ensures var n' := UnsubscribeStep(n, client, items);
      NetOk(n') && Wanted(n') <= Wanted(n) && (n.obj.Some? ==> Stale(n') == Stale(n))
  {
    TrimKeepsPairing(n.c2d, n.d2c, client, items);
    var gone := Gone(n.c2d, {client}, items);
    DropKeeps(n, n.(c2d := Trimmed(n.c2d, {client}, items), d2c := Trimmed(n.d2c, gone, {client})));
  }

  lemma UnsubscribeAllKeeps(n: Net, client: Client)
    requires NetOk(n)
    ensures var n' := UnsubscribeAllStep(n, client);
      NetOk(n') && Wanted(n') <= Wanted(n) && (n.obj.Some? ==> Stale(n') == Stale(n))
  {
    RemoveKeepsPairing(n.c2d, n.d2c, client);
    DropKeeps(n, n.(c2d := n.c2d - {client}, d2c := Trimmed(n.d2c, Vals(n.c2d, client), {client})));
  }

  lemma SetObjKeeps(n: Net, obj: nat)
    requires NetOk(n)
    ensures var n' := SetObjStep(n, obj);
      && NetOk(n') && n'.obj == Some(obj) && Wanted(n') == Wanted(n)
      && Stale(n') == Vals(n.registered, obj) - Wanted(n)
      && (InStep(n') <==> Vals(n.registered, obj) <= Wanted(n))
  {
  }

  lemma StepKeeps(n: Net, r: Request)
    requires NetOk(n)
    ensures NetOk(Step(n, r))
    ensures n.obj.Some? && (r.SetObj? ==> n.obj == Some(r.obj)) ==>
      Step(n, r).obj == n.obj && Stale(Step(n, r)) == Stale(n) - Wanted(Step(n, r))
  {
    match r
    case SetObj(obj) => SetObjKeeps(n, obj);
    case Subscribe(client, items) => SubscribeKeeps(n, client, items);
    case Unsubscribe(client, items) => UnsubscribeKeeps(n, client, items);
    case UnsubscribeAll(client) => UnsubscribeAllKeeps(n, client);
  }

  /** A request tells nothing to any object but the one that is set by then. */
  lemma OthersUntold(n: Net, r: Request, obj: nat)
    requires Step(n, r).obj != Some(obj)
    ensures Vals(Step(n, r).registered, obj) == Vals(n.registered, obj)
  {
  }

  // ---------------------------------------------------------------- over all runs

  /** The maps are inverse without empty sets, and the object has at least what is wanted. */
  lemma {:induction false} RunsAreOk(rs: seq<Request>)
    ensures NetOk(Run(rs))
    ensures Run(rs).obj.Some? <==> exists i :: 0 <= i < |rs| && rs[i].SetObj?
  {
    if rs != [] {
      var n := |rs| - 1;
      RunsAreOk(rs[..n]);
      StepKeeps(Run(rs[..n]), rs[n]);
      assert rs == rs[..n] + [rs[n]];
    }
  }

  lemma InStepStays(rs: seq<Request>, r: Request)
    requires !r.SetObj?
    ensures InStep(Run(rs)) ==> InStep(Step(Run(rs), r))
  {
    var n := Run(rs);
    RunsAreOk(rs);
    StepKeeps(n, r);
    if InStep(n) {
      InStepIfNoneStale(n);
      InStepIfNoneStale(Step(n, r));
    }
  }

  /** Nothing was ever registered with an object that was never set. */
  lemma {:induction false} NeverSetNeverTold(rs: seq<Request>, obj: nat)
    requires SetObj(obj) !in rs
    ensures Run(rs).obj != Some(obj) && Vals(Run(rs).registered, obj) == {}
  {
    if rs != [] {
      var n := |rs| - 1;
      NeverSetNeverTold(rs[..n], obj);
      OthersUntold(Run(rs[..n]), rs[n], obj);
    }
  }

  /** The object of request i is set by it, and none other is set later. */
  ghost predicate LastSet(rs: seq<Request>, i: nat) {
    i < |rs| && rs[i].SetObj? && forall j :: i < j < |rs| && rs[j].SetObj? ==> rs[j] == rs[i]
  }

  ghost predicate WantedAt(rs: seq<Request>, k: nat, d: DataItemId)
    requires k <= |rs|
  {
    d in Wanted(Run(rs[..k]))
  }

  /** Someone wanted the item when the object of request i was set, or has wanted it since. */
  ghost predicate WantedSince(rs: seq<Request>, i: nat, d: DataItemId) {
    exists k :: i <= k <= |rs| && WantedAt(rs, k, d)
  }

  lemma WantedAtPrefix(rs: seq<Request>, k: nat, d: DataItemId)
    requires k < |rs|
    ensures WantedAt(rs[..|rs| - 1], k, d) == WantedAt(rs, k, d)
  {
    assert rs[..|rs| - 1][..k] == rs[..k];
  }

  lemma WantedSinceStep(rs: seq<Request>, i: nat, d: DataItemId)
    requires i + 1 < |rs|
    ensures WantedSince(rs, i, d) <==> WantedSince(rs[..|rs| - 1], i, d) || d in Wanted(Run(rs))
  {
    WantedAtEnd(rs, d);
    if WantedSince(rs, i, d) && !WantedAt(rs, |rs|, d) {
      WantedEarlier(rs, i, d);
    } else if WantedSince(rs[..|rs| - 1], i, d) {
      WantedStill(rs, i, d);
    }
  }

  lemma WantedAtEnd(rs: seq<Request>, d: DataItemId)
    ensures WantedAt(rs, |rs|, d) == (d in Wanted(Run(rs)))
  {
    assert rs[..|rs|] == rs;
  }

  lemma WantedEarlier(rs: seq<Request>, i: nat, d: DataItemId)
    requires i < |rs| && WantedSince(rs, i, d) && !WantedAt(rs, |rs|, d)
    ensures WantedSince(rs[..|rs| - 1], i, d)
  {
    var k :| i <= k <= |rs| && WantedAt(rs, k, d);
    WantedAtPrefix(rs, k, d);
  }

  lemma WantedStill(rs: seq<Request>, i: nat, d: DataItemId)
    requires i < |rs| && WantedSince(rs[..|rs| - 1], i, d)
    ensures WantedSince(rs, i, d)
  {
    var k :| i <= k < |rs| && WantedAt(rs[..|rs| - 1], k, d);
    WantedAtPrefix(rs, k, d);
  }

  /** What is stale: registered with the object before it was set, and wanted by nobody since. */
  lemma {:induction false} StaleSinceSet(rs: seq<Request>, i: nat)
    requires LastSet(rs, i)
    ensures Run(rs).obj == Some(rs[i].obj)
    ensures forall d :: d in Stale(Run(rs)) <==> d in Vals(Run(rs[..i]).registered, rs[i].obj) && !WantedSince(rs, i, d)
  {
    var n := |rs| - 1;
    var before := rs[..n];
    RunsAreOk(before);
    if i == n {
      SetObjKeeps(Run(before), rs[i].obj);
      assert rs[..n + 1] == rs;
      forall d ensures WantedSince(rs, i, d) <==> d in Wanted(Run(before)) {
        assert WantedAt(rs, n, d) == WantedAt(rs, n + 1, d);
      }
    } else {
      StaleSinceSet(before, i);
      assert before[..i] == rs[..i];
      StepKeeps(Run(before), rs[n]);
      forall d { WantedSinceStep(rs, i, d); }
    }
  }

  /**
  The framework is in step exactly if whatever its object had registered before it was set was
  wanted by somebody then, or has been wanted at some time since.
  */
  lemma {:induction false} InStepIff(rs: seq<Request>, i: nat)
    requires LastSet(rs, i)
    ensures InStep(Run(rs)) <==>
      forall d :: d in Vals(Run(rs[..i]).registered, rs[i].obj) ==> WantedSince(rs, i, d)
  {
    StaleSinceSet(rs, i);
    RunsAreOk(rs);
    InStepIfNoneStale(Run(rs));
  }

  /** An object that is set for the first time is in step, and stays so until it is replaced. */
  lemma {:induction false} FirstSetStaysInStep(rs: seq<Request>, i: nat)
    requires LastSet(rs, i) && rs[i] !in rs[..i]
    ensures InStep(Run(rs))
  {
    NeverSetNeverTold(rs[..i], rs[i].obj);
    InStepIff(rs, i);
  }

  /** An object that was replaced misses it when the last client of an item lets it go. */
  lemma SetAgainIsStale(n: Net, obj: nat, other: nat, c: Client, d: DataItemId)
    requires NetOk(n) && n.obj == Some(obj) && other != obj && d in Wanted(n) && n.d2c[d] == {c}
    ensures !InStep(Step(Step(Step(n, SetObj(other)), Unsubscribe(c, {d})), SetObj(obj)))
  {
    var n1 := Step(n, SetObj(other));
    var n2 := Step(n1, Unsubscribe(c, {d}));
    OthersUntold(n, SetObj(other), obj);
    OthersUntold(n1, Unsubscribe(c, {d}), obj);
    SetObjKeeps(n, other);
    UnsubscribeKeeps(n1, c, {d});
    LastClientGone(n1, c, d);
    SetObjKeeps(n2, obj);
  }

  lemma LastClientGone(n: Net, c: Client, d: DataItemId)
    requires Paired(n.c2d, n.d2c) && d in n.d2c && n.d2c[d] == {c}
    ensures d !in Wanted(UnsubscribeStep(n, c, {d}))
  {
    assert c in Vals(n.d2c, d);
    assert d in Vals(n.c2d, c);
    assert d in Gone(n.c2d, {c}, {d});
    assert n.d2c[d] - {c} == {};
  }

  lemma {:induction false} SetAgainOutOfStep(c: Client, d: DataItemId)
    ensures !InStep(Run([SetObj(1), Subscribe(c, {d}), SetObj(2), Unsubscribe(c, {d}), SetObj(1)]))
  {
    var rs := [SetObj(1), Subscribe(c, {d}), SetObj(2), Unsubscribe(c, {d}), SetObj(1)];
    RunOfFive(rs);
    var n1 := Step(Initial, SetObj(1));
    SetObjKeeps(Initial, 1);
    FirstClient(n1, c, d);
    SubscribeKeeps(n1, c, {d});
    SetAgainIsStale(Step(n1, rs[1]), 1, 2, c, d);
  }

  lemma RunOfFive(rs: seq<Request>)
    requires |rs| == 5
    ensures Run(rs) == Step(Step(Step(Step(Step(Initial, rs[0]), rs[1]), rs[2]), rs[3]), rs[4])
  {
    RunPrefix(rs, 0);
    RunPrefix(rs, 1);
    RunPrefix(rs, 2);
    RunPrefix(rs, 3);
    RunPrefix(rs, 4);
    assert rs[..5] == rs && Run(rs[..0]) == Initial;
  }

  lemma FirstClient(n: Net, c: Client, d: DataItemId)
    requires n.d2c == map[]
    ensures var n' := SubscribeStep(n, c, {d}); n'.obj == n.obj && d in Wanted(n') && n'.d2c[d] == {c}
  {
  }

  lemma RunPrefix(rs: seq<Request>, k: nat)
    requires k < |rs|
    ensures Run(rs[..k + 1]) == Step(Run(rs[..k]), rs[k])
  {
    assert rs[..k + 1][..k] == rs[..k];
  }

  // ---------------------------------------------------------------- the maps and the requests

  /** The request gives the item to the client. */
  predicate Gives(r: Request, c: Client, d: DataItemId) { r.Subscribe? && r.client == c && d in r.items }

  /** The request takes the item from the client. */
  predicate Takes(r: Request, c: Client, d: DataItemId) {
    r == UnsubscribeAll(c) || (r.Unsubscribe? && r.client == c && d in r.items)
  }

  ghost predicate Wants(n: Net, c: Client, d: DataItemId) { d in Vals(n.c2d, c) }

  /** One request gives, takes, or leaves things as they are. */
  lemma StepWantsIff(n: Net, r: Request, c: Client, d: DataItemId)
    requires NetOk(n)
    ensures Wants(Step(n, r), c, d) <==> Gives(r, c, d) || (Wants(n, c, d) && !Takes(r, c, d))
  {
    match r
    case SetObj(_) =>
    case Subscribe(client, items) => AfterAdd(n.c2d, {client}, items, c, d);
    case Unsubscribe(client, items) => AfterTrim(n.c2d, {client}, items, c, d);
    case UnsubscribeAll(client) =>
  }

  /** Request i gave the item to the client, and no later one took it. */
  ghost predicate GivenAt(rs: seq<Request>, i: nat, c: Client, d: DataItemId) {
    i < |rs| && Gives(rs[i], c, d) && forall j :: i < j < |rs| ==> !Takes(rs[j], c, d)
  }

  ghost predicate Given(rs: seq<Request>, c: Client, d: DataItemId) { exists i :: GivenAt(rs, i, c, d) }

  lemma GivenStep(rs: seq<Request>, r: Request, c: Client, d: DataItemId)
    ensures Given(rs + [r], c, d) <==> Gives(r, c, d) || (Given(rs, c, d) && !Takes(r, c, d))
  {
    var all := rs + [r];
    if Gives(r, c, d) {
      assert GivenAt(all, |rs|, c, d);
    }
    if Given(rs, c, d) && !Takes(r, c, d) {
      var i: nat :| GivenAt(rs, i, c, d);
      assert GivenAt(all, i, c, d);
    }
    if Given(all, c, d) && !Gives(r, c, d) {
      var i: nat :| GivenAt(all, i, c, d);
      assert all[|rs|] == r && i < |rs|;
      assert forall j :: i < j < |rs| ==> rs[j] == all[j];
      assert GivenAt(rs, i, c, d);
    }
  }

  /**
  After any run, a client is entered for an item exactly if some request subscribed it and no later
  one unsubscribed it; and so is the item for the client in the other map.
  */
  lemma {:induction false} WantsIff(rs: seq<Request>, c: Client, d: DataItemId)
    ensures Wants(Run(rs), c, d) <==> Given(rs, c, d)
    ensures c in Vals(Run(rs).d2c, d) <==> Given(rs, c, d)
    ensures d in Wanted(Run(rs)) <==> exists x :: Given(rs, x, d)
  {
    WantsEach(rs, c, d);
    RunsAreOk(rs);
    var n := Run(rs);
    if d in Wanted(n) {
      var x :| x in n.d2c[d];
      assert x in Vals(n.d2c, d);
      assert Wants(n, x, d);
      WantsEach(rs, x, d);
    }
    if x :| Given(rs, x, d) {
      WantsEach(rs, x, d);
      assert x in Vals(n.d2c, d);
    }
  }

  lemma {:induction false} WantsEach(rs: seq<Request>, c: Client, d: DataItemId)
    ensures Wants(Run(rs), c, d) <==> Given(rs, c, d)
  {
    if rs != [] {
      var rs0, r := rs[..|rs| - 1], rs[|rs| - 1];
      assert rs == rs0 + [r];
      WantsEach(rs0, c, d);
      RunsAreOk(rs0);
      StepWantsIff(Run(rs0), r, c, d);
      GivenStep(rs0, r, c, d);
    }
  }
}
