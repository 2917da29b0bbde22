/**
SystemStatusOsObserver: who subscribed to which data item, kept in two maps, the registrations
with the framework, and the delivery of changed items. Each method is an API call together
with the proc of the message it sends; the one message thread runs these one by one.
*/
module OsObserver {
  import opened Options
  import opened LocUnorderedSetMap
  import opened Subscriptions
  import opened ItemCache

  /** One call of notify on a client. */
  datatype Delivery = Delivery(to: Client, items: Cache)

  /** The cached ones of some items, with their values. */
  ghost function Restrict(cache: Cache, s: set<DataItemId>): (r: Cache)
    ensures r.Keys == cache.Keys * s && forall id :: id in r ==> r[id] == cache[id]
  {
    map id | id in s && id in cache :: cache[id]
  }

  ghost predicate CalledOnce(calls: seq<Delivery>) {
    forall i, j :: 0 <= i < j < |calls| ==> calls[i].to != calls[j].to
  }

  ghost predicate Called(calls: seq<Delivery>, c: Client) { exists i :: 0 <= i < |calls| && calls[i].to == c }

  /** Exactly the clients with a changed item among their own are called, once, with just those. */
  ghost predicate ExactDelivery(calls: seq<Delivery>, c2d: map<Client, set<DataItemId>>, changed: set<DataItemId>,
                                cache: Cache) {
    && CalledOnce(calls)
    && (forall c :: Called(calls, c) <==> Vals(c2d, c) * changed != {})
    && (forall i :: 0 <= i < |calls| ==>
          var mine := Vals(c2d, calls[i].to) * changed;
          mine <= cache.Keys && calls[i].items == Restrict(cache, mine))
  }

  ghost function OneMoreCall(calls: seq<Delivery>, call: Delivery): (r: seq<Delivery>)
    requires CalledOnce(calls) && !Called(calls, call.to)
    ensures r == calls + [call] && CalledOnce(r)
    ensures forall c :: Called(r, c) <==> Called(calls, c) || c == call.to
  {
    var r := calls + [call];
    assert r[|calls|] == call;
    assert forall i :: 0 <= i < |calls| ==> r[i] == calls[i];
    r
  }

  class SystemStatusOsObserver {
    const mClientToDataItems: LocUnorderedSetMap<Client, DataItemId>
    const mDataItemToClients: LocUnorderedSetMap<DataItemId, Client>
    const mKnown: set<DataItemId>              // what the data item factory can create
    var mDataItemCache: Cache
    var mSubscriptionObj: Option<nat>
    var registered: map<nat, set<DataItemId>>  // per framework object, the items registered with it
    var sent: seq<Delivery>
    ghost var requests: seq<Request>           // the messages taken so far

    /** The object is where its run of requests leads; so what holds over all runs holds of it. */
    ghost predicate Valid()
      reads this, mClientToDataItems, mDataItemToClients
    {
      Value() == Run(requests)
    }

    ghost function Value(): Net
      reads this, mClientToDataItems, mDataItemToClients
    {
      Net(mClientToDataItems.mMap, mDataItemToClients.mMap, mSubscriptionObj, registered)
    }

    ghost function Items(): map<Client, set<DataItemId>>
      reads mClientToDataItems
    {
      mClientToDataItems.mMap
    }

    /** One more request was taken, and its step was done. */
    twostate predicate Took(r: Request)
      reads this, mClientToDataItems, mDataItemToClients
    {
      requests == old(requests) + [r] && Value() == Step(old(Value()), r)
    }

    twostate predicate TookNothing()
      reads this, mClientToDataItems, mDataItemToClients
    {
      requests == old(requests) && Value() == old(Value())
    }

    constructor (known: set<DataItemId>)
      ensures Valid() && fresh(mClientToDataItems) && fresh(mDataItemToClients)
      ensures mKnown == known && mDataItemCache == map[] && sent == []
      ensures requests == [] && Value() == Subscriptions.Initial
    {
      mClientToDataItems := new LocUnorderedSetMap<Client, DataItemId>();
      mDataItemToClients := new LocUnorderedSetMap<DataItemId, Client>();
      mKnown, mDataItemCache, mSubscriptionObj, registered, sent, requests := known, map[], None, map[], [], [];
    }

    /** subscribe or requestData of the framework object; both register the items. */
    method Register(items: set<DataItemId>)
      requires mSubscriptionObj.Some? && items != {}
      modifies `registered
      ensures Value() == Tell(old(Value()), items)
    {
      var obj := mSubscriptionObj.value;
      var before := if obj in registered then registered[obj] else {};
      registered := registered[obj := before + items];
    }

    method Unregister(items: set<DataItemId>)
      requires mSubscriptionObj.Some? && items != {}
      modifies `registered
      ensures Value() == Untell(old(Value()), items)
    {
      var obj := mSubscriptionObj.value;
      var before := if obj in registered then registered[obj] else {};
      registered := registered[obj := before - items];
    }

    /**
    A framework object, unless it is null, is told all the items that are wanted; it is in step
    exactly if it had no other item registered before.
    */
    method SetSubscriptionObj(subscriptionObj: Option<nat>)
      requires Valid()
      modifies `mSubscriptionObj, `registered, `requests
      ensures Valid()
      ensures if subscriptionObj.None? then TookNothing() else Took(SetObj(subscriptionObj.value))
      ensures subscriptionObj.Some? ==>
        (InStep(Value()) <==> Vals(old(registered), subscriptionObj.value) <= mDataItemToClients.mMap.Keys)
    {
      if subscriptionObj.None? { return; }
      ghost var r := SetObj(subscriptionObj.value);
      RunStep(requests, r);
      RunsAreOk(requests);
      SetObjKeeps(Value(), subscriptionObj.value);
      requests := requests + [r];
      mSubscriptionObj := subscriptionObj;
      if !mDataItemToClients.Empty() {
        var dis := mDataItemToClients.GetKeys();
        ghost var n := Value();
        Register(dis);
        Register(dis);  // requestData
        assert Registered(n) + dis + dis == Registered(n) + dis;
      }
    }

    method Subscribe(l: seq<DataItemId>, client: Option<Client>, toRequestData: bool)
      requires Valid()
      modifies `registered, `sent, `requests, mClientToDataItems, mDataItemToClients
      ensures Valid() && (old(InStep(Value())) ==> InStep(Value()))
      ensures if l == [] || client.None? then TookNothing()
              else Took(Request.Subscribe(client.value, set i | i in l))
      ensures var cached := Restrict(mDataItemCache, set i | i in l);
        sent == if client.None? || cached == map[] then old(sent) else old(sent) + [Delivery(client.value, cached)]
    {
      if l == [] || client.None? { return; }
      var dataItemSet := set i | i in l;
      ghost var r := Request.Subscribe(client.value, dataItemSet);
      RunStep(requests, r);
      InStepStays(requests, r);
      requests := requests + [r];
      HandleSubscribeReq(client.value, dataItemSet, toRequestData);
    }

    /** HandleSubscribeReq::proc. */
    method HandleSubscribeReq(mClient: Client, mDataItemSet: set<DataItemId>, mToRequestData: bool)
      modifies `registered, `sent, mClientToDataItems, mDataItemToClients
      ensures Value() == SubscribeStep(old(Value()), mClient, mDataItemSet)
      ensures var cached := Restrict(mDataItemCache, mDataItemSet);
        sent == if cached == map[] then old(sent) else old(sent) + [Delivery(mClient, cached)]
    {
      var dataItemsToSubscribe := mDataItemToClients.Add(mDataItemSet, {mClient});
      var _ := mClientToDataItems.AddEntry(mClient, mDataItemSet);
      SendCachedDataItems(mDataItemSet, mClient);
      if mSubscriptionObj.Some? && dataItemsToSubscribe != {} {
        if mToRequestData {
          Register(dataItemsToSubscribe);
        } else {
          Register(dataItemsToSubscribe);
        }
      }
    }

    method Unsubscribe(l: seq<DataItemId>, client: Option<Client>)
      requires Valid()
      modifies `registered, `requests, mClientToDataItems, mDataItemToClients
      ensures Valid() && (old(InStep(Value())) ==> InStep(Value()))
      ensures if l == [] || client.None? then TookNothing()
              else Took(Request.Unsubscribe(client.value, set i | i in l))
    {
      if l == [] || client.None? { return; }
      var dataItemSet := set i | i in l;
      ghost var r := Request.Unsubscribe(client.value, dataItemSet);
      RunStep(requests, r);
      InStepStays(requests, r);
      requests := requests + [r];
      var _, unusedByClient := mClientToDataItems.TrimOrRemove({client.value}, dataItemSet);
      var dataItemsToUnsubscribe, _ := mDataItemToClients.TrimOrRemove(unusedByClient, {client.value});
      if mSubscriptionObj.Some? && dataItemsToUnsubscribe != {} {
        Unregister(dataItemsToUnsubscribe);
      }
    }

    method UnsubscribeAll(client: Option<Client>)
      requires Valid()
      modifies `registered, `requests, mClientToDataItems, mDataItemToClients
      ensures Valid() && (old(InStep(Value())) ==> InStep(Value()))
      ensures if client.None? then TookNothing() else Took(Request.UnsubscribeAll(client.value))
    {
      if client.None? { return; }
      ghost var r := Request.UnsubscribeAll(client.value);
      RunStep(requests, r);
      InStepStays(requests, r);
      requests := requests + [r];
      var diByClient := mClientToDataItems.GetValSet(client.value);
      if diByClient != {} {
        var _ := mClientToDataItems.Remove(client.value);
        var dataItemsToUnsubscribe, _ := mDataItemToClients.TrimOrRemove(diByClient, {client.value});
        if dataItemsToUnsubscribe != {} && mSubscriptionObj.Some? {
          Unregister(dataItemsToUnsubscribe);
        }
      } else {
        RunsAreOk(old(requests));
        NothingToRemove(Value(), client.value);
      }
    }

    method Notify(dlist: seq<DataItem>)
      requires Valid()
      modifies `mDataItemCache, `sent
      ensures Valid() && TookNothing()
      ensures var v := Batch(dlist, mKnown);
        && mDataItemCache == CacheAfter(old(mDataItemCache), mKnown, v)
        && |sent| >= |old(sent)| && sent[..|old(sent)|] == old(sent)
        && ExactDelivery(sent[|old(sent)|..], Items(), ToBeSent(old(mDataItemCache), mKnown, v), mDataItemCache)
    {
      var dataItemVec: seq<Option<DataItem>> := seq(|dlist|, _ => None);
      ghost var nulls := dataItemVec;
      for i := 0 to |dlist|
        invariant dataItemVec == nulls + Created(dlist[..i], mKnown)
      {
        assert dlist[..i + 1][..i] == dlist[..i];
        if dlist[i].id in mKnown {
          dataItemVec := dataItemVec + [Some(dlist[i])];
        }
      }
      assert dlist[..|dlist|] == dlist;
      HandleNotify(dataItemVec);
    }

    /** HandleNotify::proc. */
    method HandleNotify(mDiVec: seq<Option<DataItem>>)
      requires Valid()
      modifies `mDataItemCache, `sent
      ensures mDataItemCache == CacheAfter(old(mDataItemCache), mKnown, mDiVec)
      ensures |sent| >= |old(sent)| && sent[..|old(sent)|] == old(sent)
      ensures ExactDelivery(sent[|old(sent)|..], Items(), ToBeSent(old(mDataItemCache), mKnown, mDiVec), mDataItemCache)
    {
      var toBeSent := {};
      for i := 0 to |mDiVec|
        invariant mDataItemCache == CacheAfter(old(mDataItemCache), mKnown, mDiVec[..i])
        invariant toBeSent == ToBeSent(old(mDataItemCache), mKnown, mDiVec[..i])
        invariant sent == old(sent)
      {
        var u := mDiVec[..i + 1];
        assert u[..i] == mDiVec[..i] && u[i] == mDiVec[i];
        var updated := UpdateCache(mDiVec[i]);
        if updated {
          toBeSent := toBeSent + {mDiVec[i].value.id};
        }
      }
      assert mDiVec[..|mDiVec|] == mDiVec;
      SentIsCached(old(mDataItemCache), mKnown, mDiVec);
      var clientSet := ClientsOf(toBeSent);
      SendToAll(clientSet, toBeSent);
    }

    method UpdateCache(d: Option<DataItem>) returns (dataItemUpdated: bool)
      modifies `mDataItemCache
      ensures (mDataItemCache, dataItemUpdated) == Updated(old(mDataItemCache), mKnown, d)
    {
      dataItemUpdated := false;
      if d.Some? && d.value.accepted {
        var id := d.value.id;
        if id !in mDataItemCache {
          if id in mKnown {
            mDataItemCache := mDataItemCache[id := d.value.value];
            dataItemUpdated := true;
          }
        } else {
          dataItemUpdated := mDataItemCache[id] != d.value.value;
          mDataItemCache := mDataItemCache[id := d.value.value];
        }
      }
    }

    /** All clients of the items, from the item-to-clients map; by the pairing, no other and no fewer. */
    method ClientsOf(items: set<DataItemId>) returns (clientSet: set<Client>)
      requires Valid()
      ensures forall c :: c in clientSet <==> Vals(Items(), c) * items != {}
    {
      clientSet := {};
      var todo := items;
      while todo != {}
        invariant todo <= items
        invariant forall c :: c in clientSet <==> exists d :: d in items - todo && c in Vals(mDataItemToClients.mMap, d)
      {
        var each :| each in todo;
        ghost var done := items - todo;
        todo := todo - {each};
        assert items - todo == done + {each};
        if each in mDataItemToClients.mMap {
          clientSet := clientSet + mDataItemToClients.mMap[each];
        }
      }
      RunsAreOk(requests);
      forall c ensures c in clientSet <==> Vals(Items(), c) * items != {} {
        if d :| d in Vals(Items(), c) * items {
          assert c in Vals(mDataItemToClients.mMap, d) && d in items - todo;
        }
        if c in clientSet {
          var d :| d in items - todo && c in Vals(mDataItemToClients.mMap, d);
          assert d in Vals(Items(), c) * items;
        }
      }
    }

    /** The loop over the clients of HandleNotify::proc. */
    method SendToAll(clientSet: set<Client>, toBeSent: set<DataItemId>)
      requires toBeSent <= mDataItemCache.Keys
      requires forall c :: c in clientSet <==> Vals(Items(), c) * toBeSent != {}
      modifies `sent
      ensures |sent| >= |old(sent)| && sent[..|old(sent)|] == old(sent)
      ensures ExactDelivery(sent[|old(sent)|..], Items(), toBeSent, mDataItemCache)
    {
      var todo := clientSet;
      ghost var calls: seq<Delivery> := [];
      while todo != {}
        invariant todo <= clientSet && sent == old(sent) + calls
        invariant forall i :: 0 <= i < |calls| ==>
          calls[i].items == Restrict(mDataItemCache, Vals(Items(), calls[i].to) * toBeSent)
        invariant CalledOnce(calls)
        invariant forall c :: Called(calls, c) <==> c in clientSet - todo
      {
        var client :| client in todo;
        todo := todo - {client};
        var forThisClient := mClientToDataItems.GetValSet(client);
        forThisClient := KeepOnly(forThisClient, toBeSent);
        var d :| d in forThisClient;
        assert d in Restrict(mDataItemCache, forThisClient);
        SendCachedDataItems(forThisClient, client);
        calls := OneMoreCall(calls, Delivery(client, Restrict(mDataItemCache, forThisClient)));
      }
      assert sent[|old(sent)|..] == calls;
    }

    /** Erases from a client's items those that are not to be sent. */
    static method KeepOnly(items: set<DataItemId>, toBeSent: set<DataItemId>) returns (left: set<DataItemId>)
      ensures left == items * toBeSent
    {
      left := items;
      var todo := items;
      while todo != {}
        invariant todo <= items && left == items - ((items - todo) - toBeSent)
      {
        var itr :| itr in todo;
        todo := todo - {itr};
        if itr !in toBeSent {
          left := left - {itr};
        }
      }
    }

    method SendCachedDataItems(s: set<DataItemId>, to: Client)
      modifies `sent
      ensures var items := Restrict(mDataItemCache, s);
        sent == if items == map[] then old(sent) else old(sent) + [Delivery(to, items)]
    {
      var dataItems: Cache := map[];
      var todo := s;
      while todo != {}
        invariant todo <= s && dataItems == Restrict(mDataItemCache, s - todo) && sent == old(sent)
      {
        var each :| each in todo;
        ghost var done := s - todo;
        todo := todo - {each};
        assert s - todo == done + {each};
        if each in mDataItemCache {
          dataItems := dataItems[each := mDataItemCache[each]];
        }
      }
      assert s - todo == s;
      if dataItems != map[] {
        sent := sent + [Delivery(to, dataItems)];
      }
    }
  }
}
