/** The observer that hands data items on from the operating system to its clients. */
module OsObserver {
  import opened SetMaps
  import opened Subscriptions

  type Data = int

  type Cache = map<Item, Data>

  /** A data item as it arrives; handled says whether the system status takes it. */
  datatype Arrival = Arrival(item: Item, data: Data, handled: bool)

  predicate Changes(cache: Cache, a: Arrival) {
    a.handled && (a.item !in cache || cache[a.item] != a.data)
  }

  function CacheAfter(cache: Cache, arrivals: seq<Arrival>): Cache {
    if arrivals == [] then cache
    else
      var front, a := CacheAfter(cache, arrivals[..|arrivals| - 1]), arrivals[|arrivals| - 1];
      if Changes(front, a) then front[a.item := a.data] else front
  }

  /** The items some arrival changed in the cache. */
  function Updated(cache: Cache, arrivals: seq<Arrival>): set<Item> {
    if arrivals == [] then {}
    else
      var before, a := arrivals[..|arrivals| - 1], arrivals[|arrivals| - 1];
      Updated(cache, before) + if Changes(CacheAfter(cache, before), a) then {a.item} else {}
  }

  /** An arrival of the item that brings something the cache does not hold. */
  ghost predicate BringsNews(cache: Cache, arrivals: seq<Arrival>, i: Item) {
    exists k :: 0 <= k < |arrivals| && arrivals[k].item == i && Changes(cache, arrivals[k])
  }

  lemma NewsOneMore(cache: Cache, before: seq<Arrival>, a: Arrival, i: Item)
    ensures BringsNews(cache, before + [a], i) <==>
      BringsNews(cache, before, i) || (a.item == i && Changes(cache, a))
  {
    var arrivals := before + [a];
    if k :| 0 <= k < |before| && before[k].item == i && Changes(cache, before[k]) {
      assert arrivals[k] == before[k];
    } else if a.item == i && Changes(cache, a) {
      assert arrivals[|before|] == a;
    }
  }

  /** An item counts as updated exactly if some arrival of it brought other data than the
      cache held at first, and it keeps its cached data otherwise. */
  lemma {:induction false} UpdatedMeans(cache: Cache, arrivals: seq<Arrival>, i: Item)
    ensures i in Updated(cache, arrivals) <==> BringsNews(cache, arrivals, i)
    ensures i in Updated(cache, arrivals) ==> i in CacheAfter(cache, arrivals)
    ensures i !in Updated(cache, arrivals) ==>
      (i in CacheAfter(cache, arrivals) <==> i in cache) && (i in cache ==> CacheAfter(cache, arrivals)[i] == cache[i])
    decreases |arrivals|
  {
    if arrivals != [] {
      var before, a := arrivals[..|arrivals| - 1], arrivals[|arrivals| - 1];
      UpdatedMeans(cache, before, i);
      NewsOneMore(cache, before, a, i);
      assert arrivals == before + [a];
    }
  }

  /** The cache holds of every item what its latest handled arrival brought. */
  lemma {:induction false} CacheIsLatest(cache: Cache, arrivals: seq<Arrival>, k: nat)
    requires k < |arrivals| && arrivals[k].handled
    requires forall j :: k < j < |arrivals| && arrivals[j].handled ==> arrivals[j].item != arrivals[k].item
    ensures arrivals[k].item in CacheAfter(cache, arrivals)
    ensures CacheAfter(cache, arrivals)[arrivals[k].item] == arrivals[k].data
    decreases |arrivals|
  {
    var before := arrivals[..|arrivals| - 1];
    if k < |before| {
      CacheIsLatest(cache, before, k);
    }
  }

  /** What each client is called back with. */
  function CallBacks(t: Tables, cache: Cache, updated: set<Item>): map<Client, Cache> {
    map c | c in Notified(t, updated) && Restricted(cache, Sent(t, updated, c)) != map[] ::
      Restricted(cache, Sent(t, updated, c))
  }

  function Restricted(cache: Cache, items: set<Item>): Cache {
    map i | i in items && i in cache :: cache[i]
  }

  /** Whatever the tables hold, a client is called back with an item exactly if it wants it,
      the item was updated, and the other table names the client for some updated item. */
  lemma CallBacksMean(t: Tables, cache: Cache, updated: set<Item>, c: Client, i: Item)
    ensures var sent := CallBacks(t, cache, updated);
      && (c in sent && i in sent[c] <==>
           Wants(t, c, i) && i in updated && i in cache && exists j :: j in updated && Serves(t, c, j))
      && (c in sent ==> sent[c] != map[])
      && (c in sent && i in sent[c] ==> sent[c][i] == cache[i])
  {
    if Wants(t, c, i) && i in updated && i in cache {
      assert i in Restricted(cache, Get(t.clientToItems, c) * updated);
    }
  }

  /** While the tables are converse a notification calls back exactly the clients that
      subscribed to an item with news, each with exactly those items, at their latest data. */
  lemma NewsReachesItsSubscribers(t: Tables, cache: Cache, arrivals: seq<Arrival>, c: Client, i: Item)
    requires Converse(t)
    ensures var sent := CallBacks(t, CacheAfter(cache, arrivals), Updated(cache, arrivals));
      && (c in sent && i in sent[c] <==> Wants(t, c, i) && BringsNews(cache, arrivals, i))
      && (c in sent ==> sent[c] != map[])
      && (c in sent && i in sent[c] ==> sent[c][i] == CacheAfter(cache, arrivals)[i])
  {
    var after, updated := CacheAfter(cache, arrivals), Updated(cache, arrivals);
    UpdatedMeans(cache, arrivals, i);
    NotifyIsExact(t, updated, c);
    var mine := Restricted(after, Sent(t, updated, c));
    assert i in mine <==> Wants(t, c, i) && BringsNews(cache, arrivals, i);
    if i in mine {
      assert mine != map[];
    }
  }

  class SystemStatusOsObserver {
    const mClientToDataItems: LocUnorderedSetMap<Client, Item>
    const mDataItemToClients: LocUnorderedSetMap<Item, Client>
    var mDataItemCache: Cache
    /** Whether the framework's subscription object was given. */
    var subscribable: bool

    ghost function Value(): Tables
      reads mClientToDataItems, mDataItemToClients
    {
      Tables(mClientToDataItems.mMap, mDataItemToClients.mMap)
    }

    constructor ()
      ensures fresh(mClientToDataItems) && fresh(mDataItemToClients)
      ensures Value() == HandleAll([]) && mDataItemCache == map[] && !subscribable
    {
      mClientToDataItems := new LocUnorderedSetMap();
      mDataItemToClients := new LocUnorderedSetMap();
      mDataItemCache := map[];
      subscribable := false;
    }

    /** The framework is asked at once to watch, and for the data of, all items somebody
        subscribed to earlier. */
    method SetSubscriptionObj() returns (subscribed: set<Item>, requested: set<Item>)
      modifies this`subscribable
      ensures subscribable && subscribed == requested == mDataItemToClients.mMap.Keys
    {
      subscribable := true;
      subscribed, requested := {}, {};
      if mDataItemToClients.mMap != map[] {
        var dis := mDataItemToClients.mMap.Keys;
        subscribed, requested := dis, dis;
      }
    }

    /** first is what the client is sent at once. */
    method Subscribe(l: seq<Item>, client: Client, toRequestData: bool)
        returns (first: Cache, requested: seq<Item>, subscribed: set<Item>)
      modifies mClientToDataItems, mDataItemToClients
      ensures var items := set i | i in l;
        && Value() == Handle(old(Value()), SubscribeReq(client, items))
        && first == Restricted(mDataItemCache, items)
        && requested == (if subscribable && toRequestData then l else [])
        && subscribed == if items == {} || !subscribable || toRequestData then {}
                         else Subscriptions.Subscribe(old(Value()), client, items).subscribe
    {
      first, requested, subscribed := map[], [], {};
      if l != [] {
        var items := set i | i in l;
        assert l[0] in items;
        var dataItemsToSubscribe := mDataItemToClients.AddAll(items, {client});
        var _ := mClientToDataItems.Add(client, items);
        first := Restricted(mDataItemCache, items);
        if subscribable {
          if toRequestData {
            requested := l;
          } else {
            subscribed := dataItemsToSubscribe;
          }
        }
      }
    }

    /** Only items that are new to the client are sent to it at once. */
    method UpdateSubscription(l: seq<Item>, client: Client)
        returns (first: Cache, subscribed: set<Item>, unsubscribed: set<Item>)
      modifies mClientToDataItems, mDataItemToClients
      ensures var items, t := set i | i in l, old(Value());
        && Value() == Handle(t, UpdateReq(client, items))
        && first == Restricted(mDataItemCache, items - Get(t.clientToItems, client))
        && subscribed == (if items == {} || !subscribable then {}
                          else Subscriptions.UpdateSubscription(t, client, items).subscribe)
        && unsubscribed == if items == {} || !subscribable then {}
                           else Subscriptions.UpdateSubscription(t, client, items).unsubscribe
    {
      first, subscribed, unsubscribed := map[], {}, {};
      if l != [] {
        var items := set i | i in l;
        assert l[0] in items;
        var gone, added := mClientToDataItems.Update(client, items);
        var dataItemsToUnsubscribe, _ := mDataItemToClients.TrimOrRemove(gone, {client});
        var dataItemsToSubscribe := mDataItemToClients.AddAll(added, {client});
        first := Restricted(mDataItemCache, added);
        if subscribable {
          subscribed, unsubscribed := dataItemsToSubscribe, dataItemsToUnsubscribe;
        }
      }
    }

    method Unsubscribe(l: seq<Item>, client: Client) returns (unsubscribed: set<Item>)
      modifies mClientToDataItems, mDataItemToClients
      ensures var items, t := set i | i in l, old(Value());
        && Value() == Handle(t, UnsubscribeReq(client, items))
        && unsubscribed == if items == {} || !subscribable then {}
                           else Subscriptions.Unsubscribe(t, client, items).unsubscribe
    {
      unsubscribed := {};
      if l != [] {
        var items := set i | i in l;
        assert l[0] in items;
        var _, unused := mClientToDataItems.TrimOrRemove({client}, items);
        assert unused == Get(old(mClientToDataItems.mMap), client) * items;
        var dataItemsToUnsubscribe, _ := mDataItemToClients.TrimOrRemove(unused, {client});
        if subscribable {
          unsubscribed := dataItemsToUnsubscribe;
        }
      }
    }

    method UnsubscribeAll(client: Client) returns (unsubscribed: set<Item>)
      modifies mClientToDataItems, mDataItemToClients
      ensures var t := old(Value());
        && Value() == Handle(t, UnsubscribeAllReq(client))
        && unsubscribed == if !subscribable then {} else Subscriptions.UnsubscribeAll(t, client).unsubscribe
    {
      unsubscribed := {};
      var diByClient := mClientToDataItems.GetValSet(client);
      if diByClient != {} {
        var _ := mClientToDataItems.Remove(client);
        var dataItemsToUnsubscribe, _ := mDataItemToClients.TrimOrRemove(diByClient, {client});
        if subscribable {
          unsubscribed := dataItemsToUnsubscribe;
        }
      }
    }

    method UpdateCache(a: Arrival) returns (dataItemUpdated: bool)
      modifies this`mDataItemCache
      ensures dataItemUpdated <==> Changes(old(mDataItemCache), a)
      ensures mDataItemCache == if dataItemUpdated then old(mDataItemCache)[a.item := a.data] else old(mDataItemCache)
    {
      dataItemUpdated := false;
      if a.handled {
        if a.item !in mDataItemCache {
          mDataItemCache := mDataItemCache[a.item := a.data];
          dataItemUpdated := true;
        } else {
          dataItemUpdated := mDataItemCache[a.item] != a.data;
          mDataItemCache := mDataItemCache[a.item := a.data];
        }
      }
    }

    /** Takes the arrivals into the cache and returns what each client is called back with. */
    method Notify(arrivals: seq<Arrival>) returns (sent: map<Client, Cache>)
      modifies this`mDataItemCache
      ensures mDataItemCache == CacheAfter(old(mDataItemCache), arrivals)
      ensures sent == CallBacks(Value(), mDataItemCache, Updated(old(mDataItemCache), arrivals))
    {
      var updated := UpdateCacheWith(arrivals);
      sent := CallBack(updated);
    }

    method UpdateCacheWith(arrivals: seq<Arrival>) returns (updated: set<Item>)
      modifies this`mDataItemCache
      ensures mDataItemCache == CacheAfter(old(mDataItemCache), arrivals)
      ensures updated == Updated(old(mDataItemCache), arrivals)
    {
      updated := {};
      for n := 0 to |arrivals|
        invariant mDataItemCache == CacheAfter(old(mDataItemCache), arrivals[..n])
        invariant updated == Updated(old(mDataItemCache), arrivals[..n])
      {
        assert arrivals[..n + 1][..n] == arrivals[..n];
        var changed := UpdateCache(arrivals[n]);
        if changed {
          updated := updated + {arrivals[n].item};
        }
      }
      assert arrivals[..|arrivals|] == arrivals;
    }

    method CallBack(updated: set<Item>) returns (sent: map<Client, Cache>)
      ensures sent == CallBacks(Value(), mDataItemCache, updated)
    {
      var clientSet := ClientsOf(updated);
      sent := map[];
      var todo := clientSet;
      while todo != {}
        invariant todo <= clientSet
        invariant forall c :: c in sent <==> c in CallBacks(Value(), mDataItemCache, updated) && c !in todo
        invariant forall c :: c in sent ==> sent[c] == CallBacks(Value(), mDataItemCache, updated)[c]
        decreases |todo|
      {
        var client :| client in todo;
        var items := mClientToDataItems.GetValSet(client);
        var dataItems := Restricted(mDataItemCache, items * updated);
        if dataItems != map[] {
          sent := sent[client := dataItems];
        }
        todo := todo - {client};
      }
    }

    method ClientsOf(items: set<Item>) returns (clientSet: set<Client>)
      ensures clientSet == Notified(Value(), items)
    {
      clientSet := {};
      var todo := items;
      while todo != {}
        invariant todo <= items
        invariant clientSet == Notified(Value(), items - todo)
        decreases |todo|
      {
        var each :| each in todo;
        var clients := mDataItemToClients.GetValSet(each);
        UnionOneMore(mDataItemToClients.mMap, items, todo, each);
        clientSet := clientSet + clients;
        todo := todo - {each};
      }
      assert items - todo == items;
    }
  }
}
