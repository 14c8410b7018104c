/** Who wants which data items. The observer keeps the answer twice, by client and by item,
    and sends a client what both tables agree on. */
module Subscriptions {
  import opened SetMaps

  datatype Client = Client(address: int)
  datatype Item = Item(id: int)

  datatype Tables = Tables(clientToItems: map<Client, set<Item>>, itemToClients: map<Item, set<Client>>)

  /** The tables after a request, and what the framework is told to start and stop watching. */
  datatype Reply = Reply(tables: Tables, subscribe: set<Item>, unsubscribe: set<Item>)

  predicate Wants(t: Tables, c: Client, i: Item) { i in Get(t.clientToItems, c) }

  predicate Serves(t: Tables, c: Client, i: Item) { c in Get(t.itemToClients, i) }

  ghost predicate NoEmpty(t: Tables) {
    NoEmptyEntry(t.clientToItems) && NoEmptyEntry(t.itemToClients)
  }

  /** The two tables are converse relations. */
  ghost predicate Converse(t: Tables) {
    NoEmpty(t) && forall c, i :: Wants(t, c, i) <==> Serves(t, c, i)
  }

  // ----- the requests; items is not empty, which the entry points see to

  function Subscribe(t: Tables, c: Client, items: set<Item>): Reply {
    Reply(Tables(AddedOne(t.clientToItems, c, items), AddedAll(t.itemToClients, items, {c})),
          items - t.itemToClients.Keys, {})
  }

  /** The values the update reports as gone are those the client had and keeps. */
  function UpdateSubscription(t: Tables, c: Client, items: set<Item>): Reply {
    ReplaceItems(t, c, items, Get(t.clientToItems, c) * items)
  }

  /** Gives c the items in place of those it had, and takes it from the entries of gone. */
  function ReplaceItems(t: Tables, c: Client, items: set<Item>, gone: set<Item>): Reply {
    var added := items - Get(t.clientToItems, c);
    var trimmed := Trimmed(t.itemToClients, gone, {c});
    Reply(Tables(t.clientToItems[c := items], AddedAll(trimmed, added, {c})),
          added - trimmed.Keys,
          Emptied(t.itemToClients, gone, {c}))
  }

  function Unsubscribe(t: Tables, c: Client, items: set<Item>): Reply {
    var unused := Get(t.clientToItems, c) * items;
    Reply(Tables(Trimmed(t.clientToItems, {c}, items), Trimmed(t.itemToClients, unused, {c})),
          {}, Emptied(t.itemToClients, unused, {c}))
  }

  function UnsubscribeAll(t: Tables, c: Client): Reply {
    var all := Get(t.clientToItems, c);
    if all == {} then Reply(t, {}, {})
    else
      Reply(Tables(t.clientToItems - {c}, Trimmed(t.itemToClients, all, {c})),
            {}, Emptied(t.itemToClients, all, {c}))
  }

  // ----- what each request means for the two relations

  lemma SubscribeMeans(t: Tables, c: Client, items: set<Item>)
    requires NoEmpty(t)
    ensures var n := Handle(t, SubscribeReq(c, items));
      && NoEmpty(n)
      && (forall d, i :: Wants(n, d, i) <==> Wants(t, d, i) || (d == c && i in items))
      && (forall d, i :: Serves(n, d, i) <==> Serves(t, d, i) || (d == c && i in items))
  {
  }

  lemma ReplaceMeans(t: Tables, c: Client, items: set<Item>, gone: set<Item>)
    requires NoEmpty(t) && items != {} && gone !! (items - Get(t.clientToItems, c))
    ensures var n := ReplaceItems(t, c, items, gone).tables;
      && NoEmpty(n)
      && (forall d, i :: Wants(n, d, i) <==> if d == c then i in items else Wants(t, d, i))
      && (forall d, i :: Serves(n, d, i) <==>
           if d != c then Serves(t, d, i)
           else (Serves(t, c, i) && i !in gone) || (i in items && !Wants(t, c, i)))
  {
  }

  /** An update without items is ignored; any other leaves the client wanting exactly the
      items, and served those it did not want before and those it was served, but for the ones
      it wanted before and still does. */
  lemma UpdateMeans(t: Tables, c: Client, items: set<Item>)
    requires NoEmpty(t)
    ensures var n := Handle(t, UpdateReq(c, items));
      && NoEmpty(n)
      && (items == {} ==> n == t)
      && (items != {} ==> forall d, i :: Wants(n, d, i) <==> if d == c then i in items else Wants(t, d, i))
      && (items != {} ==> forall d, i :: Serves(n, d, i) <==>
            if d != c then Serves(t, d, i)
            else if i in items then !Wants(t, c, i) else Serves(t, c, i))
  {
    if items != {} {
      ReplaceMeans(t, c, items, Get(t.clientToItems, c) * items);
    }
  }

  lemma UnsubscribeMeans(t: Tables, c: Client, items: set<Item>)
    requires NoEmpty(t)
    ensures var n := Handle(t, UnsubscribeReq(c, items));
      && NoEmpty(n)
      && (forall d, i :: Wants(n, d, i) <==> Wants(t, d, i) && !(d == c && i in items))
      && (forall d, i :: Serves(n, d, i) <==> Serves(t, d, i) && !(d == c && i in items && Wants(t, c, i)))
  {
  }

  lemma UnsubscribeAllMeans(t: Tables, c: Client)
    requires NoEmpty(t)
    ensures var n := Handle(t, UnsubscribeAllReq(c));
      && NoEmpty(n)
      && (forall d, i :: Wants(n, d, i) <==> Wants(t, d, i) && d != c)
      && (forall d, i :: Serves(n, d, i) <==> Serves(t, d, i) && !(d == c && Wants(t, c, i)))
  {
  }

  /** Updating a subscription keeps the tables converse exactly if the client had no
      subscription: it is taken off the items it had and keeps, and left on those it gave up. */
  lemma UpdateKeepsConverse(t: Tables, c: Client, items: set<Item>)
    requires Converse(t) && items != {}
    ensures Converse(UpdateSubscription(t, c, items).tables) <==> Get(t.clientToItems, c) == {}
  {
    var cur := Get(t.clientToItems, c);
    ReplaceMeans(t, c, items, cur * items);
    var n := UpdateSubscription(t, c, items).tables;
    if cur != {} {
      var i :| i in cur;
      assert Wants(t, c, i) && Serves(t, c, i);
      assert Wants(n, c, i) != Serves(n, c, i);
    } else {
      forall d: Client, i: Item
        ensures Wants(n, d, i) <==> Serves(n, d, i)
      {
        assert Wants(t, d, i) <==> Serves(t, d, i);
        assert d == c ==> i !in cur;
      }
    }
  }

  /** With the values the client really gives up, as the map's comment describes the update,
      the tables would stay converse always. */
  lemma DocumentedUpdateKeepsConverse(t: Tables, c: Client, items: set<Item>)
    requires Converse(t) && items != {}
    ensures Converse(ReplaceItems(t, c, items, Get(t.clientToItems, c) - items).tables)
  {
    ReplaceMeans(t, c, items, Get(t.clientToItems, c) - items);
  }

  // ----- what the framework is told

  /** Each request asks the framework to watch exactly the items that got their first
      client, and to stop watching exactly those that lost their last one. */
  lemma FrameworkFollowsItems(t: Tables, c: Client, items: set<Item>)
    requires NoEmpty(t) && items != {}
    ensures TellsChanges(t, Subscribe(t, c, items))
    ensures TellsChanges(t, UpdateSubscription(t, c, items))
    ensures TellsChanges(t, Unsubscribe(t, c, items))
    ensures TellsChanges(t, UnsubscribeAll(t, c))
  {
  }

  ghost predicate TellsChanges(t: Tables, r: Reply) {
    && r.subscribe == r.tables.itemToClients.Keys - t.itemToClients.Keys
    && r.unsubscribe == t.itemToClients.Keys - r.tables.itemToClients.Keys
  }

  // ----- notifications

  /** The clients looked up for the updated items. */
  function Notified(t: Tables, updated: set<Item>): set<Client> {
    UnionOf(t.itemToClients, updated)
  }

  /** What client c is sent for the updated items; it is called back only if that is something. */
  function Sent(t: Tables, updated: set<Item>, c: Client): set<Item> {
    if c in Notified(t, updated) then Get(t.clientToItems, c) * updated else {}
  }

  /** While the tables are converse every client is sent exactly the updated items it
      subscribed to. */
  lemma NotifyIsExact(t: Tables, updated: set<Item>, c: Client)
    requires Converse(t)
    ensures Sent(t, updated, c) == Get(t.clientToItems, c) * updated
    ensures c in Notified(t, updated) <==> Sent(t, updated, c) != {}
  {
    var mine := Get(t.clientToItems, c) * updated;
    if c in Notified(t, updated) {
      var i :| i in updated && Serves(t, c, i);
      assert Wants(t, c, i);
      assert i in mine;
    } else if mine != {} {
      var i :| i in mine;
      assert Wants(t, c, i) && !Serves(t, c, i);
      assert false;
    }
  }

  // ----- whole runs

  datatype Request =
    | SubscribeReq(c: Client, items: set<Item>)
    | UpdateReq(c: Client, items: set<Item>)
    | UnsubscribeReq(c: Client, items: set<Item>)
    | UnsubscribeAllReq(c: Client)

  /** The entry points ignore requests without items. */
  function Handle(t: Tables, r: Request): Tables {
    match r
    case SubscribeReq(c, items) => if items == {} then t else Subscribe(t, c, items).tables
    case UpdateReq(c, items) => if items == {} then t else UpdateSubscription(t, c, items).tables
    case UnsubscribeReq(c, items) => if items == {} then t else Unsubscribe(t, c, items).tables
    case UnsubscribeAllReq(c) => UnsubscribeAll(t, c).tables
  }

  function HandleAll(rs: seq<Request>): Tables {
    if rs == [] then Tables(map[], map[]) else Handle(HandleAll(rs[..|rs| - 1]), rs[|rs| - 1])
  }

  /** Updates came only from clients without a subscription. */
  predicate UpdatesAreFirst(rs: seq<Request>) {
    rs == [] ||
    (var front, r := rs[..|rs| - 1], rs[|rs| - 1];
     UpdatesAreFirst(front) && (r.UpdateReq? && r.items != {} ==> Get(HandleAll(front).clientToItems, r.c) == {}))
  }

  /** No run leaves an empty entry in either table. */
  lemma {:induction false} RunsLeaveNoEmptyEntry(rs: seq<Request>)
    ensures NoEmpty(HandleAll(rs))
    decreases |rs|
  {
    if rs != [] {
      var t, r := HandleAll(rs[..|rs| - 1]), rs[|rs| - 1];
      RunsLeaveNoEmptyEntry(rs[..|rs| - 1]);
      match r
      case SubscribeReq(c, items) => SubscribeMeans(t, c, items);
      case UpdateReq(c, items) => UpdateMeans(t, c, items);
      case UnsubscribeReq(c, items) => UnsubscribeMeans(t, c, items);
      case UnsubscribeAllReq(c) => UnsubscribeAllMeans(t, c);
    }
  }

  lemma HandleKeepsConverse(t: Tables, r: Request)
    requires Converse(t)
    requires r.UpdateReq? && r.items != {} ==> Get(t.clientToItems, r.c) == {}
    ensures Converse(Handle(t, r))
  {
    match r
    case SubscribeReq(c, items) => SubscribeMeans(t, c, items);
    case UpdateReq(c, items) => if items != {} { UpdateKeepsConverse(t, c, items); }
    case UnsubscribeReq(c, items) => UnsubscribeMeans(t, c, items);
    case UnsubscribeAllReq(c) => UnsubscribeAllMeans(t, c);
  }

  ghost predicate AlwaysConverse(rs: seq<Request>)
    decreases |rs|
  {
    Converse(HandleAll(rs)) && (rs == [] || AlwaysConverse(rs[..|rs| - 1]))
  }

  /** The tables are converse all through a run exactly if in it updates came only from
      clients without a subscription. */
  lemma {:induction false} RunsStayConverse(rs: seq<Request>)
    ensures AlwaysConverse(rs) <==> UpdatesAreFirst(rs)
    decreases |rs|
  {
    if rs != [] {
      var front, r := rs[..|rs| - 1], rs[|rs| - 1];
      RunsStayConverse(front);
      if AlwaysConverse(front) {
        var t := HandleAll(front);
        if r.UpdateReq? && r.items != {} {
          UpdateKeepsConverse(t, r.c, r.items);
        } else {
          HandleKeepsConverse(t, r);
        }
      }
    }
  }

  /** The tables had the map's update reported the values a client gives up, as documented. */
  function HandleAllAsDocumented(rs: seq<Request>): Tables {
    if rs == [] then Tables(map[], map[])
    else
      var t, r := HandleAllAsDocumented(rs[..|rs| - 1]), rs[|rs| - 1];
      if r.UpdateReq? && r.items != {} then ReplaceItems(t, r.c, r.items, Get(t.clientToItems, r.c) - r.items).tables
      else Handle(t, r)
  }

  /** Then they would be converse after every run, and so every notification exact. */
  lemma {:induction false} DocumentedRunsStayConverse(rs: seq<Request>)
    ensures Converse(HandleAllAsDocumented(rs))
    decreases |rs|
  {
    if rs != [] {
      var t, r := HandleAllAsDocumented(rs[..|rs| - 1]), rs[|rs| - 1];
      DocumentedRunsStayConverse(rs[..|rs| - 1]);
      if r.UpdateReq? && r.items != {} {
        DocumentedUpdateKeepsConverse(t, r.c, r.items);
      } else {
        HandleKeepsConverse(t, r);
      }
    }
  }

  /** A client that widens its subscription from one item to two stops being sent the first. */
  lemma WideningSilencesTheOldItem(c: Client, i: Item, j: Item)
    requires i != j
    ensures var t := HandleAll([SubscribeReq(c, {i}), UpdateReq(c, {i, j})]);
      Wants(t, c, i) && Sent(t, {i}, c) == {}
  {
  }
}
