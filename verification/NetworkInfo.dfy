/** The network types in use, as the status of the network collects them. */
module NetworkInfo {
  import opened StatusReport

  datatype NetworkType = Mobile | Wifi | Ethernet | Bluetooth | Mms | Supl | Dun | Hipri | Wimax

  /** The bits of mAllTypes are the key; rest says whether the item reports a connection,
      which is not compared. */
  type Info = Entry<set<NetworkType>, bool>

  function Collate(item: Info, allTypes: set<NetworkType>): set<NetworkType> {
    if item.rest then item.key + allTypes
    else if item.key != {} then allTypes - item.key
    else {}
  }

  /** The item takes the type out of use: it reports its disconnection or that of all. */
  predicate Ends(item: Info, t: NetworkType) {
    !item.rest && (item.key == {} || t in item.key)
  }

  /** The item at k names the type and no later one ended it. */
  predicate LastsFrom(stream: seq<Info>, t: NetworkType, k: nat)
    requires k < |stream|
  {
    t in stream[k].key && forall j :: k < j < |stream| ==> !Ends(stream[j], t)
  }

  /** Some item connected the type and no later one ended it. */
  predicate InUse(stream: seq<Info>, t: NetworkType) {
    exists k :: 0 <= k < |stream| && stream[k].rest && LastsFrom(stream, t, k)
  }

  /** The types after all items were collated, each with what was there before it. */
  function TypesAfter(stream: seq<Info>): set<NetworkType>
    requires stream != []
  {
    var item := stream[|stream| - 1];
    if |stream| == 1 then item.key else Collate(item, TypesAfter(stream[..|stream| - 1]))
  }

  /** They are what the newest entry of the report shows. */
  lemma {:induction false} ReportShowsTypes(stream: seq<Info>)
    requires stream != []
    ensures var report := Report(Collate, stream);
      report != [] && report[|report| - 1].key == TypesAfter(stream)
    decreases |stream|
  {
    var front, item := stream[..|stream| - 1], stream[|stream| - 1];
    RecordedLast(Collate, Report(Collate, front), item);
    if |stream| > 1 {
      ReportShowsTypes(front);
      assert TypesAfter(stream) == Collate(item, TypesAfter(front));
    } else {
      assert Report(Collate, front) == [];
    }
  }

  /** An item adds the types it connects to those there and takes off those it ends. */
  lemma OneMoreItem(front: seq<Info>, item: Info, t: NetworkType)
    requires front != []
    ensures t in TypesAfter(front + [item]) <==>
      !Ends(item, t) && (t in TypesAfter(front) || (item.rest && t in item.key))
  {
    assert (front + [item])[..|front|] == front;
  }

  predicate Shown(stream: seq<Info>, t: NetworkType) {
    exists k :: 0 <= k < |stream| && (stream[k].rest || k == 0) && LastsFrom(stream, t, k)
  }

  lemma ShownOneMore(front: seq<Info>, item: Info, t: NetworkType)
    requires front != []
    ensures Shown(front + [item], t) <==> !Ends(item, t) && (Shown(front, t) || (item.rest && t in item.key))
  {
    var stream := front + [item];
    assert forall k :: 0 <= k < |front| ==> stream[k] == front[k];
    forall k | 0 <= k < |front|
      ensures LastsFrom(stream, t, k) <==> LastsFrom(front, t, k) && !Ends(item, t)
    {
      assert stream[|front|] == item;
    }
    assert LastsFrom(stream, t, |front|) <==> t in item.key;
    if !Ends(item, t) && Shown(front, t) {
      var k :| 0 <= k < |front| && (front[k].rest || k == 0) && LastsFrom(front, t, k);
      assert LastsFrom(stream, t, k);
    }
  }

  lemma {:induction false} TypesAreShown(stream: seq<Info>, t: NetworkType)
    requires stream != []
    ensures t in TypesAfter(stream) <==> Shown(stream, t)
    decreases |stream|
  {
    var front, item := stream[..|stream| - 1], stream[|stream| - 1];
    assert stream == front + [item];
    if front != [] {
      TypesAreShown(front, t);
      OneMoreItem(front, item, t);
      ShownOneMore(front, item, t);
    } else {
      assert t in item.key <==> LastsFrom(stream, t, 0);
    }
  }

  /** The newest entry shows exactly the types in use, and those the very first item named,
      even as disconnected, until they are ended. */
  lemma ReportShowsTypesInUse(stream: seq<Info>, t: NetworkType)
    requires stream != []
    ensures var report := Report(Collate, stream);
      report != [] && (t in report[|report| - 1].key <==> InUse(stream, t) || LastsFrom(stream, t, 0))
  {
    ReportShowsTypes(stream);
    TypesAreShown(stream, t);
    assert Shown(stream, t) <==> InUse(stream, t) || LastsFrom(stream, t, 0);
  }

  /** The newest entry, if there is one, shows the types in use and no others. */
  ghost predicate Exact(stream: seq<Info>) {
    var report := Report(Collate, stream);
    report != [] ==> forall t :: t in report[|report| - 1].key <==> InUse(stream, t)
  }

  /** Whatever follows, the report shows exactly the types in use if and only if its first
      item is a connection or names no type. */
  lemma ExactFromTheFirstItem(first: Info)
    ensures (forall stream: seq<Info> :: stream != [] && stream[0] == first ==> Exact(stream))
      <==> first.rest || forall t :: t !in first.key
  {
    if first.rest || forall t :: t !in first.key {
      forall stream: seq<Info> | stream != [] && stream[0] == first
        ensures Exact(stream)
      {
        forall t { ReportShowsTypesInUse(stream, t); }
      }
    } else {
      var t :| t in first.key;
      ReportShowsTypesInUse([first], t);
      assert LastsFrom([first], t, 0) && !InUse([first], t);
      assert !Exact([first]);
    }
  }
}
