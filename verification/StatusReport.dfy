/** The bounded history the system status keeps of each kind of report. */
module StatusReport {

  /** An item as its comparison sees it: key is compared, rest is not, and reported is the
      time stamp that a repeated report refreshes. */
  datatype Entry<K, R> = Entry(key: K, rest: R, reported: int)

  /** The key of an item once it took the latest entry's key into account. */
  type Collation<!K, !R> = (Entry<K, R>, K) -> K

  const MAX_ITEM: nat := 5

  predicate Repeats<K(==), R>(collate: Collation<K, R>, report: seq<Entry<K, R>>, item: Entry<K, R>) {
    report != [] && report[|report| - 1].key == collate(item, report[|report| - 1].key)
  }

  /** The history without a bound: a repeated item only refreshes the time stamp. */
  function Recorded<K(==), R>(collate: Collation<K, R>, report: seq<Entry<K, R>>, item: Entry<K, R>): seq<Entry<K, R>> {
    if report == [] then [item]
    else
      var last := report[|report| - 1];
      if Repeats(collate, report, item) then report[|report| - 1 := last.(reported := item.reported)]
      else report + [item.(key := collate(item, last.key))]
  }

  function LastOf<T>(s: seq<T>): seq<T> {
    if |s| <= MAX_ITEM then s else s[|s| - MAX_ITEM..]
  }

  function History<K(==), R>(collate: Collation<K, R>, stream: seq<Entry<K, R>>): seq<Entry<K, R>> {
    if stream == [] then []
    else Recorded(collate, History(collate, stream[..|stream| - 1]), stream[|stream| - 1])
  }

  /** The report as the code keeps it: one entry is dropped as soon as there are too many. */
  function Report<K(==), R>(collate: Collation<K, R>, stream: seq<Entry<K, R>>): seq<Entry<K, R>> {
    if stream == [] then []
    else LastOf(Recorded(collate, Report(collate, stream[..|stream| - 1]), stream[|stream| - 1]))
  }

  /** The bounded report is the end of the whole history: dropping the oldest entries never
      changes how a later item is recorded. */
  lemma {:induction false} ReportIsLatestHistory<K, R>(collate: Collation<K, R>, stream: seq<Entry<K, R>>)
    ensures Report(collate, stream) == LastOf(History(collate, stream))
    ensures |Report(collate, stream)| ==
      if |History(collate, stream)| < MAX_ITEM then |History(collate, stream)| else MAX_ITEM
    decreases |stream|
  {
    if stream != [] {
      var front, item := stream[..|stream| - 1], stream[|stream| - 1];
      ReportIsLatestHistory(collate, front);
      RecordingCommutes(collate, History(collate, front), item);
    }
  }

  lemma RecordingCommutes<K, R>(collate: Collation<K, R>, history: seq<Entry<K, R>>, item: Entry<K, R>)
    ensures LastOf(Recorded(collate, LastOf(history), item)) == LastOf(Recorded(collate, history, item))
  {
    if history != [] {
      var last := history[|history| - 1];
      assert LastOf(history)[|LastOf(history)| - 1] == last;
      if Repeats(collate, history, item) {
        LastOfUpdated(history, last.(reported := item.reported));
      } else {
        LastOfAppended(history, item.(key := collate(item, last.key)));
      }
    }
  }

  lemma LastOfUpdated<T>(s: seq<T>, x: T)
    requires s != []
    ensures LastOf(LastOf(s)[|LastOf(s)| - 1 := x]) == LastOf(s[|s| - 1 := x])
  {
  }

  lemma LastOfAppended<T>(s: seq<T>, x: T)
    ensures LastOf(LastOf(s) + [x]) == LastOf(s + [x])
  {
  }

  /** Repeated or not, the latest entry has the key the new item collates to, and its time
      stamp; a new item keeps its rest, and a repeated one leaves that of the first. */
  lemma RecordedLast<K, R>(collate: Collation<K, R>, report: seq<Entry<K, R>>, item: Entry<K, R>)
    ensures var after := LastOf(Recorded(collate, report, item));
      && after != []
      && after[|after| - 1].key == (if report == [] then item.key else collate(item, report[|report| - 1].key))
      && after[|after| - 1].reported == item.reported
      && after[|after| - 1].rest ==
           if report != [] && report[|report| - 1].key == collate(item, report[|report| - 1].key)
           then report[|report| - 1].rest else item.rest
  {
  }

  /** The plain collation keeps an item as it is. */
  function Plain<K, R>(item: Entry<K, R>, latest: K): K { item.key }

  /** The entry stands for the items of the stream in from .. to: it is the first of them,
      at the time stamp of the last, and they are all equal. */
  ghost predicate StandsFor<K(!new), R>(stream: seq<Entry<K, R>>, e: Entry<K, R>, from: nat, to: nat) {
    && from < to <= |stream|
    && e.rest == stream[from].rest && e.reported == stream[to - 1].reported
    && forall j :: from <= j < to ==> stream[j].key == e.key
  }

  /** Where the items of each entry of a history begin; those of the last end with the stream. */
  function Starts<K(==), R>(stream: seq<Entry<K, R>>): (starts: seq<nat>)
    ensures |starts| == |History(Plain, stream)|
  {
    if stream == [] then []
    else
      var front, item := stream[..|stream| - 1], stream[|stream| - 1];
      if Repeats(Plain, History(Plain, front), item) then Starts(front) else Starts(front) + [|front|]
  }

  function EndOf(starts: seq<nat>, k: nat, length: nat): nat
    requires k < |starts|
  {
    if k + 1 < |starts| then starts[k + 1] else length
  }

  lemma StandsForInLonger<K(!new), R>(front: seq<Entry<K, R>>, item: Entry<K, R>, e: Entry<K, R>, from: nat, to: nat)
    requires StandsFor(front, e, from, to)
    ensures StandsFor(front + [item], e, from, to)
    ensures to == |front| && e.key == item.key ==>
      StandsFor(front + [item], e.(reported := item.reported), from, to + 1)
  {
    assert forall j :: 0 <= j < |front| ==> (front + [item])[j] == front[j];
  }

  /** The history of plain items collapses their stream: its entries stand for consecutive
      runs of equal items that together make up the stream. */
  lemma {:induction false} HistoryCollapsesRuns<K(!new), R>(stream: seq<Entry<K, R>>, k: nat)
    requires k < |History(Plain, stream)|
    ensures var history, starts := History(Plain, stream), Starts(stream);
      && starts[0] == 0
      && StandsFor(stream, history[k], starts[k], EndOf(starts, k, |stream|))
      && (k > 0 ==> history[k - 1].key != history[k].key)
    decreases |stream|
  {
    var front, item := stream[..|stream| - 1], stream[|stream| - 1];
    assert stream == front + [item];
    var h, before := History(Plain, stream), History(Plain, front);
    if before != [] {
      HistoryCollapsesRuns(front, 0);
    }
    if k < |before| {
      HistoryCollapsesRuns(front, k);
      StandsForInLonger(front, item, before[k], Starts(front)[k], EndOf(Starts(front), k, |front|));
    }
  }

  /** What one more item does to a report: refresh the last entry, or append and drop the
      first if there are too many. */
  lemma ReportOneMore<K, R>(collate: Collation<K, R>, stream: seq<Entry<K, R>>, item: Entry<K, R>)
    ensures var report := Report(collate, stream);
      var kept := if report == [] then item else item.(key := collate(item, report[|report| - 1].key));
      Report(collate, stream + [item]) ==
        if Repeats(collate, report, item)
        then report[|report| - 1 := report[|report| - 1].(reported := item.reported)]
        else if |report| + 1 > MAX_ITEM then (report + [kept])[1..] else report + [kept]
  {
    assert (stream + [item])[..|stream|] == stream;
    ReportIsLatestHistory(collate, stream);
  }

  /** The report of one kind of item, a vector that is updated in place. */
  class ItemReport<K(==), R> {
    const collate: Collation<K, R>
    var items: seq<Entry<K, R>>
    ghost var stream: seq<Entry<K, R>>

    ghost predicate Valid()
      reads this
    {
      items == Report(collate, stream)
    }

    constructor (collate: Collation<K, R>)
      ensures Valid() && this.collate == collate && stream == []
    {
      this.collate := collate;
      items, stream := [], [];
    }

    /** Whether the item was new. */
    method SetIteminReport(s: Entry<K, R>) returns (updated: bool)
      requires Valid()
      modifies this
      ensures Valid() && stream == old(stream) + [s]
      ensures updated <==> !Repeats(collate, old(items), s)
    {
      ReportOneMore(collate, stream, s);
      stream := stream + [s];
      var item := s;
      if items != [] {
        var last := items[|items| - 1];
        item := item.(key := collate(item, last.key));
        if last.key == item.key {
          items := items[|items| - 1 := last.(reported := item.reported)];
          return false;
        }
      }
      items := items + [item];
      if |items| > MAX_ITEM {
        items := items[1..];
      }
      return true;
    }
  }
}
