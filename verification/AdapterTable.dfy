/** The bounded list of adapters a location API serves: specification. */
module AdapterTable {
  const MAX_ADAPTERS: nat := 10

  ghost predicate Distinct<T>(s: seq<T>) {
    forall i, j :: 0 <= i < j < |s| ==> s[i] != s[j]
  }

  /** An adapter that is listed already, or for which there is no room, changes nothing. */
  function Added<T(==)>(s: seq<T>, a: T): seq<T> {
    if a in s || |s| >= MAX_ADAPTERS then s else s + [a]
  }

  function IndexOf<T(==)>(s: seq<T>, a: T): (i: nat)
    requires a in s
    ensures i < |s| && s[i] == a && a !in s[..i]
  {
    if s[0] == a then 0 else 1 + IndexOf(s[1..], a)
  }

  /** The last adapter takes the place of the one removed. */
  function Removed<T(==)>(s: seq<T>, a: T): seq<T> {
    if a !in s then s else s[IndexOf(s, a) := s[|s| - 1]][..|s| - 1]
  }

  ghost function Members<T>(s: seq<T>): set<T> { set x | x in s }

  lemma AddingKeeps<T>(s: seq<T>, a: T)
    requires Distinct(s) && |s| <= MAX_ADAPTERS
    ensures Distinct(Added(s, a)) && |Added(s, a)| <= MAX_ADAPTERS
    ensures Members(Added(s, a)) == Members(s) + if |s| < MAX_ADAPTERS then {a} else {}
    ensures s <= Added(s, a)
  {
  }

  lemma RemovedAt<T>(s: seq<T>, a: T, k: nat)
    requires a in s && k < |s| - 1
    ensures |Removed(s, a)| == |s| - 1
    ensures Removed(s, a)[k] == if k == IndexOf(s, a) then s[|s| - 1] else s[k]
  {
  }

  /** Removing takes exactly the given adapter off the list and leaves no hole. */
  lemma RemovingKeeps<T>(s: seq<T>, a: T)
    requires Distinct(s)
    ensures Distinct(Removed(s, a)) && |Removed(s, a)| == if a in s then |s| - 1 else |s|
    ensures Members(Removed(s, a)) == Members(s) - {a}
  {
    if a in s {
      var i, last, r := IndexOf(s, a), |s| - 1, Removed(s, a);
      assert |r| == last;
      forall k | 0 <= k < last
        ensures r[k] == if k == i then s[last] else s[k]
      {
        RemovedAt(s, a, k);
      }
      assert Distinct(r);
      forall x | x in s && x != a
        ensures x in r
      {
        var k :| 0 <= k < |s| && s[k] == x;
        assert r[if k == last then i else k] == x;
      }
      forall x | x in r
        ensures x in s && x != a
      {
        var k :| 0 <= k < last && r[k] == x;
        assert s[if k == i then last else k] == x;
      }
    }
  }

  datatype Op<T> = Add(a: T) | Remove(a: T)

  function Run<T(==)>(ops: seq<Op<T>>): seq<T> {
    if ops == [] then []
    else
      var front, op := Run(ops[..|ops| - 1]), ops[|ops| - 1];
      if op.Add? then Added(front, op.a) else Removed(front, op.a)
  }

  /** The adapters that should be listed, were there always room. */
  ghost function Wanted<T>(ops: seq<Op<T>>): set<T> {
    if ops == [] then {}
    else
      var front, op := Wanted(ops[..|ops| - 1]), ops[|ops| - 1];
      if op.Add? then front + {op.a} else front - {op.a}
  }

  /** In every run the adapters listed are distinct, at most as many as fit, and only ones
      that should be listed. */
  lemma {:induction false} RunsStayDistinct<T>(ops: seq<Op<T>>)
    ensures Distinct(Run(ops)) && |Run(ops)| <= MAX_ADAPTERS && Members(Run(ops)) <= Wanted(ops)
    decreases |ops|
  {
    if ops != [] {
      RunsStayDistinct(ops[..|ops| - 1]);
      AddingKeeps(Run(ops[..|ops| - 1]), ops[|ops| - 1].a);
      RemovingKeeps(Run(ops[..|ops| - 1]), ops[|ops| - 1].a);
    }
  }

  ghost predicate NoneMissing<T(!new)>(ops: seq<Op<T>>)
    decreases |ops|
  {
    Members(Run(ops)) == Wanted(ops) && (ops == [] || NoneMissing(ops[..|ops| - 1]))
  }

  ghost predicate AlwaysRoom<T(!new)>(ops: seq<Op<T>>)
    decreases |ops|
  {
    |Wanted(ops)| <= MAX_ADAPTERS && (ops == [] || AlwaysRoom(ops[..|ops| - 1]))
  }

  lemma {:induction false} DistinctCount<T>(s: seq<T>)
    requires Distinct(s)
    ensures |Members(s)| == |s|
    decreases |s|
  {
    if s != [] {
      var front, x := s[..|s| - 1], s[|s| - 1];
      DistinctCount(front);
      assert s == front + [x];
      assert Members(s) == Members(front) + {x};
    }
  }

  /** All through a run every adapter added and not removed since is listed exactly if there
      were never more of them than fit: one too many is dropped without notice. */
  lemma {:induction false} NoneMissingWhileRoom<T(!new)>(ops: seq<Op<T>>)
    ensures NoneMissing(ops) <==> AlwaysRoom(ops)
    decreases |ops|
  {
    RunsStayDistinct(ops);
    DistinctCount(Run(ops));
    if ops != [] {
      var front, op := ops[..|ops| - 1], ops[|ops| - 1];
      NoneMissingWhileRoom(front);
      if AlwaysRoom(ops) {
        var s := Run(front);
        RunsStayDistinct(front);
        DistinctCount(s);
        AddingKeeps(s, op.a);
        RemovingKeeps(s, op.a);
        if op.Add? && |s| == MAX_ADAPTERS {
          assert Members(s) <= Wanted(ops);
          SameIfSubset(Members(s), Wanted(ops));
        }
      }
    }
  }

  lemma SameIfSubset<T>(a: set<T>, b: set<T>)
    requires a <= b && |b| <= |a|
    ensures a == b
  {
    assert b == a + (b - a);
  }
}
