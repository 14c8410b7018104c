/** LocHeap as trees of values: what push, pop and remove do to the shape, and what a
    caller may rely on. LocHeapNodes ties the linked, in-place nodes to these trees. */
module LocHeapTree {

  /** An object a client put into the heap. The object is its address; its rank does
      not change while it is in the heap. */
  datatype LocRankable = LocRankable(address: nat, rank: int)

  predicate OutRanks(x: LocRankable, y: LocRankable) { x.rank > y.rank }

  /** size counts the nodes of the subtree, this one included. */
  datatype Tree = Nil | Node(size: int, left: Tree, right: Tree, data: LocRankable)

  function Single(x: LocRankable): Tree { Node(1, Nil, Nil, x) }

  /** The consistency check of a node, as the code states it. */
  predicate CheckNodes(t: Tree)
    requires t.Node?
  {
    && (t.left.Node? ==> !OutRanks(t.left.data, t.data) && CheckNodes(t.left))
    && (t.right.Node? ==> !OutRanks(t.right.data, t.data) && CheckNodes(t.right))
    && t.size - (if t.left.Node? then t.left.size else 0) - (if t.right.Node? then t.right.size else 0) == 1
  }

  predicate CheckTree(t: Tree) { t.Node? ==> CheckNodes(t) }

  function Elements(t: Tree): multiset<LocRankable> {
    match t
    case Nil => multiset{}
    case Node(_, l, r, x) => Elements(l) + Elements(r) + multiset{x}
  }

  // ----- the operations

  function PushNode(t: Tree, x: LocRankable): Tree
    requires t.Node?
    decreases t
  {
    var keep := if OutRanks(x, t.data) then x else t.data;
    var drop := if OutRanks(x, t.data) then t.data else x;
    if t.left.Nil? then Node(t.size + 1, Single(drop), t.right, keep)
    else if t.right.Nil? then Node(t.size + 1, t.left, Single(drop), keep)
    else if t.left.size <= t.right.size then Node(t.size + 1, PushNode(t.left, drop), t.right, keep)
    else Node(t.size + 1, t.left, PushNode(t.right, drop), keep)
  }

  predicate PopsLeft(t: Tree)
    requires t.Node? && (t.left.Node? || t.right.Node?)
  {
    t.left.Node? && (t.right.Nil? || OutRanks(t.left.data, t.right.data))
  }

  /** The tree without its top. */
  function PopNode(t: Tree): Tree
    requires t.Node?
    decreases t
  {
    if t.left.Nil? && t.right.Nil? then Nil
    else if PopsLeft(t) then Node(t.size - 1, PopNode(t.left), t.right, t.left.data)
    else Node(t.size - 1, t.left, PopNode(t.right), t.right.data)
  }

  datatype Removal = Removal(found: bool, rest: Tree)

  /** Searches for x, left before right, skipping subtrees whose top x outranks. */
  function RemoveNode(t: Tree, x: LocRankable): Removal
    requires t.Node?
    decreases t
  {
    if t.data == x then Removal(true, PopNode(t))
    else if OutRanks(x, t.data) then Removal(false, t)
    else
      var l := if t.left.Node? then RemoveNode(t.left, x) else Removal(false, Nil);
      if l.found then Removal(true, Node(t.size - 1, l.rest, t.right, t.data))
      else
        var r := if t.right.Node? then RemoveNode(t.right, x) else Removal(false, Nil);
        if r.found then Removal(true, Node(t.size - 1, t.left, r.rest, t.data)) else Removal(false, t)
  }

  function PushTree(t: Tree, x: LocRankable): Tree { if t.Nil? then Single(x) else PushNode(t, x) }

  function PopTree(t: Tree): Tree { if t.Nil? then Nil else PopNode(t) }

  function RemoveTree(t: Tree, x: LocRankable): Removal { if t.Nil? then Removal(false, Nil) else RemoveNode(t, x) }

  // ----- which subtree an operation concerns

  /** The new object goes to the subtree that is missing or has fewer nodes, the left one if
      neither does; the other is left alone. */
  lemma PushTakesSide(t: Tree, x: LocRankable)
    requires t.Node?
    ensures var n, drop := PushNode(t, x), if OutRanks(x, t.data) then t.data else x;
      if t.left.Nil? || (t.right.Node? && t.left.size <= t.right.size)
      then n.right == t.right && Elements(n.left) == Elements(t.left) + multiset{drop}
      else n.left == t.left && Elements(n.right) == Elements(t.right) + multiset{drop}
  {
    var drop := if OutRanks(x, t.data) then t.data else x;
    ElementsOfSingle(drop);
    if t.left.Node? { PushElements(t.left, drop); }
    if t.right.Node? { PushElements(t.right, drop); }
  }

  /** The top of the left subtree moves up if it is alone or strictly outranks the other,
      and that of the right one otherwise; the other subtree is left alone. */
  lemma PopTakesSide(t: Tree)
    requires t.Node?
    ensures t.left.Nil? && t.right.Nil? ==> PopNode(t) == Nil
    ensures t.left.Node? && (t.right.Nil? || t.left.data.rank > t.right.data.rank) ==>
      PopNode(t) == Node(t.size - 1, PopNode(t.left), t.right, t.left.data)
    ensures t.right.Node? && (t.left.Nil? || t.left.data.rank <= t.right.data.rank) ==>
      PopNode(t) == Node(t.size - 1, t.left, PopNode(t.right), t.right.data)
  {
  }

  lemma NotSkipped(t: Tree, x: LocRankable)
    requires t.Node? && CheckNodes(t) && (x in Elements(t.left) || x in Elements(t.right))
    ensures !OutRanks(x, t.data)
  {
    TopRanksHighest(t);
  }

  /** What is found in the left subtree is taken from there, and what is only in the right
      one from there; the other subtree and the top are left alone. */
  lemma RemoveTakesLeft(t: Tree, x: LocRankable)
    requires t.Node? && CheckNodes(t) && t.data != x && x in Elements(t.left)
    ensures t.left.Node?
    ensures RemoveNode(t, x) == Removal(true, Node(t.size - 1, RemoveNode(t.left, x).rest, t.right, t.data))
  {
    NotSkipped(t, x);
    RemoveIsComplete(t.left, x);
  }

  lemma SearchGoesRight(t: Tree, x: LocRankable)
    requires t.Node? && t.data != x && !OutRanks(x, t.data)
    requires t.left.Node? ==> !RemoveNode(t.left, x).found
    requires t.right.Node? && RemoveNode(t.right, x).found
    ensures RemoveNode(t, x) == Removal(true, Node(t.size - 1, t.left, RemoveNode(t.right, x).rest, t.data))
  {
  }

  lemma RemoveTakesRight(t: Tree, x: LocRankable)
    requires t.Node? && CheckNodes(t) && t.data != x && x !in Elements(t.left) && x in Elements(t.right)
    ensures t.right.Node?
    ensures RemoveNode(t, x) == Removal(true, Node(t.size - 1, t.left, RemoveNode(t.right, x).rest, t.data))
  {
    NotSkipped(t, x);
    if t.left.Node? { RemoveIsComplete(t.left, x); }
    RemoveIsComplete(t.right, x);
    SearchGoesRight(t, x);
  }

  // ----- order and size

  /** The stored size is the number of elements, and nothing in the tree outranks its top. */
  lemma {:induction false} TopRanksHighest(t: Tree)
    requires t.Node? && CheckNodes(t)
    ensures t.size == |Elements(t)|
    ensures forall y :: y in Elements(t) ==> !OutRanks(y, t.data)
    decreases t
  {
    if t.left.Node? { TopRanksHighest(t.left); }
    if t.right.Node? { TopRanksHighest(t.right); }
  }

  /** One of x and y goes on top, the other into the left or the right subtree. */
  predicate IsSwap(x: LocRankable, y: LocRankable, keep: LocRankable, drop: LocRankable) {
    (keep == x && drop == y) || (keep == y && drop == x)
  }

  lemma DropLeft(t: Tree, x: LocRankable, left: Tree, keep: LocRankable, drop: LocRankable)
    requires t.Node? && IsSwap(t.data, x, keep, drop) && Elements(left) == Elements(t.left) + multiset{drop}
    ensures Elements(Node(t.size + 1, left, t.right, keep)) == Elements(t) + multiset{x}
  {
  }

  lemma DropRight(t: Tree, x: LocRankable, right: Tree, keep: LocRankable, drop: LocRankable)
    requires t.Node? && IsSwap(t.data, x, keep, drop) && Elements(right) == Elements(t.right) + multiset{drop}
    ensures Elements(Node(t.size + 1, t.left, right, keep)) == Elements(t) + multiset{x}
  {
  }

  lemma ElementsOfSingle(x: LocRankable)
    ensures Elements(Single(x)) == multiset{x}
  {
  }

  /** Push adds exactly x. */
  lemma {:induction false} PushElements(t: Tree, x: LocRankable)
    requires t.Node?
    ensures Elements(PushNode(t, x)) == Elements(t) + multiset{x}
    decreases t
  {
    var keep := if OutRanks(x, t.data) then x else t.data;
    var drop := if OutRanks(x, t.data) then t.data else x;
    ElementsOfSingle(drop);
    if t.left.Nil? {
      DropLeft(t, x, Single(drop), keep, drop);
    } else if t.right.Nil? {
      DropRight(t, x, Single(drop), keep, drop);
    } else if t.left.size <= t.right.size {
      PushElements(t.left, drop);
      DropLeft(t, x, PushNode(t.left, drop), keep, drop);
    } else {
      PushElements(t.right, drop);
      DropRight(t, x, PushNode(t.right, drop), keep, drop);
    }
  }

  /** Push keeps the heap consistent; the new top is the higher of the old top and x. */
  lemma {:induction false} PushKeepsOrder(t: Tree, x: LocRankable)
    requires t.Node? && CheckNodes(t)
    ensures CheckNodes(PushNode(t, x))
    ensures PushNode(t, x).data == if OutRanks(x, t.data) then x else t.data
    ensures PushNode(t, x).size == t.size + 1
    decreases t
  {
    var drop := if OutRanks(x, t.data) then t.data else x;
    if t.left.Nil? || t.right.Nil? {
    } else if t.left.size <= t.right.size {
      PushKeepsOrder(t.left, drop);
    } else {
      PushKeepsOrder(t.right, drop);
    }
  }

  /** Pop removes exactly the top. */
  lemma {:induction false} PopElements(t: Tree)
    requires t.Node?
    ensures Elements(PopNode(t)) + multiset{t.data} == Elements(t)
    decreases t
  {
    if t.left.Nil? && t.right.Nil? {
    } else if PopsLeft(t) {
      PopElements(t.left);
      assert Elements(PopNode(t)) == Elements(PopNode(t.left)) + Elements(t.right) + multiset{t.left.data};
    } else {
      PopElements(t.right);
      assert Elements(PopNode(t)) == Elements(t.left) + Elements(PopNode(t.right)) + multiset{t.right.data};
    }
  }

  /** Pop keeps the rest consistent, and the new top does not outrank the old one. */
  lemma {:induction false} PopKeepsOrder(t: Tree)
    requires t.Node? && CheckNodes(t)
    ensures CheckTree(PopNode(t))
    ensures PopNode(t).Node? ==> PopNode(t).size == t.size - 1 && !OutRanks(PopNode(t).data, t.data)
    ensures PopNode(t).Nil? ==> t.size == 1
    decreases t
  {
    if t.left.Nil? && t.right.Nil? {
    } else if PopsLeft(t) {
      PopKeepsOrder(t.left);
    } else {
      PopKeepsOrder(t.right);
    }
  }

  /** Remove finds x exactly if it is stored, although the search skips every subtree
      whose top x outranks. */
  lemma {:induction false} RemoveIsComplete(t: Tree, x: LocRankable)
    requires t.Node? && CheckNodes(t)
    ensures RemoveNode(t, x).found <==> x in Elements(t)
    decreases t
  {
    TopRanksHighest(t);
    if t.data != x && !OutRanks(x, t.data) {
      if t.left.Node? { RemoveIsComplete(t.left, x); }
      if t.right.Node? { RemoveIsComplete(t.right, x); }
    }
  }

  /** Remove takes out one occurrence of what it found, and otherwise leaves the tree as it is. */
  lemma {:induction false} RemoveElements(t: Tree, x: LocRankable)
    requires t.Node?
    ensures var r := RemoveNode(t, x);
      if r.found then Elements(r.rest) + multiset{x} == Elements(t) else r.rest == t
    decreases t
  {
    if t.data == x {
      PopElements(t);
    } else if !OutRanks(x, t.data) {
      if t.left.Node? { RemoveElements(t.left, x); }
      if t.right.Node? { RemoveElements(t.right, x); }
    }
  }

  lemma {:induction false} RemoveKeepsOrder(t: Tree, x: LocRankable)
    requires t.Node? && CheckNodes(t)
    ensures var r := RemoveNode(t, x);
      && CheckTree(r.rest)
      && (r.rest.Node? ==> r.rest.size == t.size - (if r.found then 1 else 0) && !OutRanks(r.rest.data, t.data))
      && (r.rest.Nil? ==> t.size == 1)
    decreases t
  {
    if t.data == x {
      PopKeepsOrder(t);
    } else if !OutRanks(x, t.data) {
      if t.left.Node? { RemoveKeepsOrder(t.left, x); }
      if t.right.Node? { RemoveKeepsOrder(t.right, x); }
    }
  }

  // ----- draining

  function Drain(t: Tree): seq<LocRankable>
    requires CheckTree(t)
    decreases |Elements(t)|
  {
    if t.Nil? then []
    else
      PopKeepsOrder(t);
      PopElements(t);
      assert |Elements(t)| == |Elements(PopNode(t))| + 1;
      [t.data] + Drain(PopNode(t))
  }

  lemma {:induction false} DrainElements(t: Tree)
    requires CheckTree(t)
    ensures multiset(Drain(t)) == Elements(t)
    decreases |Elements(t)|
  {
    if t.Node? {
      PopKeepsOrder(t);
      PopElements(t);
      assert |Elements(t)| == |Elements(PopNode(t))| + 1;
      DrainElements(PopNode(t));
      assert multiset([t.data] + Drain(PopNode(t))) == multiset{t.data} + multiset(Drain(PopNode(t)));
    }
  }

  ghost predicate Descending(s: seq<LocRankable>) {
    forall i, j :: 0 <= i < j < |s| ==> !OutRanks(s[j], s[i])
  }

  lemma DescendingFrom(x: LocRankable, rest: seq<LocRankable>)
    requires Descending(rest) && forall y :: y in rest ==> !OutRanks(y, x)
    ensures Descending([x] + rest)
  {
  }

  /** Popping until the heap is empty lists every element once, highest rank first. */
  lemma {:induction false} DrainSorts(t: Tree)
    requires CheckTree(t)
    ensures multiset(Drain(t)) == Elements(t) && Descending(Drain(t))
    decreases |Elements(t)|
  {
    DrainElements(t);
    if t.Node? {
      PopKeepsOrder(t);
      PopElements(t);
      TopRanksHighest(t);
      assert |Elements(t)| == |Elements(PopNode(t))| + 1;
      var rest := Drain(PopNode(t));
      DrainSorts(PopNode(t));
      forall y | y in rest
        ensures !OutRanks(y, t.data)
      {
        assert y in multiset(rest) && y in Elements(t);
      }
      DescendingFrom(t.data, rest);
    }
  }

  // ----- balance of a heap built by pushes

  function SizeOf(t: Tree): int { if t.Nil? then 0 else t.size }

  predicate Balanced(t: Tree) {
    t.Node? ==> 0 <= SizeOf(t.left) - SizeOf(t.right) <= 1 && Balanced(t.left) && Balanced(t.right)
  }

  lemma {:induction false} PushKeepsBalance(t: Tree, x: LocRankable)
    requires t.Node? && CheckNodes(t) && Balanced(t)
    ensures Balanced(PushNode(t, x))
    decreases t
  {
    var drop := if OutRanks(x, t.data) then t.data else x;
    if t.left.Node? && t.right.Node? {
      var grown := if t.left.size <= t.right.size then t.left else t.right;
      PushKeepsBalance(grown, drop);
      PushKeepsOrder(grown, drop);
    } else {
      if t.left.Node? { TopRanksHighest(t.left); }
      if t.right.Node? { TopRanksHighest(t.right); }
    }
  }

  function PushAll(xs: seq<LocRankable>): Tree {
    if xs == [] then Nil else PushTree(PushAll(xs[..|xs| - 1]), xs[|xs| - 1])
  }

  lemma {:induction false} PushesBalance(xs: seq<LocRankable>)
    ensures CheckTree(PushAll(xs)) && Balanced(PushAll(xs)) && Elements(PushAll(xs)) == multiset(xs)
    decreases |xs|
  {
    if xs != [] {
      var front, last := xs[..|xs| - 1], xs[|xs| - 1];
      PushesBalance(front);
      assert xs == front + [last];
      if PushAll(front).Node? {
        PushKeepsOrder(PushAll(front), last);
        PushElements(PushAll(front), last);
        PushKeepsBalance(PushAll(front), last);
      }
    }
  }

  function Height(t: Tree): nat {
    match t
    case Nil => 0
    case Node(_, l, r, _) => 1 + (if Height(l) > Height(r) then Height(l) else Height(r))
  }

  function Pow2(n: nat): nat { if n == 0 then 1 else 2 * Pow2(n - 1) }

  lemma Pow2Grows(h: nat)
    requires h > 0
    ensures Pow2(h) == 2 * Pow2(h - 1) && Pow2(h) > 0
    decreases h
  {
    if h > 1 { Pow2Grows(h - 1); }
  }

  /** Neither child has more than half of the nodes. */
  lemma ChildrenSplitSize(t: Tree)
    requires t.Node? && CheckNodes(t) && Balanced(t)
    ensures 2 * SizeOf(t.left) <= t.size && 2 * SizeOf(t.right) <= t.size
    ensures t.size >= 1
  {
    TopRanksHighest(t);
    if t.left.Node? { TopRanksHighest(t.left); }
    if t.right.Node? { TopRanksHighest(t.right); }
  }

  lemma {:induction false} BalancedIsShallow(t: Tree)
    requires t.Node? && CheckNodes(t) && Balanced(t)
    ensures Pow2(Height(t) - 1) <= t.size
    decreases t
  {
    ChildrenSplitSize(t);
    var taller := if Height(t.left) > Height(t.right) then t.left else t.right;
    if taller.Node? {
      BalancedIsShallow(taller);
      Pow2Grows(Height(taller));
    }
  }

  /** A heap that only ever saw pushes has logarithmic height. */
  lemma PushedHeapIsShallow(xs: seq<LocRankable>)
    requires xs != []
    ensures PushAll(xs).Node? && Pow2(Height(PushAll(xs)) - 1) <= |xs|
  {
    PushesBalance(xs);
    var t := PushAll(xs);
    TopRanksHighest(t);
    BalancedIsShallow(t);
  }

  // ----- whole runs

  datatype Operation = PushOp(x: LocRankable) | PopOp | RemoveOp(x: LocRankable)

  /** The heap, and everything it was given and gave back. */
  datatype History = History(heap: Tree, given: multiset<LocRankable>, returned: seq<LocRankable>)

  function Perform(h: History, op: Operation): History {
    match op
    case PushOp(x) => h.(heap := PushTree(h.heap, x), given := h.given + multiset{x})
    case PopOp => if h.heap.Nil? then h else h.(heap := PopTree(h.heap), returned := h.returned + [h.heap.data])
    case RemoveOp(x) =>
      var r := RemoveTree(h.heap, x);
      if r.found then h.(heap := r.rest, returned := h.returned + [x]) else h
  }

  function PerformAll(ops: seq<Operation>): History {
    if ops == [] then History(Nil, multiset{}, []) else Perform(PerformAll(ops[..|ops| - 1]), ops[|ops| - 1])
  }

  lemma PerformKeepsOrder(h: History, op: Operation)
    requires CheckTree(h.heap)
    ensures CheckTree(Perform(h, op).heap)
  {
    if h.heap.Node? {
      match op
      case PushOp(x) => PushKeepsOrder(h.heap, x);
      case PopOp => PopKeepsOrder(h.heap);
      case RemoveOp(x) => RemoveKeepsOrder(h.heap, x);
    }
  }

  lemma PerformConserves(h: History, op: Operation)
    requires h.given == Elements(h.heap) + multiset(h.returned)
    ensures Perform(h, op).given == Elements(Perform(h, op).heap) + multiset(Perform(h, op).returned)
  {
    if h.heap.Node? {
      match op
      case PushOp(x) => PushElements(h.heap, x);
      case PopOp => PopElements(h.heap);
      case RemoveOp(x) => RemoveElements(h.heap, x);
    }
  }

  /** Whatever the operations, the heap stays consistent and no object is lost or
      invented: what it was given is what it holds and what it gave back. */
  lemma {:induction false} ObjectsAreConserved(ops: seq<Operation>)
    ensures var h := PerformAll(ops);
      CheckTree(h.heap) && h.given == Elements(h.heap) + multiset(h.returned)
    decreases |ops|
  {
    if ops != [] {
      ObjectsAreConserved(ops[..|ops| - 1]);
      PerformKeepsOrder(PerformAll(ops[..|ops| - 1]), ops[|ops| - 1]);
      PerformConserves(PerformAll(ops[..|ops| - 1]), ops[|ops| - 1]);
    }
  }
}
