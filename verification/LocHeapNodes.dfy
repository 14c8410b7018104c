/** LocHeap as it is linked in memory: nodes that swap their data, change their size
    and relink their children in place. Each method does to the tree of values below a
    node what LocHeapTree says. */
module LocHeapNodes {
  import opened Optional
  import opened LocHeapTree

  class LocHeapNode {
    var mSize: int
    var mLeft: LocHeapNode?
    var mRight: LocHeapNode?
    var mData: LocRankable
    ghost var tree: Tree
    ghost var repr: set<LocHeapNode>

    /** The nodes below are linked as a tree, and tree is their values. */
    ghost predicate Valid()
      reads this, repr
      ensures Valid() ==> this in repr && tree.Node? && tree.data == mData
    {
      && this in repr
      && (mLeft != null ==> mLeft in repr && mLeft.repr <= repr && this !in mLeft.repr && mLeft.Valid())
      && (mRight != null ==> mRight in repr && mRight.repr <= repr && this !in mRight.repr && mRight.Valid())
      && (mLeft != null && mRight != null ==> mLeft.repr !! mRight.repr)
      && tree == Node(mSize, TreeOf(mLeft), TreeOf(mRight), mData)
    }

    static ghost function TreeOf(n: LocHeapNode?): Tree
      reads n
    {
      if n == null then Nil else n.tree
    }

    ghost predicate IsSingle()
      reads this, repr
    {
      Valid() && repr == {this} && tree == Single(mData)
    }

    constructor (data: LocRankable)
      ensures IsSingle() && mData == data
    {
      mSize, mLeft, mRight, mData := 1, null, null, data;
      tree, repr := Single(data), {this};
    }

    // ----- push

    method PushLeft(node: LocHeapNode)
      requires Valid() && node.IsSingle() && node !in repr
      modifies repr, node
      ensures Valid() && repr == old(repr) + {node}
      ensures tree == old(tree).(left := PushTree(old(tree).left, old(node.mData)))
      decreases repr, 0
    {
      if mLeft == null { mLeft := node; } else { mLeft.Push(node); }
      assert mRight != null ==> mRight.Valid();
      repr := repr + {node};
      tree := tree.(left := mLeft.tree);
    }

    method PushRight(node: LocHeapNode)
      requires Valid() && node.IsSingle() && node !in repr
      modifies repr, node
      ensures Valid() && repr == old(repr) + {node}
      ensures tree == old(tree).(right := PushTree(old(tree).right, old(node.mData)))
      decreases repr, 0
    {
      if mRight == null { mRight := node; } else { mRight.Push(node); }
      assert mLeft != null ==> mLeft.Valid();
      repr := repr + {node};
      tree := tree.(right := mRight.tree);
    }

    /** Keeps the higher of the two data here and leaves the lower one in node. */
    method KeepHigher(node: LocHeapNode)
      requires Valid() && node.IsSingle() && node !in repr
      modifies this, node
      ensures Valid() && repr == old(repr) && node.IsSingle()
      ensures mLeft == old(mLeft) && mRight == old(mRight) && mSize == old(mSize)
      ensures tree == old(tree).(data := if OutRanks(old(node.mData), old(mData)) then old(node.mData) else old(mData))
      ensures node.mData == if OutRanks(old(node.mData), old(mData)) then old(mData) else old(node.mData)
    {
      if OutRanks(node.mData, mData) {
        mData, node.mData := node.mData, mData;
        tree, node.tree := tree.(data := mData), Single(node.mData);
      }
    }

    method Push(node: LocHeapNode)
      requires Valid() && node.IsSingle() && node !in repr
      modifies repr, node
      ensures Valid() && repr == old(repr) + {node}
      ensures tree == PushNode(old(tree), old(node.mData))
      decreases repr, 1
    {
      KeepHigher(node);
      if mLeft == null || (mRight != null && mLeft.mSize <= mRight.mSize) {
        PushLeft(node);
      } else {
        PushRight(node);
      }
      Resize(mSize + 1);
    }

    method Resize(size: int)
      requires Valid()
      modifies this
      ensures Valid() && repr == old(repr) && mLeft == old(mLeft) && mRight == old(mRight) && mData == old(mData)
      ensures tree == old(tree).(size := size)
    {
      mSize := size;
      tree := tree.(size := size);
    }

    // ----- pop

    /** Deleting the node deletes nothing else. */
    ghost predicate IsLeaf()
      reads this
    {
      mLeft == null && mRight == null
    }

    /** Exchanges data with the left child. */
    method SwapLeft()
      requires Valid() && mLeft != null
      modifies repr
      ensures Valid() && repr == old(repr) && mLeft == old(mLeft) && mRight == old(mRight) && mSize == old(mSize)
      ensures mData == old(mLeft.mData)
      ensures tree == old(tree).(left := old(mLeft.tree).(data := old(mData)), data := mData)
    {
      mData, mLeft.mData := mLeft.mData, mData;
      mLeft.tree := mLeft.tree.(data := mLeft.mData);
      assert mLeft.Valid();
      tree := tree.(left := mLeft.tree, data := mData);
    }

    method SwapRight()
      requires Valid() && mRight != null
      modifies repr
      ensures Valid() && repr == old(repr) && mLeft == old(mLeft) && mRight == old(mRight) && mSize == old(mSize)
      ensures mData == old(mRight.mData)
      ensures tree == old(tree).(right := old(mRight.tree).(data := old(mData)), data := mData)
    {
      mData, mRight.mData := mRight.mData, mData;
      mRight.tree := mRight.tree.(data := mRight.mData);
      assert mRight.Valid();
      tree := tree.(right := mRight.tree, data := mData);
    }

    /** Takes the data of the left child out of the tree. */
    method PopLeft() returns (popped: LocHeapNode)
      requires Valid() && mLeft != null
      modifies repr
      ensures Valid() && popped in old(repr) && repr == old(repr) - {popped}
      ensures popped.mData == old(mLeft.mData) && popped.IsLeaf() && mSize == old(mSize)
      ensures tree == old(tree).(left := PopNode(old(mLeft.tree)))
      decreases repr, 0
    {
      mLeft, popped := Pop(mLeft);
      assert mRight != null ==> mRight.Valid();
      repr := repr - {popped};
      tree := tree.(left := TreeOf(mLeft));
    }

    method PopRight() returns (popped: LocHeapNode)
      requires Valid() && mRight != null
      modifies repr
      ensures Valid() && popped in old(repr) && repr == old(repr) - {popped}
      ensures popped.mData == old(mRight.mData) && popped.IsLeaf() && mSize == old(mSize)
      ensures tree == old(tree).(right := PopNode(old(mRight.tree)))
      decreases repr, 0
    {
      mRight, popped := Pop(mRight);
      assert mLeft != null ==> mLeft.Valid();
      repr := repr - {popped};
      tree := tree.(right := TreeOf(mRight));
    }

    /** Takes the data of top out of the tree. newTop is what the link to top becomes:
        null if top was the last node. popped is the detached leaf that carries the data. */
    static method Pop(top: LocHeapNode) returns (newTop: LocHeapNode?, popped: LocHeapNode)
      requires top.Valid()
      modifies top.repr
      ensures popped in old(top.repr) && popped.mData == old(top.mData) && popped.IsLeaf()
      ensures TreeOf(newTop) == PopNode(old(top.tree))
      ensures newTop != null ==> newTop == top && top.Valid() && top.repr == old(top.repr) - {popped}
      decreases top.repr, 1
    {
      if top.mLeft == null && top.mRight == null {
        top.mSize := top.mSize - 1;
        popped, newTop := top, null;
      } else {
        newTop := top;
        if top.mRight == null || (top.mLeft != null && OutRanks(top.mLeft.mData, top.mRight.mData)) {
          top.SwapLeft();
          popped := top.PopLeft();
        } else {
          top.SwapRight();
          popped := top.PopRight();
        }
        top.Resize(top.mSize - 1);
      }
    }

    // ----- remove

    method RemoveLeft(data: LocRankable) returns (removed: LocHeapNode?)
      requires Valid() && mLeft != null
      modifies repr
      ensures Valid() && mSize == old(mSize) && mRight == old(mRight)
      ensures var r := RemoveNode(old(mLeft.tree), data);
        (removed != null <==> r.found) && tree == old(tree).(left := r.rest)
      ensures removed != null ==> removed in old(repr) && removed.mData == data && removed.IsLeaf()
      ensures removed != null ==> repr == old(repr) - {removed}
      ensures removed == null ==> repr == old(repr) && mLeft == old(mLeft)
      decreases repr, 0
    {
      mLeft, removed := Remove(mLeft, data);
      assert mRight != null ==> mRight.Valid();
      repr := if removed != null then repr - {removed} else repr;
      tree := tree.(left := TreeOf(mLeft));
    }

    method RemoveRight(data: LocRankable) returns (removed: LocHeapNode?)
      requires Valid() && mRight != null
      modifies repr
      ensures Valid() && mSize == old(mSize)
      ensures var r := RemoveNode(old(mRight.tree), data);
        (removed != null <==> r.found) && tree == old(tree).(right := r.rest)
      ensures removed != null ==> removed in old(repr) && removed.mData == data && removed.IsLeaf()
      ensures removed != null ==> repr == old(repr) - {removed}
      ensures removed == null ==> repr == old(repr)
      decreases repr, 0
    {
      mRight, removed := Remove(mRight, data);
      assert mLeft != null ==> mLeft.Valid();
      repr := if removed != null then repr - {removed} else repr;
      tree := tree.(right := TreeOf(mRight));
    }

    /** Searches below top for data and takes it out. newTop is what the link to top
        becomes; removed is the detached node, or null if data is not found. */
    static method Remove(top: LocHeapNode, data: LocRankable) returns (newTop: LocHeapNode?, removed: LocHeapNode?)
      requires top.Valid()
      modifies top.repr
      ensures var r := RemoveNode(old(top.tree), data); (removed != null <==> r.found) && TreeOf(newTop) == r.rest
      ensures newTop != null ==> newTop == top && top.Valid()
      ensures removed != null ==> removed in old(top.repr) && removed.mData == data && removed.IsLeaf()
      ensures removed != null && newTop != null ==> top.repr == old(top.repr) - {removed}
      ensures removed == null ==> newTop == top && top.repr == old(top.repr)
      decreases top.repr, 1
    {
      newTop, removed := top, null;
      if data == top.mData {
        newTop, removed := Pop(top);
      } else if !OutRanks(data, top.mData) {
        if top.mLeft != null {
          removed := top.RemoveLeft(data);
        }
        if removed == null && top.mRight != null {
          removed := top.RemoveRight(data);
        }
        if removed != null {
          top.Resize(top.mSize - 1);
        }
      }
    }
  }

  class LocHeap {
    var mTree: LocHeapNode?

    ghost predicate Valid()
      reads this, mTree, if mTree == null then {} else mTree.repr
    {
      mTree != null ==> mTree.Valid()
    }

    ghost function Value(): Tree
      reads this, mTree
    {
      LocHeapNode.TreeOf(mTree)
    }

    constructor ()
      ensures Valid() && Value() == Nil
    {
      mTree := null;
    }

    method Push(node: LocRankable)
      requires Valid()
      modifies this, if mTree == null then {} else mTree.repr
      ensures Valid() && Value() == PushTree(old(Value()), node)
    {
      var heapNode := new LocHeapNode(node);
      if mTree == null {
        mTree := heapNode;
      } else {
        mTree.Push(heapNode);
      }
    }

    method Peek() returns (top: Option<LocRankable>)
      requires Valid()
      ensures top == if Value().Nil? then None else Some(Value().data)
    {
      top := if mTree == null then None else Some(mTree.mData);
    }

    /** Returns the top and takes it out, or nothing if the heap is empty. */
    method Pop() returns (top: Option<LocRankable>)
      requires Valid()
      modifies this, if mTree == null then {} else mTree.repr
      ensures Valid() && Value() == PopTree(old(Value()))
      ensures top == if old(Value()).Nil? then None else Some(old(Value()).data)
    {
      top := None;
      if mTree != null {
        var heapNode;
        mTree, heapNode := LocHeapNode.Pop(mTree);
        top := Some(heapNode.mData);
      }
    }

    /** Returns rankable and takes it out, or nothing if it is not stored. */
    method Remove(rankable: LocRankable) returns (found: Option<LocRankable>)
      requires Valid()
      modifies this, if mTree == null then {} else mTree.repr
      ensures var r := RemoveTree(old(Value()), rankable);
        Valid() && Value() == r.rest && found == if r.found then Some(rankable) else None
    {
      found := None;
      if mTree != null {
        var heapNode;
        mTree, heapNode := LocHeapNode.Remove(mTree, rankable);
        if heapNode != null {
          found := Some(heapNode.mData);
        }
      }
    }
  }
}
