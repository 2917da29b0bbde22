/**
The pointer-based heap of gps/utils/LocHeap.cpp, proved against the tree algorithms of
HeapTree. A link that the source passes by pointer reference, and may null, is returned
as the new value of the link.
*/
module LocHeap {
  import opened Options
  import opened HeapTree

  /** A snapshot of a tree of node objects: which object is where, and what it holds. */
  datatype Shape<T(==)> = Empty | At(node: LocHeapNode<T>, size: int, data: T, left: Shape<T>, right: Shape<T>)

  ghost function Nodes<T>(s: Shape<T>): set<LocHeapNode<T>> {
    match s
    case Empty => {}
    case At(n, _, _, l, r) => {n} + Nodes(l) + Nodes(r)
  }

  /** The tree value, without the node objects. */
  ghost function Erase<T>(s: Shape<T>): Tree<T> {
    match s
    case Empty => Leaf
    case At(_, z, x, l, r) => Node(z, x, Erase(l), Erase(r))
  }

  /** No node object occurs twice. */
  ghost predicate Distinct<T>(s: Shape<T>) {
    match s
    case Empty => true
    case At(n, _, _, l, r) =>
      n !in Nodes(l) && n !in Nodes(r) && Nodes(l) !! Nodes(r) && Distinct(l) && Distinct(r)
  }

  /** The fields reached from the link are exactly those of the snapshot. */
  ghost predicate Holds<T>(link: LocHeapNode?<T>, s: Shape<T>)
    reads Nodes(s)
  {
    match s
    case Empty => link == null
    case At(n, z, x, l, r) =>
      link == n && n.mSize == z && n.mData == x && Holds(n.mLeft, l) && Holds(n.mRight, r)
  }

  ghost predicate IsTree<T>(link: LocHeapNode?<T>, s: Shape<T>)
    reads Nodes(s)
  {
    Distinct(s) && Holds(link, s)
  }

  /** Where push puts the lower ranked datum: at a free place, or into the smaller subtree. */
  ghost function Down<T>(rank: (T, T) -> int, l: Tree<T>, r: Tree<T>, low: T): (Tree<T>, Tree<T>) {
    if l.Leaf? then (Single(low), r)
    else if r.Leaf? then (l, Single(low))
    else if l.size <= r.size then (HeapTree.Push(rank, l, low), r)
    else (l, HeapTree.Push(rank, r, low))
  }

  lemma PushGoesDown<T>(rank: (T, T) -> int, n: int, y: T, l: Tree<T>, r: Tree<T>, x: T)
    ensures var (top, low) := if OutRanks(rank, x, y) then (x, y) else (y, x);
      HeapTree.Push(rank, Node(n, y, l, r), x) == Node(n + 1, top, Down(rank, l, r, low).0, Down(rank, l, r, low).1)
  {
  }

  /** Needed to frame a subtree across a call that changes another one. */
  lemma {:induction false} NodesAllocated<T>(s: Shape<T>)
    ensures forall n :: n in Nodes(s) ==> allocated(n)
  {
    if s.At? {
      NodesAllocated(s.left);
      NodesAllocated(s.right);
    }
  }

  class LocHeapNode<T(==)> {
    var mSize: int
    var mLeft: LocHeapNode?<T>
    var mRight: LocHeapNode?<T>
    var mData: T

    constructor (data: T)
      ensures IsTree(this, At(this, 1, data, Empty, Empty))
    {
      mSize, mLeft, mRight, mData := 1, null, null, data;
    }

    /** Adds the node, after swapping data so that the higher ranked of the two stays here. */
    method Push(rank: (T, T) -> int, node: LocHeapNode<T>, ghost s: Shape<T>) returns (ghost s': Shape<T>)
      requires IsTree(this, s) && node !in Nodes(s)
      requires Holds(node, At(node, 1, node.mData, Empty, Empty))
      modifies Nodes(s), node
      ensures IsTree(this, s') && Nodes(s') == Nodes(s) + {node}
      ensures Erase(s') == HeapTree.Push(rank, Erase(s), old(node.mData))
      decreases Count(Erase(s)), 1
    {
      ghost var l, r := s.left, s.right;
      NodesAllocated(s);
      PushGoesDown(rank, mSize, mData, Erase(l), Erase(r), node.mData);
      if OutRanks(rank, node.mData, mData) {
        mData, node.mData := node.mData, mData;
      }
      mSize := mSize + 1;
      assert IsTree(mLeft, l) && IsTree(mRight, r);
      l, r := PushDown(rank, node, l, r);
      s' := At(this, mSize, mData, l, r);
    }

    /** The node goes to a free place below this one, or into the smaller subtree. */
    method PushDown(rank: (T, T) -> int, node: LocHeapNode<T>, ghost l: Shape<T>, ghost r: Shape<T>)
      returns (ghost l': Shape<T>, ghost r': Shape<T>)
      requires IsTree(mLeft, l) && IsTree(mRight, r) && Nodes(l) !! Nodes(r)
      requires node != this && {this, node} !! Nodes(l) + Nodes(r)
      requires Holds(node, At(node, 1, node.mData, Empty, Empty))
      modifies `mLeft, `mRight, Nodes(l), Nodes(r), node
      ensures IsTree(mLeft, l') && IsTree(mRight, r') && Nodes(l') !! Nodes(r')
      ensures Nodes(l') + Nodes(r') == Nodes(l) + Nodes(r) + {node}
      ensures var (tl, tr, x) := (Erase(l), Erase(r), old(node.mData));
        (Erase(l'), Erase(r')) == Down(rank, tl, tr, x)
      decreases if Count(Erase(l)) >= Count(Erase(r)) then Count(Erase(l)) else Count(Erase(r)), 3
    {
      l', r' := l, r;
      if mLeft == null {
        mLeft := node;
        l' := At(node, 1, node.mData, Empty, Empty);
      } else if mRight == null {
        mRight := node;
        r' := At(node, 1, node.mData, Empty, Empty);
      } else if mLeft.mSize <= mRight.mSize {
        l' := PushBelow(rank, mLeft, node, l, mRight, r);
      } else {
        r' := PushBelow(rank, mRight, node, r, mLeft, l);
      }
    }

    /** The recursive call of push on one child; the other subtree stays as it is. */
    static method PushBelow(rank: (T, T) -> int, child: LocHeapNode<T>, node: LocHeapNode<T>, ghost c: Shape<T>,
                            ghost otherLink: LocHeapNode?<T>, ghost other: Shape<T>)
      returns (ghost c': Shape<T>)
      requires IsTree(child, c) && IsTree(otherLink, other) && Nodes(c) !! Nodes(other)
      requires node !in Nodes(c) + Nodes(other) && Holds(node, At(node, 1, node.mData, Empty, Empty))
      modifies Nodes(c), node
      ensures IsTree(child, c') && Nodes(c') == Nodes(c) + {node} && IsTree(otherLink, other)
      ensures Erase(c') == HeapTree.Push(rank, Erase(c), old(node.mData))
      decreases Count(Erase(c)), 2
    {
      NodesAllocated(other);
      c' := child.Push(rank, node, c);
    }

    /** Detaches a leaf node after swapping the top datum down to it; link replaces the link to top. */
    static method Pop(rank: (T, T) -> int, top: LocHeapNode<T>, ghost s: Shape<T>)
      returns (link: LocHeapNode?<T>, popped: LocHeapNode<T>, ghost s': Shape<T>)
      requires IsTree(top, s)
      modifies Nodes(s)
      ensures popped in Nodes(s) && popped.mData == HeapTree.Pop(rank, Erase(s)).1
      ensures IsTree(link, s') && Nodes(s') == Nodes(s) - {popped}
      ensures Erase(s') == HeapTree.Pop(rank, Erase(s)).0
      decreases Count(Erase(s)), 1
    {
      ghost var l, r := s.left, s.right;
      NodesAllocated(s);
      top.mSize := top.mSize - 1;
      assert IsTree(top.mLeft, l) && IsTree(top.mRight, r);
      if top.mLeft == null && top.mRight == null {
        assert l == r == Empty;
        return null, top, Empty;
      }
      var sub;
      if top.mLeft != null && (top.mRight == null || OutRanks(rank, top.mLeft.mData, top.mRight.mData)) {
        sub, popped, l := PopBelow(rank, top, top.mLeft, l, top.mRight, r);
        top.mLeft := sub;
      } else {
        sub, popped, r := PopBelow(rank, top, top.mRight, r, top.mLeft, l);
        top.mRight := sub;
      }
      assert IsTree(top.mLeft, l) && IsTree(top.mRight, r);
      link, s' := top, At(top, top.mSize, top.mData, l, r);
    }

    /** Swaps the data of top and one child, then pops from that child; the other subtree stays. */
    static method PopBelow(rank: (T, T) -> int, top: LocHeapNode<T>, child: LocHeapNode<T>, ghost c: Shape<T>,
                           ghost otherLink: LocHeapNode?<T>, ghost other: Shape<T>)
      returns (link: LocHeapNode?<T>, popped: LocHeapNode<T>, ghost c': Shape<T>)
      requires IsTree(child, c) && IsTree(otherLink, other) && Nodes(c) !! Nodes(other)
      requires top !in Nodes(c) + Nodes(other)
      modifies top`mData, Nodes(c)
      ensures c.At? && top.mData == c.data && IsTree(otherLink, other)
      ensures popped in Nodes(c) && popped.mData == HeapTree.Pop(rank, Erase(c.(data := old(top.mData)))).1
      ensures IsTree(link, c') && Nodes(c') == Nodes(c) - {popped}
      ensures Erase(c') == HeapTree.Pop(rank, Erase(c.(data := old(top.mData)))).0
      decreases Count(Erase(c)), 2
    {
      NodesAllocated(c);
      NodesAllocated(other);
      top.mData, child.mData := child.mData, top.mData;
      assert IsTree(child.mLeft, c.left) && IsTree(child.mRight, c.right);
      c' := c.(data := child.mData);
      link, popped, c' := Pop(rank, child, c');
    }

    /** Searches by object, skipping a subtree whose top data outranks. */
    static method Remove(rank: (T, T) -> int, top: LocHeapNode<T>, data: T, ghost s: Shape<T>)
      returns (link: LocHeapNode?<T>, removed: LocHeapNode?<T>, ghost s': Shape<T>)
      requires IsTree(top, s)
      modifies Nodes(s)
      ensures IsTree(link, s')
      ensures var (t', gone) := HeapTree.Remove(rank, Erase(s), data);
              && Erase(s') == t'
              && gone == Datum(removed)
      ensures Nodes(s') == Nodes(s) - {removed} && (removed != null ==> removed in Nodes(s))
      decreases Count(Erase(s)), 1
    {
      if data == top.mData {
        link, removed, s' := Pop(rank, top, s);
        return;
      }
      link, removed, s' := top, null, s;
      if !OutRanks(rank, data, top.mData) {
        removed, s' := RemoveLeft(rank, top, data, s);
        if removed == null {
          removed, s' := RemoveRight(rank, top, data, s');
        }
      }
    }

    /** The search in the left subtree; the link and, if a node was removed, the size are updated. */
    static method RemoveLeft(rank: (T, T) -> int, top: LocHeapNode<T>, data: T, ghost s: Shape<T>)
      returns (removed: LocHeapNode?<T>, ghost s': Shape<T>)
      requires IsTree(top, s) && s.At?
      modifies Nodes(s)
      ensures IsTree(top, s') && (removed == null ==> Erase(s') == Erase(s))
      ensures var (l', gone) := HeapTree.Remove(rank, Erase(s.left), data);
              && gone == Datum(removed)
              && (removed != null ==> Erase(s') == Node(s.size - 1, s.data, l', Erase(s.right)))
      ensures Nodes(s') == Nodes(s) - {removed} && (removed != null ==> removed in Nodes(s))
      decreases Count(Erase(s)), 0
    {
      ghost var l, r := s.left, s.right;
      NodesAllocated(s);
      assert IsTree(top.mLeft, l) && IsTree(top.mRight, r);
      var sub;
      sub, removed, l := RemoveBelow(rank, top.mLeft, data, l, top.mRight, r);
      top.mLeft := sub;
      if removed != null {
        top.mSize := top.mSize - 1;
      }
      assert IsTree(top.mLeft, l) && IsTree(top.mRight, r);
      s' := At(top, top.mSize, top.mData, l, r);
    }

    static method RemoveRight(rank: (T, T) -> int, top: LocHeapNode<T>, data: T, ghost s: Shape<T>)
      returns (removed: LocHeapNode?<T>, ghost s': Shape<T>)
      requires IsTree(top, s) && s.At?
      modifies Nodes(s)
      ensures IsTree(top, s') && (removed == null ==> Erase(s') == Erase(s))
      ensures var (r', gone) := HeapTree.Remove(rank, Erase(s.right), data);
              && gone == Datum(removed)
              && (removed != null ==> Erase(s') == Node(s.size - 1, s.data, Erase(s.left), r'))
      ensures Nodes(s') == Nodes(s) - {removed} && (removed != null ==> removed in Nodes(s))
      decreases Count(Erase(s)), 0
    {
      ghost var l, r := s.left, s.right;
      NodesAllocated(s);
      assert IsTree(top.mLeft, l) && IsTree(top.mRight, r);
      var sub;
      sub, removed, r := RemoveBelow(rank, top.mRight, data, r, top.mLeft, l);
      top.mRight := sub;
      if removed != null {
        top.mSize := top.mSize - 1;
      }
      assert IsTree(top.mLeft, l) && IsTree(top.mRight, r);
      s' := At(top, top.mSize, top.mData, l, r);
    }

    /** The recursive call of remove on a child, if there is one; the other subtree stays as it is. */
    static method RemoveBelow(rank: (T, T) -> int, child: LocHeapNode?<T>, data: T, ghost c: Shape<T>,
                              ghost otherLink: LocHeapNode?<T>, ghost other: Shape<T>)
      returns (link: LocHeapNode?<T>, removed: LocHeapNode?<T>, ghost c': Shape<T>)
      requires IsTree(child, c) && IsTree(otherLink, other) && Nodes(c) !! Nodes(other)
      modifies Nodes(c)
      ensures IsTree(link, c') && IsTree(otherLink, other)
      ensures var (t', gone) := HeapTree.Remove(rank, Erase(c), data);
              && Erase(c') == t'
              && gone == Datum(removed)
      ensures removed == null ==> Erase(c') == Erase(c)
      ensures Nodes(c') == Nodes(c) - {removed} && (removed != null ==> removed in Nodes(c))
      decreases Count(Erase(c)), 2
    {
      NodesAllocated(other);
      link, removed, c' := child, null, c;
      if HeapTree.Remove(rank, Erase(c), data).1.None? {
        RemoveMissChangesNothing(rank, Erase(c), data);
      }
      if child != null {
        link, removed, c' := Remove(rank, child, data, c);
      }
    }

    method CheckNodes(rank: (T, T) -> int, ghost s: Shape<T>) returns (ok: bool)
      requires IsTree(this, s)
      ensures ok <==> WellFormed(rank, Erase(s))
      decreases s
    {
      CheckNodesDecides(rank, Erase(s));
      NodesAllocated(s.right);
      assert IsTree(mLeft, s.left) && IsTree(mRight, s.right);
      var totalSize := mSize;
      if mLeft != null {
        CheckNodesDecides(rank, Erase(s.left));
        if OutRanks(rank, mLeft.mData, mData) { return false; }
        var below := mLeft.CheckNodes(rank, s.left);
        if !below { return false; }
        totalSize := totalSize - mLeft.mSize;
      }
      if mRight != null {
        CheckNodesDecides(rank, Erase(s.right));
        if OutRanks(rank, mRight.mData, mData) { return false; }
        var below := mRight.CheckNodes(rank, s.right);
        if !below { return false; }
        totalSize := totalSize - mRight.mSize;
      }
      return totalSize == 1;
    }
  }

  ghost function Datum<T>(node: LocHeapNode?<T>): Option<T>
    reads node
  {
    if node == null then None else Some(node.mData)
  }

  class LocHeap<T(==)> {
    const rank: (T, T) -> int
    var mTree: LocHeapNode?<T>
    ghost var shape: Shape<T>

    ghost predicate Valid()
      reads this, Nodes(shape)
    {
      IsTree(mTree, shape)
    }

    ghost function Contents(): Tree<T>
      reads this
    {
      Erase(shape)
    }

    constructor (rank: (T, T) -> int)
      ensures Valid() && Contents() == Leaf && this.rank == rank && Nodes(shape) == {}
    {
      this.rank := rank;
      mTree, shape := null, Empty;
    }

    method Push(data: T)
      requires Valid()
      modifies this, Nodes(shape)
      ensures Valid() && fresh(Nodes(shape) - old(Nodes(shape)))
      ensures Contents() == HeapTree.Push(rank, old(Contents()), data)
    {
      NodesAllocated(shape);
      var heapNode := new LocHeapNode(data);
      if mTree == null {
        mTree, shape := heapNode, At(heapNode, 1, data, Empty, Empty);
      } else {
        shape := mTree.Push(rank, heapNode, shape);
      }
    }

    function Peek(): (top: Option<T>)
      requires Valid()
      reads this, mTree, Nodes(shape)
      ensures top == Top(Contents())
    {
      if mTree == null then None else Some(mTree.mData)
    }

    method Pop() returns (top: Option<T>)
      requires Valid()
      modifies this, Nodes(shape)
      ensures Valid() && Nodes(shape) <= old(Nodes(shape))
      ensures (Contents(), top) == PopTop(rank, old(Contents()))
    {
      top := None;
      if mTree != null {
        var heapNode;
        mTree, heapNode, shape := LocHeapNode.Pop(rank, mTree, shape);
        top := Some(heapNode.mData);
      }
    }

    method Remove(data: T) returns (gone: Option<T>)
      requires Valid()
      modifies this, Nodes(shape)
      ensures Valid() && Nodes(shape) <= old(Nodes(shape))
      ensures (Contents(), gone) == HeapTree.Remove(rank, old(Contents()), data)
    {
      gone := None;
      if mTree != null {
        var heapNode;
        mTree, heapNode, shape := LocHeapNode.Remove(rank, mTree, data, shape);
        if heapNode != null {
          gone := Some(heapNode.mData);
        }
      }
    }

    /** checkTree, a debugging aid. */
    method CheckTree() returns (ok: bool)
      requires Valid()
      ensures ok <==> WellFormed(rank, Contents())
    {
      ok := true;
      if mTree != null {
        ok := mTree.CheckNodes(rank, shape);
      }
    }
  }
}
