/**
The value of a LocHeapNode tree and the heap algorithms on it. A tree node keeps the
stored mSize field, so that "mSize is correct" is something to prove. A ranking is the
virtual method LocRankable::ranks, given as a function; elements stand for object
addresses, so equality is identity.
*/
module HeapTree {

  import opened Options

  datatype Tree<T> = Leaf | Node(size: int, data: T, left: Tree<T>, right: Tree<T>)

  predicate OutRanks<T>(rank: (T, T) -> int, a: T, b: T) { rank(a, b) > 0 }

  /** "a does not rank lower than b" is a total preorder. */
  ghost predicate TotalPreorder<T(!new)>(rank: (T, T) -> int) {
    && (forall a, b :: OutRanks(rank, a, b) ==> !OutRanks(rank, b, a))
    && (forall a, b, c :: !OutRanks(rank, a, b) && !OutRanks(rank, b, c) ==> !OutRanks(rank, a, c))
  }

  ghost function Count<T>(t: Tree<T>): nat {
    match t
    case Leaf => 0
    case Node(_, _, l, r) => 1 + Count(l) + Count(r)
  }

  ghost function Is<T>(x: T, z: T): nat { if x == z then 1 else 0 }

  /** How often z is in the tree: the tree as a multiset, point by point. */
  ghost function Occ<T>(t: Tree<T>, z: T): nat {
    match t
    case Leaf => 0
    case Node(_, x, l, r) => Is(x, z) + Occ(l, z) + Occ(r, z)
  }

  ghost predicate Contains<T>(t: Tree<T>, z: T) { Occ(t, z) > 0 }

  /** Every stored size is the number of nodes below and including its node. */
  ghost predicate SizesExact<T>(t: Tree<T>) {
    match t
    case Leaf => true
    case Node(n, _, l, r) => n == Count(t) && SizesExact(l) && SizesExact(r)
  }

  ghost predicate NotAbove<T>(rank: (T, T) -> int, child: Tree<T>, x: T) {
    child.Node? ==> !OutRanks(rank, child.data, x)
  }

  /** No child outranks its parent. */
  ghost predicate HeapOrdered<T>(rank: (T, T) -> int, t: Tree<T>) {
    match t
    case Leaf => true
    case Node(_, x, l, r) =>
      NotAbove(rank, l, x) && NotAbove(rank, r, x) && HeapOrdered(rank, l) && HeapOrdered(rank, r)
  }

  ghost predicate WellFormed<T>(rank: (T, T) -> int, t: Tree<T>) {
    SizesExact(t) && HeapOrdered(rank, t)
  }

  /** Swapping the datum of a node changes nothing below it. */
  lemma SameShape<T>(t: Tree<T>, x: T)
    requires t.Node?
    ensures Count(t.(data := x)) == Count(t)
    ensures SizesExact(t.(data := x)) == SizesExact(t)
  {
  }

  // ---------------------------------------------------------------- the algorithms

  function Single<T>(x: T): Tree<T> { Node(1, x, Leaf, Leaf) }

  /** LocHeapNode::push, and LocHeap::push on an empty tree. */
  function Push<T>(rank: (T, T) -> int, t: Tree<T>, x: T): Tree<T> {
    match t
    case Leaf => Single(x)
    case Node(n, y, l, r) =>
      var top := if OutRanks(rank, x, y) then x else y;
      var low := if OutRanks(rank, x, y) then y else x;
      if l.Leaf? then Node(n + 1, top, Single(low), r)
      else if r.Leaf? then Node(n + 1, top, l, Single(low))
      else if l.size <= r.size then Node(n + 1, top, Push(rank, l, low), r)
      else Node(n + 1, top, l, Push(rank, r, low))
  }

  /** Whether LocHeapNode::pop promotes the left child (else the right one). */
  predicate PromotesLeft<T>(rank: (T, T) -> int, l: Tree<T>, r: Tree<T>)
    requires l.Node? || r.Node?
  {
    l.Node? && (r.Leaf? || OutRanks(rank, l.data, r.data))
  }

  /** LocHeapNode::pop: the tree that is left, and the datum of the detached leaf node. */
  function Pop<T>(rank: (T, T) -> int, t: Tree<T>): (Tree<T>, T)
    requires t.Node?
    decreases Count(t)
  {
    var Node(n, x, l, r) := t;
    if l.Leaf? && r.Leaf? then (Leaf, x)
    else if PromotesLeft(rank, l, r) then
      SameShape(l, x);
      var (l', out) := Pop(rank, l.(data := x));
      (Node(n - 1, l.data, l', r), out)
    else
      SameShape(r, x);
      var (r', out) := Pop(rank, r.(data := x));
      (Node(n - 1, r.data, l, r'), out)
  }

  /** LocHeap::peek. */
  function Top<T>(t: Tree<T>): Option<T> { if t.Leaf? then None else Some(t.data) }

  /** LocHeap::pop. */
  function PopTop<T>(rank: (T, T) -> int, t: Tree<T>): (Tree<T>, Option<T>) {
    if t.Leaf? then (t, None)
    else
      var (t', out) := Pop(rank, t);
      (t', Some(out))
  }

  /** LocHeapNode::remove: subtrees whose top is outranked by x are not searched. */
  function Remove<T(==)>(rank: (T, T) -> int, t: Tree<T>, x: T): (Tree<T>, Option<T>) {
    match t
    case Leaf => (Leaf, None)
    case Node(n, y, l, r) =>
      if x == y then
        var (t', out) := Pop(rank, t);
        (t', Some(out))
      else if OutRanks(rank, x, y) then (t, None)
      else
        var (l', fromLeft) := Remove(rank, l, x);
        if fromLeft.Some? then (Node(n - 1, y, l', r), fromLeft)
        else
          var (r', fromRight) := Remove(rank, r, x);
          if fromRight.Some? then (Node(n - 1, y, l, r'), fromRight) else (t, None)
  }

  /** LocHeapNode::checkNodes. */
  function CheckNodes<T>(rank: (T, T) -> int, t: Tree<T>): bool
    requires t.Node?
  {
    var Node(n, x, l, r) := t;
    if l.Node? && (OutRanks(rank, l.data, x) || !CheckNodes(rank, l)) then false
    else
      var n1 := if l.Node? then n - l.size else n;
      if r.Node? && (OutRanks(rank, r.data, x) || !CheckNodes(rank, r)) then false
      else
        var n2 := if r.Node? then n1 - r.size else n1;
        n2 == 1
  }

  // ---------------------------------------------------------------- properties

  lemma {:induction false} TopIsHighest<T(!new)>(rank: (T, T) -> int, t: Tree<T>, y: T)
    requires TotalPreorder(rank) && HeapOrdered(rank, t) && Contains(t, y)
    ensures t.Node? && !OutRanks(rank, y, t.data)
  {
    if y != t.data {
      if Contains(t.left, y) {
        TopIsHighest(rank, t.left, y);
      } else {
        TopIsHighest(rank, t.right, y);
      }
    } else if OutRanks(rank, y, y) {
      assert false;
    }
  }

  lemma {:induction false} PushAddsOne<T>(rank: (T, T) -> int, t: Tree<T>, x: T, z: T)
    ensures Occ(Push(rank, t, x), z) == Occ(t, z) + Is(x, z)
  {
    match t
    case Leaf =>
    case Node(n, y, l, r) =>
      var low := if OutRanks(rank, x, y) then y else x;
      if l.Node? && r.Node? {
        if l.size <= r.size {
          PushAddsOne(rank, l, low, z);
        } else {
          PushAddsOne(rank, r, low, z);
        }
      }
  }

  lemma {:induction false} PushKeepsSizes<T>(rank: (T, T) -> int, t: Tree<T>, x: T)
    requires SizesExact(t)
    ensures SizesExact(Push(rank, t, x)) && Count(Push(rank, t, x)) == Count(t) + 1
  {
    match t
    case Leaf =>
    case Node(n, y, l, r) =>
      var low := if OutRanks(rank, x, y) then y else x;
      if l.Node? && r.Node? {
        if l.size <= r.size {
          PushKeepsSizes(rank, l, low);
        } else {
          PushKeepsSizes(rank, r, low);
        }
      }
  }

  lemma {:induction false} PushKeepsOrder<T(!new)>(rank: (T, T) -> int, t: Tree<T>, x: T)
    requires TotalPreorder(rank) && HeapOrdered(rank, t)
    ensures var t' := Push(rank, t, x);
      && HeapOrdered(rank, t')
      && t'.Node?
      && t'.data == if t.Node? && !OutRanks(rank, x, t.data) then t.data else x
  {
    match t
    case Leaf =>
    case Node(n, y, l, r) =>
      var low := if OutRanks(rank, x, y) then y else x;
      if l.Node? && r.Node? {
        if l.size <= r.size {
          PushKeepsOrder(rank, l, low);
        } else {
          PushKeepsOrder(rank, r, low);
        }
      }
  }

  /** The datum swapped all the way down to the detached leaf is the old top. */
  lemma {:induction false} PopTakesTop<T>(rank: (T, T) -> int, t: Tree<T>)
    requires t.Node?
    ensures Pop(rank, t).1 == t.data
    decreases Count(t)
  {
    var Node(n, x, l, r) := t;
    if l.Node? || r.Node? {
      var sub := if PromotesLeft(rank, l, r) then l else r;
      SameShape(sub, x);
      PopTakesTop(rank, sub.(data := x));
    }
  }

  lemma {:induction false} PopRemovesOne<T>(rank: (T, T) -> int, t: Tree<T>, z: T)
    requires t.Node?
    ensures Occ(t, z) == Occ(Pop(rank, t).0, z) + Is(t.data, z)
    decreases Count(t)
  {
    var Node(n, x, l, r) := t;
    if l.Node? || r.Node? {
      var sub := if PromotesLeft(rank, l, r) then l else r;
      SameShape(sub, x);
      PopRemovesOne(rank, sub.(data := x), z);
    }
  }

  lemma {:induction false} PopKeepsSizes<T>(rank: (T, T) -> int, t: Tree<T>)
    requires t.Node? && SizesExact(t)
    ensures SizesExact(Pop(rank, t).0) && Count(t) == Count(Pop(rank, t).0) + 1
    decreases Count(t)
  {
    var Node(n, x, l, r) := t;
    if l.Node? || r.Node? {
      var sub := if PromotesLeft(rank, l, r) then l else r;
      SameShape(sub, x);
      PopKeepsSizes(rank, sub.(data := x));
    }
  }

  lemma PopTopComesFromBelow<T>(rank: (T, T) -> int, t: Tree<T>)
    requires t.Node?
    ensures var t' := Pop(rank, t).0; t'.Node? ==> Contains(t.left, t'.data) || Contains(t.right, t'.data)
  {
  }

  /** The promoted datum is not outranked by what is left of the subtree it came from. */
  lemma PromotedOverRest<T(!new)>(rank: (T, T) -> int, sub: Tree<T>, x: T)
    requires TotalPreorder(rank) && sub.Node? && HeapOrdered(rank, sub)
    ensures NotAbove(rank, Pop(rank, sub.(data := x)).0, sub.data)
  {
    var sub' := Pop(rank, sub.(data := x)).0;
    if sub'.Node? {
      PopTopComesFromBelow(rank, sub.(data := x));
      assert Contains(sub, sub'.data);
      TopIsHighest(rank, sub, sub'.data);
    }
  }

  /** Pop ignores the datum it is given at the top, so only the children need be ordered. */
  lemma {:induction false} PopKeepsOrder<T(!new)>(rank: (T, T) -> int, t: Tree<T>)
    requires TotalPreorder(rank) && t.Node?
    requires HeapOrdered(rank, t.left) && HeapOrdered(rank, t.right)
    ensures HeapOrdered(rank, Pop(rank, t).0)
    decreases Count(t)
  {
    var Node(n, x, l, r) := t;
    if l.Node? || r.Node? {
      var sub := if PromotesLeft(rank, l, r) then l else r;
      SameShape(sub, x);
      PopKeepsOrder(rank, sub.(data := x));
      PromotedOverRest(rank, sub, x);
    }
  }

  /** A remove that reports a miss changed nothing, in any tree. */
  lemma {:induction false} RemoveMissChangesNothing<T>(rank: (T, T) -> int, t: Tree<T>, x: T)
    requires Remove(rank, t, x).1.None?
    ensures Remove(rank, t, x).0 == t
  {
    match t
    case Leaf =>
    case Node(n, y, l, r) =>
      if x != y && !OutRanks(rank, x, y) {
        RemoveMissChangesNothing(rank, l, x);
        RemoveMissChangesNothing(rank, r, x);
      }
  }

  /** The pruned search is complete: it finds x exactly when x is in the tree. */
  lemma {:induction false} RemoveIsComplete<T(!new)>(rank: (T, T) -> int, t: Tree<T>, x: T)
    requires TotalPreorder(rank) && HeapOrdered(rank, t)
    ensures Remove(rank, t, x).1 == if Contains(t, x) then Some(x) else None
  {
    match t
    case Leaf =>
    case Node(n, y, l, r) =>
      if x == y {
        PopTakesTop(rank, t);
      } else {
        RemoveIsComplete(rank, l, x);
        RemoveIsComplete(rank, r, x);
        if Contains(t, x) {
          TopIsHighest(rank, t, x);
        }
      }
  }

  lemma {:induction false} RemoveTakesOne<T>(rank: (T, T) -> int, t: Tree<T>, x: T, z: T)
    ensures Remove(rank, t, x).1.Some? ==> Occ(t, z) == Occ(Remove(rank, t, x).0, z) + Is(x, z)
  {
    match t
    case Leaf =>
    case Node(n, y, l, r) =>
      if x == y {
        PopRemovesOne(rank, t, z);
      } else {
        RemoveTakesOne(rank, l, x, z);
        RemoveTakesOne(rank, r, x, z);
      }
  }

  lemma {:induction false} RemoveKeepsSizes<T>(rank: (T, T) -> int, t: Tree<T>, x: T)
    requires SizesExact(t)
    ensures var (t', gone) := Remove(rank, t, x);
      SizesExact(t') && Count(t) == Count(t') + if gone.Some? then 1 else 0
  {
    match t
    case Leaf =>
    case Node(n, y, l, r) =>
      if x == y {
        PopKeepsSizes(rank, t);
      } else {
        RemoveKeepsSizes(rank, l, x);
        RemoveKeepsSizes(rank, r, x);
      }
  }

  /** Heap order survives, and a top that is not the removed datum stays the top. */
  lemma {:induction false} RemoveKeepsOrder<T(!new)>(rank: (T, T) -> int, t: Tree<T>, x: T)
    requires TotalPreorder(rank) && HeapOrdered(rank, t)
    ensures HeapOrdered(rank, Remove(rank, t, x).0)
    ensures t.Node? && t.data != x ==> Remove(rank, t, x).0.Node? && Remove(rank, t, x).0.data == t.data
  {
    match t
    case Leaf =>
    case Node(n, y, l, r) =>
      if x == y {
        PopKeepsOrder(rank, t);
      } else {
        RemoveKeepsOrder(rank, l, x);
        RemoveKeepsOrder(rank, r, x);
        RemovedStaysBelow(rank, t, l, x);
        RemovedStaysBelow(rank, t, r, x);
      }
  }

  lemma RemovedStaysBelow<T(!new)>(rank: (T, T) -> int, t: Tree<T>, sub: Tree<T>, x: T)
    requires TotalPreorder(rank) && HeapOrdered(rank, t) && t.Node? && (sub == t.left || sub == t.right)
    ensures NotAbove(rank, Remove(rank, sub, x).0, t.data)
  {
    var (sub', gone) := Remove(rank, sub, x);
    if gone.None? {
      RemoveMissChangesNothing(rank, sub, x);
    } else if sub'.Node? {
      RemoveTakesOne(rank, sub, x, sub'.data);
      assert Contains(t, sub'.data);
      TopIsHighest(rank, t, sub'.data);
    }
  }

  /** checkNodes returns true exactly on trees with exact sizes and no child above its parent. */
  lemma {:induction false} CheckNodesDecides<T>(rank: (T, T) -> int, t: Tree<T>)
    requires t.Node?
    ensures CheckNodes(rank, t) <==> WellFormed(rank, t)
  {
    var Node(n, x, l, r) := t;
    if l.Node? { CheckNodesDecides(rank, l); }
    if r.Node? { CheckNodesDecides(rank, r); }
    if WellFormed(rank, t) {
      assert WellFormed(rank, l) && WellFormed(rank, r);
    }
    if CheckNodes(rank, t) {
      assert WellFormed(rank, l) && WellFormed(rank, r);
      assert n == Count(t);
    }
  }

  // ---------------------------------------------------------------- popping until empty

  ghost function PopAll<T>(rank: (T, T) -> int, t: Tree<T>): seq<T>
    requires SizesExact(t)
    decreases Count(t)
  {
    if t.Leaf? then []
    else
      PopKeepsSizes(rank, t);
      [Pop(rank, t).1] + PopAll(rank, Pop(rank, t).0)
  }

  ghost predicate NonIncreasing<T>(rank: (T, T) -> int, xs: seq<T>) {
    forall i, j :: 0 <= i < j < |xs| ==> !OutRanks(rank, xs[j], xs[i])
  }

  lemma {:induction false} PopAllYieldsContents<T>(rank: (T, T) -> int, t: Tree<T>, z: T)
    requires SizesExact(t)
    ensures multiset(PopAll(rank, t))[z] == Occ(t, z)
    decreases Count(t)
  {
    if t.Node? {
      PopKeepsSizes(rank, t);
      PopTakesTop(rank, t);
      PopRemovesOne(rank, t, z);
      PopAllYieldsContents(rank, Pop(rank, t).0, z);
    }
  }

  /** Popping until empty yields the data in non-increasing rank order. */
  lemma {:induction false} PopAllSorts<T(!new)>(rank: (T, T) -> int, t: Tree<T>)
    requires TotalPreorder(rank) && WellFormed(rank, t)
    ensures NonIncreasing(rank, PopAll(rank, t))
    decreases Count(t)
  {
    if t.Node? {
      var (t', out) := Pop(rank, t);
      PopTakesTop(rank, t);
      PopKeepsSizes(rank, t);
      PopKeepsOrder(rank, t);
      PopAllSorts(rank, t');
      var rest := PopAll(rank, t');
      forall j | 0 <= j < |rest| ensures !OutRanks(rank, rest[j], out) {
        PopAllYieldsContents(rank, t', rest[j]);
        PopRemovesOne(rank, t, rest[j]);
        assert rest[j] in multiset(rest);
        TopIsHighest(rank, t, rest[j]);
      }
    }
  }

  // ---------------------------------------------------------------- balance of pushed trees

  ghost function PushAll<T>(rank: (T, T) -> int, xs: seq<T>): Tree<T> {
    if xs == [] then Leaf else Push(rank, PushAll(rank, xs[..|xs| - 1]), xs[|xs| - 1])
  }

  ghost predicate Balanced<T>(t: Tree<T>) {
    match t
    case Leaf => true
    case Node(_, _, l, r) => Count(r) <= Count(l) <= Count(r) + 1 && Balanced(l) && Balanced(r)
  }

  ghost function Height<T>(t: Tree<T>): nat {
    match t
    case Leaf => 0
    case Node(_, _, l, r) => 1 + if Height(l) >= Height(r) then Height(l) else Height(r)
  }

  ghost function Pow2(n: nat): nat { if n == 0 then 1 else 2 * Pow2(n - 1) }

  lemma {:induction false} PushKeepsBalance<T>(rank: (T, T) -> int, t: Tree<T>, x: T)
    requires SizesExact(t) && Balanced(t)
    ensures Balanced(Push(rank, t, x))
  {
    PushKeepsSizes(rank, t, x);
    match t
    case Leaf =>
    case Node(n, y, l, r) =>
      var low := if OutRanks(rank, x, y) then y else x;
      if l.Node? && r.Node? {
        if l.size <= r.size {
          PushKeepsSizes(rank, l, low);
          PushKeepsBalance(rank, l, low);
        } else {
          PushKeepsSizes(rank, r, low);
          PushKeepsBalance(rank, r, low);
        }
      }
  }

  lemma {:induction false} PushedTreesBalanced<T>(rank: (T, T) -> int, xs: seq<T>)
    ensures var t := PushAll(rank, xs); SizesExact(t) && Balanced(t) && Count(t) == |xs|
  {
    if xs != [] {
      PushedTreesBalanced(rank, xs[..|xs| - 1]);
      PushKeepsSizes(rank, PushAll(rank, xs[..|xs| - 1]), xs[|xs| - 1]);
      PushKeepsBalance(rank, PushAll(rank, xs[..|xs| - 1]), xs[|xs| - 1]);
    }
  }

  lemma {:induction false} Pow2Monotone(a: nat, b: nat)
    requires a <= b
    ensures Pow2(a) <= Pow2(b)
  {
    if a < b { Pow2Monotone(a, b - 1); }
  }

  lemma {:induction false} HeightBounds<T>(t: Tree<T>)
    requires Balanced(t)
    ensures Count(t) < Pow2(Height(t))
    ensures t.Node? ==> Pow2(Height(t) - 1) <= Count(t)
  {
    match t
    case Leaf =>
    case Node(_, _, l, r) =>
      HeightBounds(l);
      HeightBounds(r);
      Pow2Monotone(Height(l), Height(t) - 1);
      Pow2Monotone(Height(r), Height(t) - 1);
  }

  /** A tree built by n pushes has logarithmic height. */
  lemma PushedHeight<T>(rank: (T, T) -> int, xs: seq<T>)
    requires xs != []
    ensures var h := Height(PushAll(rank, xs)); h >= 1 && Pow2(h - 1) <= |xs| < Pow2(h)
  {
    PushedTreesBalanced(rank, xs);
    HeightBounds(PushAll(rank, xs));
  }
}
