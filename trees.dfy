/** Finite ordered trees and their pre-order listing: the shape of the
    module tree at one moment. */
module Trees {

  datatype Tree<T> = Node(item: T, kids: seq<Tree<T>>)

  /** Number of nodes, counting a node once for each path that reaches it. */
  function Size<T>(t: Tree<T>): nat
    decreases t
  {
    1 + SizeList(t.kids)
  }

  function SizeList<T>(ts: seq<Tree<T>>): nat
    decreases ts
  {
    if ts == [] then 0 else SizeList(ts[..|ts| - 1]) + Size(ts[|ts| - 1])
  }

  /** The node first, then each child's listing in child order. */
  function Preorder<T>(t: Tree<T>): seq<T>
    decreases t
  {
    [t.item] + PreorderList(t.kids)
  }

  function PreorderList<T>(ts: seq<Tree<T>>): seq<T>
    decreases ts
  {
    if ts == [] then [] else PreorderList(ts[..|ts| - 1]) + Preorder(ts[|ts| - 1])
  }

  /** The pre-order listing has one entry per node and starts with the root. */
  lemma {:induction false} PreorderSize<T>(t: Tree<T>)
    ensures |Preorder(t)| == Size(t)
    ensures Preorder(t)[0] == t.item
    decreases t, 1
  {
    PreorderListSize(t.kids);
  }

  lemma {:induction false} PreorderListSize<T>(ts: seq<Tree<T>>)
    ensures |PreorderList(ts)| == SizeList(ts)
    decreases ts, 0
  {
    if ts != [] {
      PreorderListSize(ts[..|ts| - 1]);
      PreorderSize(ts[|ts| - 1]);
    }
  }

  lemma PreorderListSnoc<T>(ts: seq<Tree<T>>, t: Tree<T>)
    ensures PreorderList(ts + [t]) == PreorderList(ts) + Preorder(t)
  {
    assert (ts + [t])[..|ts|] == ts;
  }

  /** Number of levels: a leaf has height 1. */
  function Height<T>(t: Tree<T>): nat
    decreases t
  {
    1 + HeightList(t.kids)
  }

  function HeightList<T>(ts: seq<Tree<T>>): nat
    decreases ts
  {
    if ts == [] then 0
    else
      var a, b := HeightList(ts[..|ts| - 1]), Height(ts[|ts| - 1]);
      if a < b then b else a
  }

  /** Every subtree is lower than its parent. */
  lemma KidHeight<T>(t: Tree<T>, i: nat)
    requires i < |t.kids|
    ensures Height(t.kids[i]) < Height(t)
  {
    HeightListBound(t.kids, i);
  }

  lemma {:induction false} HeightListBound<T>(ts: seq<Tree<T>>, i: nat)
    requires i < |ts|
    ensures Height(ts[i]) <= HeightList(ts)
    decreases |ts|
  {
    if i < |ts| - 1 {
      HeightListBound(ts[..|ts| - 1], i);
    }
  }
}
