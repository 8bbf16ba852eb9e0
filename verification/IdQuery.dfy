/** Looking up records by id: an unbalanced search tree against a scan of the record array.
    A record is known by its position in the array; ids may repeat. */
module IdQuery {
  import opened Options

  // ----- what a lookup returns -----

  /** The position of the first record with the id. */
  ghost predicate IsFirst(ids: seq<int>, needle: int, found: Option<nat>) {
    match found
    case None => needle !in ids
    case Some(i) => i < |ids| && ids[i] == needle && forall j :: 0 <= j < i ==> ids[j] != needle
  }

  lemma FirstIsUnique(ids: seq<int>, needle: int, a: Option<nat>, b: Option<nat>)
    requires IsFirst(ids, needle, a) && IsFirst(ids, needle, b)
    ensures a == b
  {
  }

  /** The linear scan. */
  method LookupNaive(ids: seq<int>, needle: int) returns (found: Option<nat>)
    ensures IsFirst(ids, needle, found)
  {
    for i := 0 to |ids|
      invariant forall j :: 0 <= j < i ==> ids[j] != needle
    {
      if ids[i] == needle {
        return Some(i);
      }
    }
    return None;
  }

  // ----- the shape of a tree -----

  datatype Tree = Nil | Bin(left: Tree, id: int, record: nat, right: Tree)

  /** Insertion: equal ids go to the right. */
  function Insert(t: Tree, id: int, record: nat): Tree {
    match t
    case Nil => Bin(Nil, id, record, Nil)
    case Bin(l, i, r, rt) => if i <= id then t.(right := Insert(rt, id, record)) else t.(left := Insert(l, id, record))
  }

  function Search(t: Tree, needle: int): Option<nat> {
    match t
    case Nil => None
    case Bin(l, i, r, rt) => if i == needle then Some(r) else if i > needle then Search(l, needle) else Search(rt, needle)
  }

  /** The tree of the first records. */
  function Build(ids: seq<int>): Tree {
    if ids == [] then Nil else Insert(Build(ids[..|ids| - 1]), ids[|ids| - 1], |ids| - 1)
  }

  /** A new record is found only where no earlier one was. */
  lemma {:induction false} SearchInsert(t: Tree, id: int, record: nat, needle: int)
    ensures Search(Insert(t, id, record), needle)
         == if Search(t, needle).None? && id == needle then Some(record) else Search(t, needle)
  {
    match t
    case Nil =>
    case Bin(l, i, r, rt) =>
      SearchInsert(l, id, record, needle);
      SearchInsert(rt, id, record, needle);
  }

  /** The tree finds the first record with an id, duplicates or not. */
  lemma {:induction false} SearchFindsFirst(ids: seq<int>, needle: int)
    ensures IsFirst(ids, needle, Search(Build(ids), needle))
  {
    if ids == [] {
    } else {
      var n := |ids| - 1;
      SearchFindsFirst(ids[..n], needle);
      SearchInsert(Build(ids[..n]), ids[n], n, needle);
      assert ids == ids[..n] + [ids[n]];
    }
  }

  // ----- the tree in memory -----

  class TreeNode {
    var osmId: int
    var value: nat
    var left: TreeNode?
    var right: TreeNode?
    ghost var Repr: set<TreeNode>

    ghost predicate Valid()
      reads this, Repr
      decreases Repr
    {
      && this in Repr
      && (left != null ==> left in Repr && left.Repr < Repr && this !in left.Repr && left.Valid())
      && (right != null ==> right in Repr && right.Repr < Repr && this !in right.Repr && right.Valid())
      && (left != null && right != null ==> left.Repr !! right.Repr)
    }

    ghost function Shape(): Tree
      requires Valid()
      reads this, Repr
      decreases Repr
    {
      Bin(if left == null then Nil else left.Shape(), osmId, value, if right == null then Nil else right.Shape())
    }

    constructor (id: int, record: nat)
      ensures Valid() && fresh(Repr) && Shape() == Bin(Nil, id, record, Nil)
    {
      osmId, value, left, right := id, record, null, null;
      Repr := {this};
    }
  }

  ghost function Nodes(t: TreeNode?): set<TreeNode>
    reads t
  {
    if t == null then {} else t.Repr
  }

  ghost predicate IsTree(t: TreeNode?)
    reads t, Nodes(t)
  {
    t != null ==> t.Valid()
  }

  ghost function Shape(t: TreeNode?): Tree
    requires IsTree(t)
    reads t, Nodes(t)
  {
    if t == null then Nil else t.Shape()
  }

  /** A subtree that does not contain its parent. */
  ghost predicate Hangs(parent: TreeNode, t: TreeNode?)
    reads t, Nodes(t)
  {
    IsTree(t) && parent !in Nodes(t)
  }

  ghost predicate Apart(a: TreeNode?, b: TreeNode?)
    reads a, b
  {
    (a != null ==> a in a.Repr) && Nodes(a) !! Nodes(b)
  }

  lemma Children(parent: TreeNode)
    requires parent.Valid()
    ensures Hangs(parent, parent.left) && Hangs(parent, parent.right) && parent in parent.Repr
    ensures Apart(parent.left, parent.right) && Apart(parent.right, parent.left)
    ensures Nodes(parent.left) + Nodes(parent.right) <= parent.Repr
    ensures parent.Shape() == Bin(Shape(parent.left), parent.osmId, parent.value, Shape(parent.right))
  {
  }

  method SetRight(parent: TreeNode, child: TreeNode)
    requires parent in parent.Repr && Hangs(parent, child) && Hangs(parent, parent.left)
    requires Nodes(parent.left) <= parent.Repr && Nodes(parent.left) !! child.Repr
    modifies parent
    ensures parent.Valid() && parent.Repr == old(parent.Repr + child.Repr)
    ensures parent.Shape() == old(Bin(Shape(parent.left), parent.osmId, parent.value, child.Shape()))
  {
    parent.right := child;
    parent.Repr := parent.Repr + child.Repr;
  }

  method SetLeft(parent: TreeNode, child: TreeNode)
    requires parent in parent.Repr && Hangs(parent, child) && Hangs(parent, parent.right)
    requires Nodes(parent.right) <= parent.Repr && Nodes(parent.right) !! child.Repr
    modifies parent
    ensures parent.Valid() && parent.Repr == old(parent.Repr + child.Repr)
    ensures parent.Shape() == old(Bin(child.Shape(), parent.osmId, parent.value, Shape(parent.right)))
  {
    parent.left := child;
    parent.Repr := parent.Repr + child.Repr;
  }

  /** Adds a record below `parent`, creating the node where the search path ends. */
  method ConstructTreeNode(parent: TreeNode?, id: int, record: nat) returns (root: TreeNode)
    requires IsTree(parent)
    modifies Nodes(parent)
    ensures root.Valid() && fresh(root.Repr - old(Nodes(parent))) && old(Nodes(parent)) <= root.Repr
    ensures parent != null ==> root == parent
    ensures root.Shape() == Insert(old(Shape(parent)), id, record)
    decreases Nodes(parent)
  {
    if parent == null {
      root := new TreeNode(id, record);
    } else if parent.osmId <= id {
      Children(parent);
      ghost var sibling := parent.left;
      assert Apart(sibling, parent.right);
      var child := ConstructTreeNode(parent.right, id, record);
      assert sibling != null ==> sibling.Repr == old(sibling.Repr) && sibling.Valid();
      SetRight(parent, child);
      root := parent;
    } else {
      Children(parent);
      ghost var sibling := parent.right;
      assert Apart(sibling, parent.left);
      var child := ConstructTreeNode(parent.left, id, record);
      assert sibling != null ==> sibling.Repr == old(sibling.Repr) && sibling.Valid();
      SetLeft(parent, child);
      root := parent;
    }
  }

  method MkIndexed(ids: seq<int>) returns (root: TreeNode?)
    ensures IsTree(root) && fresh(Nodes(root))
    ensures Shape(root) == Build(ids)
  {
    root := null;
    for i := 0 to |ids|
      invariant IsTree(root) && fresh(Nodes(root)) && Shape(root) == Build(ids[..i])
    {
      assert ids[..i + 1][..i] == ids[..i];
      root := ConstructTreeNode(root, ids[i], i);
    }
    assert ids[..|ids|] == ids;
  }

  method LookupBinary(data: TreeNode?, needle: int) returns (found: Option<nat>)
    requires IsTree(data)
    ensures found == Search(Shape(data), needle)
    decreases Nodes(data)
  {
    if data == null {
      return None;
    }
    if data.osmId == needle {
      return Some(data.value);
    }
    if data.osmId > needle {
      found := LookupBinary(data.left, needle);
    } else {
      found := LookupBinary(data.right, needle);
    }
  }

  /** Building the tree and searching it gives what the scan gives, on every array and for every id. */
  method LookupsAgree(ids: seq<int>, needle: int) returns (indexed: Option<nat>, naive: Option<nat>)
    ensures indexed == naive && IsFirst(ids, needle, indexed)
  {
    var root := MkIndexed(ids);
    indexed := LookupBinary(root, needle);
    naive := LookupNaive(ids, needle);
    SearchFindsFirst(ids, needle);
    FirstIsUnique(ids, needle, indexed, naive);
  }
}
