/**
 The AVL tree as the source has it: nodes that own their children, updated in place.  Every method is
 proved to do to the heap what the functions of `AvlSpec` do to a tree value.
 */
module AvlTree {
  import opened Basics
  import opened Keys
  import Spec = AvlSpec

  class AvlNode<V> {
    var key: Key
    var value: V
    var depth: nat
    var weight: nat
    var left: AvlNode?<V>
    var right: AvlNode?<V>
    ghost var Repr: set<object>

    constructor (key: Key, value: V)
      ensures Valid() && fresh(Repr) && Shape() == Spec.Node(key, value, 1, 1, Spec.Leaf, Spec.Leaf)
    {
      this.key, this.value, depth, weight := key, value, 1, 1;
      left, right := null, null;
      Repr := {this};
    }

    /** The nodes below are distinct: a tree. */
    ghost predicate Valid()
      reads this, Repr
      decreases Repr
    {
      && this in Repr
      && (left != null ==> left in Repr && left.Repr <= Repr && this !in left.Repr && left.Valid())
      && (right != null ==> right in Repr && right.Repr <= Repr && this !in right.Repr && right.Valid())
      && (left != null && right != null ==> left.Repr !! right.Repr)
    }

    /** The tree hanging from this node, as a value. */
    ghost function Shape(): (t: Spec.Tree<V>)
      requires Valid()
      reads this, Repr
      decreases Repr
      ensures t.Node?
    {
      Spec.Node(key, value, depth, weight,
                if left == null then Spec.Leaf else left.Shape(),
                if right == null then Spec.Leaf else right.Shape())
    }
  }

  ghost predicate ValidAt<V>(n: AvlNode?<V>)
    reads n, if n == null then {} else n.Repr
  {
    n != null ==> n.Valid()
  }

  ghost function ReprAt<V>(n: AvlNode?<V>): (r: set<object>)
    reads n
  {
    if n == null then {} else n.Repr
  }

  ghost function ShapeAt<V>(n: AvlNode?<V>): (t: Spec.Tree<V>)
    requires ValidAt(n)
    reads n, if n == null then {} else n.Repr
    ensures t.Leaf? <==> n == null
  {
    if n == null then Spec.Leaf else n.Shape()
  }

  // ---- rebalancing ----

  /** `updateNode` */
  method UpdateNode<V>(node: AvlNode<V>)
    requires node.Valid()
    modifies node`depth, node`weight
    ensures node.Valid() && node.Shape() == Spec.Make(node.key, node.value, ShapeAt(node.left), ShapeAt(node.right))
    ensures ShapeAt(node.left) == old(ShapeAt(node.left)) && ShapeAt(node.right) == old(ShapeAt(node.right))
  {
    var ld, rd := if node.left == null then 0 else node.left.depth, if node.right == null then 0 else node.right.depth;
    var lw, rw := if node.left == null then 0 else node.left.weight, if node.right == null then 0 else node.right.weight;
    node.depth := 1 + Max(ld, rd);
    node.weight := 1 + lw + rw;
  }

  /** Gives `node` these children. */
  method SetChildren<V>(node: AvlNode<V>, l: AvlNode?<V>, r: AvlNode?<V>)
    requires ValidAt(l) && ValidAt(r) && ReprAt(l) !! ReprAt(r)
    requires node !in ReprAt(l) && node !in ReprAt(r)
    modifies node`left, node`right, node`Repr
    ensures node.Valid() && node.Repr == {node} + ReprAt(l) + ReprAt(r) && node.left == l && node.right == r
    ensures node.Shape() == Spec.Node(node.key, node.value, node.depth, node.weight, old(ShapeAt(l)), old(ShapeAt(r)))
  {
    node.left := l;
    node.right := r;
    node.Repr := {node} + ReprAt(l) + ReprAt(r);
  }

  /** Gives `node` these children, then `updateNode`. */
  method Link<V>(node: AvlNode<V>, l: AvlNode?<V>, r: AvlNode?<V>)
    requires ValidAt(l) && ValidAt(r) && ReprAt(l) !! ReprAt(r)
    requires node !in ReprAt(l) && node !in ReprAt(r)
    modifies node
    ensures node.Valid() && node.Repr == {node} + ReprAt(l) + ReprAt(r)
    ensures node.Shape() == Spec.Make(old(node.key), old(node.value), old(ShapeAt(l)), old(ShapeAt(r)))
  {
    SetChildren(node, l, r);
    UpdateNode(node);
  }

  /** `Link`, in view of a tree `c` that it does not touch. */
  method LinkBeside<V>(node: AvlNode<V>, l: AvlNode?<V>, r: AvlNode?<V>, ghost c: AvlNode?<V>)
    requires ValidAt(l) && ValidAt(r) && ValidAt(c) && ReprAt(l) !! ReprAt(r)
    requires node !in ReprAt(l) && node !in ReprAt(r) && node !in ReprAt(c)
    modifies node
    ensures node.Valid() && node.Repr == {node} + ReprAt(l) + ReprAt(r)
    ensures node.Shape() == Spec.Make(old(node.key), old(node.value), old(ShapeAt(l)), old(ShapeAt(r)))
    ensures ReprAt(l) == old(ReprAt(l)) && ReprAt(r) == old(ReprAt(r))
    ensures ValidAt(c) && ReprAt(c) == old(ReprAt(c)) && ShapeAt(c) == old(ShapeAt(c))
  {
    Link(node, l, r);
  }

  /** Hangs `a` and `b` under `node`, and `node` and `c` under `root`. */
  method HangLeft<V>(node: AvlNode<V>, root: AvlNode<V>, a: AvlNode?<V>, b: AvlNode?<V>, c: AvlNode?<V>, ghost rest: set<object>)
    requires ValidAt(a) && ValidAt(b) && ValidAt(c) && node != root && ReprAt(a) !! ReprAt(b)
    requires rest == ReprAt(c) && rest !! (ReprAt(a) + ReprAt(b)) && {node, root} !! (ReprAt(a) + ReprAt(b) + rest)
    modifies node, root
    ensures root.Valid() && root.Repr == {node, root} + old(ReprAt(a) + ReprAt(b)) + rest
    ensures root.Shape() == Spec.Make(old(root.key), old(root.value),
      Spec.Make(old(node.key), old(node.value), old(ShapeAt(a)), old(ShapeAt(b))), old(ShapeAt(c)))
  {
    LinkBeside(node, a, b, c);
    Link(root, node, c);
  }

  /** Hangs `b` and `c` under `node`, and `a` and `node` under `root`. */
  method HangRight<V>(node: AvlNode<V>, root: AvlNode<V>, a: AvlNode?<V>, b: AvlNode?<V>, c: AvlNode?<V>, ghost rest: set<object>)
    requires ValidAt(a) && ValidAt(b) && ValidAt(c) && node != root && ReprAt(b) !! ReprAt(c)
    requires rest == ReprAt(a) && rest !! (ReprAt(b) + ReprAt(c)) && {node, root} !! (ReprAt(b) + ReprAt(c) + rest)
    modifies node, root
    ensures root.Valid() && root.Repr == {node, root} + old(ReprAt(b) + ReprAt(c)) + rest
    ensures root.Shape() == Spec.Make(old(root.key), old(root.value), old(ShapeAt(a)),
      Spec.Make(old(node.key), old(node.value), old(ShapeAt(b)), old(ShapeAt(c))))
  {
    LinkBeside(node, b, c, a);
    Link(root, a, node);
  }

  /** `rotateLeft` */
  method RotateLeft<V>(node: AvlNode<V>) returns (root: AvlNode<V>)
    requires node.Valid()
    modifies node.Repr
    ensures root.Valid() && root.Repr <= old(node.Repr)
    ensures root.Shape() == Spec.RotateLeft(old(node.Shape()))
  {
    if node.right == null {
      return node;
    }
    root := node.right;
    HangLeft(node, root, node.left, root.left, root.right, ReprAt(root.right));
  }

  /** `rotateRight` */
  method RotateRight<V>(node: AvlNode<V>) returns (root: AvlNode<V>)
    requires node.Valid()
    modifies node.Repr
    ensures root.Valid() && root.Repr <= old(node.Repr)
    ensures root.Shape() == Spec.RotateRight(old(node.Shape()))
  {
    if node.left == null {
      return node;
    }
    root := node.left;
    HangRight(node, root, root.left, root.right, node.right, ReprAt(root.left));
  }

  /** Turns the left child to the left, for the double rotation. */
  method TurnLeftChild<V>(node: AvlNode<V>)
    requires node.Valid() && node.left != null
    modifies node.Repr
    ensures node.Valid() && node.Repr <= old(node.Repr)
    ensures node.Shape() == Spec.Node(old(node.key), old(node.value), old(node.depth), old(node.weight),
                                      Spec.RotateLeft(old(node.left.Shape())), old(ShapeAt(node.right)))
  {
    var left, right := node.left, node.right;
    ghost var rr := ReprAt(right);
    assert ValidAt(right) && left.Repr !! rr && node !in left.Repr + rr;
    var turned := RotateLeft(left);
    assert ValidAt(right) && ReprAt(right) == rr;
    SetChildren(node, turned, right);
  }

  /** Turns the right child to the right, for the double rotation. */
  method TurnRightChild<V>(node: AvlNode<V>)
    requires node.Valid() && node.right != null
    modifies node.Repr
    ensures node.Valid() && node.Repr <= old(node.Repr)
    ensures node.Shape() == Spec.Node(old(node.key), old(node.value), old(node.depth), old(node.weight),
                                      old(ShapeAt(node.left)), Spec.RotateRight(old(node.right.Shape())))
  {
    var left, right := node.left, node.right;
    ghost var lr := ReprAt(left);
    assert ValidAt(left) && right.Repr !! lr && node !in right.Repr + lr;
    var turned := RotateRight(right);
    assert ValidAt(left) && ReprAt(left) == lr;
    SetChildren(node, left, turned);
  }

  /** `fixLeft` */
  method FixLeft<V>(node: AvlNode<V>) returns (root: AvlNode<V>)
    requires node.Valid()
    modifies node.Repr
    ensures root.Valid() && root.Repr <= old(node.Repr)
    ensures root.Shape() == Spec.FixLeft(old(node.Shape()))
  {
    if node.left == null {
      return node;
    }
    var l := node.left;
    var rd, ld := if l.right == null then 0 else l.right.depth, if l.left == null then 0 else l.left.depth;
    assert Spec.DepthOf(l.Shape().right) == rd && Spec.DepthOf(l.Shape().left) == ld;
    if rd > ld {
      TurnLeftChild(node);
    }
    root := RotateRight(node);
  }

  /** `fixRight` */
  method FixRight<V>(node: AvlNode<V>) returns (root: AvlNode<V>)
    requires node.Valid()
    modifies node.Repr
    ensures root.Valid() && root.Repr <= old(node.Repr)
    ensures root.Shape() == Spec.FixRight(old(node.Shape()))
  {
    if node.right == null {
      return node;
    }
    var r := node.right;
    var ld, rd := if r.left == null then 0 else r.left.depth, if r.right == null then 0 else r.right.depth;
    assert Spec.DepthOf(r.Shape().right) == rd && Spec.DepthOf(r.Shape().left) == ld;
    if ld > rd {
      TurnRightChild(node);
    }
    root := RotateLeft(node);
  }

  /** `fix` */
  method Fix<V>(node: AvlNode<V>) returns (root: AvlNode<V>)
    requires node.Valid()
    modifies node.Repr
    ensures root.Valid() && root.Repr <= old(node.Repr)
    ensures root.Shape() == Spec.Fix(old(node.key), old(node.value), old(ShapeAt(node.left)), old(ShapeAt(node.right)))
  {
    UpdateNode(node);
    var ld, rd := if node.left == null then 0 else node.left.depth, if node.right == null then 0 else node.right.depth;
    if ld > rd + 1 {
      root := FixLeft(node);
    } else if rd > ld + 1 {
      root := FixRight(node);
    } else {
      root := node;
    }
  }

  /** Stores the children a recursive call gave back, then `fix`. */
  method Rejoin<V>(node: AvlNode<V>, l: AvlNode?<V>, r: AvlNode?<V>) returns (root: AvlNode<V>)
    requires ValidAt(l) && ValidAt(r) && ReprAt(l) !! ReprAt(r)
    requires node !in ReprAt(l) && node !in ReprAt(r)
    modifies {node} + ReprAt(l) + ReprAt(r)
    ensures root.Valid() && root.Repr <= {node} + old(ReprAt(l)) + old(ReprAt(r))
    ensures root.Shape() == Spec.Fix(old(node.key), old(node.value), old(ShapeAt(l)), old(ShapeAt(r)))
  {
    SetChildren(node, l, r);
    root := Fix(node);
  }

  // ---- insertion, removal ----

  /** `insert` */
  method Insert<V>(node: AvlNode?<V>, key: Key, value: V) returns (root: AvlNode<V>)
    requires ValidAt(node)
    modifies ReprAt(node)
    ensures root.Valid() && fresh(root.Repr - old(ReprAt(node)))
    ensures root.Shape() == Spec.Insert(old(ShapeAt(node)), key, value)
    decreases ReprAt(node)
  {
    if node == null {
      root := new AvlNode(key, value);
      return;
    }
    var left, right := node.left, node.right;
    ghost var lr, rr := ReprAt(left), ReprAt(right);
    assert ValidAt(left) && ValidAt(right) && lr !! rr;
    if Less(key, node.key) {
      var l := Insert(left, key, value);
      assert ValidAt(right) && ReprAt(right) == rr;
      root := Rejoin(node, l, right);
    } else if Less(node.key, key) {
      var r := Insert(right, key, value);
      assert ValidAt(left) && ReprAt(left) == lr;
      root := Rejoin(node, left, r);
    } else {
      root := node;
    }
  }

  /** The loop of `remove` that walks to the successor. */
  method LeftMost<V>(node: AvlNode<V>) returns (least: AvlNode<V>)
    requires node.Valid()
    ensures least in node.Repr && (least.key, least.value) == Spec.Least(node.Shape())
  {
    least := node;
    while least.left != null
      invariant least.Valid() && least in node.Repr && least.Repr <= node.Repr
      invariant Spec.Least(least.Shape()) == Spec.Least(node.Shape())
      decreases least.Repr
    {
      least := least.left;
    }
  }

  /** `remove` */
  method Remove<V>(node: AvlNode?<V>, key: Key) returns (root: AvlNode?<V>)
    requires ValidAt(node)
    modifies ReprAt(node)
    ensures ValidAt(root) && ReprAt(root) <= old(ReprAt(node))
    ensures ShapeAt(root) == Spec.Remove(old(ShapeAt(node)), key)
    decreases ReprAt(node), 2
  {
    if node == null {
      return null;
    }
    var left, right := node.left, node.right;
    ghost var lr, rr := ReprAt(left), ReprAt(right);
    assert ValidAt(left) && ValidAt(right) && lr !! rr;
    if Less(key, node.key) {
      var l := Remove(left, key);
      assert ValidAt(right) && ReprAt(right) == rr;
      root := Rejoin(node, l, right);
    } else if Less(node.key, key) {
      var r := Remove(right, key);
      assert ValidAt(left) && ReprAt(left) == lr;
      root := Rejoin(node, left, r);
    } else {
      root := RemoveHere(node, key);
    }
  }

  /** The branch of `remove` that found its key. */
  method RemoveHere<V>(node: AvlNode<V>, key: Key) returns (root: AvlNode?<V>)
    requires node.Valid() && !Less(key, node.key) && !Less(node.key, key)
    modifies node.Repr
    ensures ValidAt(root) && ReprAt(root) <= old(node.Repr)
    ensures ShapeAt(root) == Spec.Remove(old(node.Shape()), key)
    decreases node.Repr, 1
  {
    if node.left == null {
      root := node.right;
    } else if node.right == null {
      root := node.left;
    } else {
      root := ReplaceBySuccessor(node);
    }
  }

  /** A node with two children takes the key and value of its successor, which is removed below. */
  method ReplaceBySuccessor<V>(node: AvlNode<V>) returns (root: AvlNode<V>)
    requires node.Valid() && node.left != null && node.right != null
    modifies node.Repr
    ensures root.Valid() && root.Repr <= old(node.Repr)
    ensures var (s, u) := Spec.Least(old(node.right.Shape()));
            root.Shape() == Spec.Fix(s, u, old(node.left.Shape()), Spec.Remove(old(node.right.Shape()), s))
    decreases node.Repr, 0
  {
    var left, right := node.left, node.right;
    ghost var lr, rr := left.Repr, right.Repr;
    assert left.Valid() && right.Valid() && lr !! rr && node !in lr + rr;
    TakeSuccessor(node, left, right);
    var r := Remove(right, node.key);
    assert left.Valid() && left.Repr == lr && ReprAt(r) <= rr;
    root := Rejoin(node, left, r);
  }

  method TakeSuccessor<V>(node: AvlNode<V>, left: AvlNode<V>, right: AvlNode<V>)
    requires left.Valid() && right.Valid() && node !in left.Repr && node !in right.Repr
    modifies node`key, node`value
    ensures left.Valid() && right.Valid() && (node.key, node.value) == Spec.Least(right.Shape())
    ensures left.Shape() == old(left.Shape()) && right.Shape() == old(right.Shape())
  {
    var successor := LeftMost(right);
    node.key, node.value := successor.key, successor.value;
  }

  // ---- search and assignment ----

  /** The node that a search for `key` from `n` ends at. */
  ghost function Locate<V>(n: AvlNode?<V>, key: Key): (x: AvlNode?<V>)
    requires ValidAt(n)
    reads n, if n == null then {} else n.Repr
    ensures x != null ==> n != null && x in n.Repr && x.key == key
    decreases ReprAt(n)
  {
    if n == null || n.key == key then n
    else if Less(key, n.key) then Locate(n.left, key)
    else Locate(n.right, key)
  }

  lemma {:induction false} LocateFinds<V>(n: AvlNode?<V>, key: Key)
    requires ValidAt(n)
    ensures Spec.Find(ShapeAt(n), key) == if Locate(n, key) == null then None else Some(Locate(n, key).value)
    decreases ReprAt(n)
  {
    if n != null && n.key != key {
      if Less(key, n.key) {
        LocateFinds(n.left, key);
      } else {
        LocateFinds(n.right, key);
      }
    }
  }

  /** `search` */
  method Search<V>(root: AvlNode?<V>, key: Key) returns (node: AvlNode?<V>, ghost visited: nat)
    requires ValidAt(root)
    ensures node == Locate(root, key) && visited == Spec.Steps(ShapeAt(root), key)
    ensures Spec.Balanced(ShapeAt(root)) ==> Spec.Pow2(visited / 2) <= Spec.Count(ShapeAt(root)) + 1
  {
    node, visited := root, 0;
    if Spec.Balanced(ShapeAt(root)) {
      Spec.SearchIsLogarithmic(ShapeAt(root), key);
    }
    while node != null
      invariant ValidAt(node) && Locate(node, key) == Locate(root, key)
      invariant visited + Spec.Steps(ShapeAt(node), key) == Spec.Steps(ShapeAt(root), key)
      decreases ReprAt(node)
    {
      visited := visited + 1;
      if key == node.key {
        return;
      }
      node := if Less(key, node.key) then node.left else node.right;
    }
  }

  /** Writes the value of the node `x` that the search found; the walk from `n` down to it is there
      for the proof that nothing else of the tree moves. */
  method WriteValue<V>(n: AvlNode<V>, x: AvlNode<V>, key: Key, value: V)
    requires n.Valid() && x == Locate(n, key)
    modifies x`value
    ensures n.Valid() && n.Repr == old(n.Repr) && n.Shape() == Spec.Assign(old(n.Shape()), key, value)
    decreases n.Repr
  {
    if n.key == key {
      x.value := value;
    } else if Less(key, n.key) {
      WriteValue(n.left, x, key, value);
    } else {
      WriteValue(n.right, x, key, value);
    }
  }

  /** The body of `set` below the root pointer. */
  method Put<V>(root: AvlNode?<V>, key: Key, value: V) returns (node: AvlNode<V>)
    requires ValidAt(root)
    modifies ReprAt(root)
    ensures node.Valid() && fresh(node.Repr - old(ReprAt(root)))
    ensures node.Shape() == Spec.Set(old(ShapeAt(root)), key, value)
  {
    LocateFinds(root, key);
    var existing, visited := Search(root, key);
    if existing != null {
      WriteValue(root, existing, key, value);
      return root;
    }
    node := Insert(root, key, value);
  }

  // ---- the tree ----

  class Avl<V> {
    var root: AvlNode?<V>
    ghost var Repr: set<object>

    ghost predicate Valid()
      reads this, Repr
    {
      && this in Repr
      && (root != null ==> root in Repr && root.Repr <= Repr && this !in root.Repr && root.Valid())
      && Spec.Avl(ShapeAt(root))
    }

    /** The finite map the tree stands for. */
    ghost function Contents(): (m: map<Key, V>)
      requires Valid()
      reads this, Repr
    {
      Spec.Contents(ShapeAt(root))
    }

    constructor ()
      ensures Valid() && fresh(Repr) && Contents() == map[]
    {
      root := null;
      Repr := {this};
    }

    /** `set` */
    method Set(key: Key, value: V)
      requires Valid()
      modifies Repr
      ensures Valid() && fresh(Repr - old(Repr)) && Contents() == old(Contents())[key := value]
    {
      Spec.SetCorrect(ShapeAt(root), key, value);
      var node := Put(root, key, value);
      root := node;
      Repr := {this} + node.Repr;
    }

    /** `get` */
    method Get(key: Key) returns (found: Option<V>)
      requires Valid()
      ensures found == if key in Contents() then Some(Contents()[key]) else None
    {
      Spec.FindCorrect(ShapeAt(root), key);
      LocateFinds(root, key);
      var node, visited := Search(root, key);
      found := if node == null then None else Some(node.value);
    }

    /** `exists` */
    method Exists(key: Key) returns (found: bool)
      requires Valid()
      ensures found <==> key in Contents()
    {
      var value := Get(key);
      found := value.Some?;
    }

    /** `del` */
    method Del(key: Key)
      requires Valid()
      modifies Repr
      ensures Valid() && Repr <= old(Repr) && Contents() == old(Contents()) - {key}
    {
      Spec.DelCorrect(ShapeAt(root), key);
      if root == null {
        assert Contents() == Contents() - {key};
        return;
      }
      root := Remove(root, key);
      Repr := {this} + ReprAt(root);
    }
  }

  // ---- runs ----

  datatype Op<V> = SetOp(key: Key, value: V) | DelOp(key: Key) | GetOp(key: Key)

  function Next<V>(m: map<Key, V>, op: Op<V>): (r: map<Key, V>)
  {
    match op
    case SetOp(key, value) => m[key := value]
    case DelOp(key) => m - {key}
    case GetOp(_) => m
  }

  /** What the map answers; only reading answers something. */
  function Reply<V>(m: map<Key, V>, op: Op<V>): (r: Option<V>)
  {
    if op.GetOp? && op.key in m then Some(m[op.key]) else None
  }

  function MapAfter<V>(m: map<Key, V>, ops: seq<Op<V>>): (r: map<Key, V>)
    decreases |ops|
  {
    if ops == [] then m else MapAfter(Next(m, ops[0]), ops[1..])
  }

  function Answers<V>(m: map<Key, V>, ops: seq<Op<V>>): (r: seq<Option<V>>)
    decreases |ops|
  {
    if ops == [] then [] else [Reply(m, ops[0])] + Answers(Next(m, ops[0]), ops[1..])
  }

  method RunOne<V>(t: Avl<V>, op: Op<V>) returns (answer: Option<V>)
    requires t.Valid()
    modifies t.Repr
    ensures t.Valid() && fresh(t.Repr - old(t.Repr))
    ensures t.Contents() == Next(old(t.Contents()), op) && answer == Reply(old(t.Contents()), op)
  {
    answer := None;
    match op
    case SetOp(key, value) => t.Set(key, value);
    case DelOp(key) => t.Del(key);
    case GetOp(key) => answer := t.Get(key);
  }

  /** Over every run of set, del and get the tree stays an AVL tree, ends with the finite map and answers
      as it does. */
  method Replay<V>(t: Avl<V>, ops: seq<Op<V>>) returns (answers: seq<Option<V>>)
    requires t.Valid()
    modifies t.Repr
    ensures t.Valid() && fresh(t.Repr - old(t.Repr)) && Spec.Avl(ShapeAt(t.root))
    ensures t.Contents() == MapAfter(old(t.Contents()), ops) && answers == Answers(old(t.Contents()), ops)
    decreases |ops|
  {
    if ops == [] {
      return [];
    }
    var answer := RunOne(t, ops[0]);
    var rest := Replay(t, ops[1..]);
    answers := [answer] + rest;
  }
}
