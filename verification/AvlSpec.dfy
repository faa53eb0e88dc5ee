/**
 The AVL tree as a value: every node stores its depth and weight.  The rebalancing functions have the
 source's branches; the lemmas say that they keep order, balance, stored fields and contents, and
 that insertion and removal act on the contents as on a finite map.
 */
module AvlSpec {
  import opened Basics
  import opened Keys

  datatype Tree<V> = Leaf | Node(key: Key, value: V, depth: nat, weight: nat, left: Tree<V>, right: Tree<V>)

  // ---- meaning ----

  ghost function Contents<V>(t: Tree<V>): (m: map<Key, V>)
  {
    match t
    case Leaf => map[]
    case Node(k, v, _, _, l, r) => (Contents(l) + Contents(r))[k := v]
  }

  ghost predicate Ordered<V>(t: Tree<V>) {
    t.Node? ==>
      && Ordered(t.left) && Ordered(t.right)
      && AllBelow(Contents(t.left).Keys, t.key) && AllAbove(Contents(t.right).Keys, t.key)
  }

  ghost function Height<V>(t: Tree<V>): (h: nat)
  {
    if t.Leaf? then 0 else 1 + if Height(t.left) < Height(t.right) then Height(t.right) else Height(t.left)
  }

  ghost function Count<V>(t: Tree<V>): (n: nat)
  {
    if t.Leaf? then 0 else 1 + Count(t.left) + Count(t.right)
  }

  /** Stored depth and weight are exact and sibling depths differ by at most one, everywhere. */
  ghost predicate Balanced<V>(t: Tree<V>) {
    t.Node? ==>
      && Balanced(t.left) && Balanced(t.right)
      && t.depth == Height(t) && t.weight == Count(t)
      && Height(t.left) <= Height(t.right) + 1 && Height(t.right) <= Height(t.left) + 1
  }

  ghost predicate Avl<V>(t: Tree<V>) {
    Ordered(t) && Balanced(t)
  }

  // ---- the operations ----

  /** `getDepth` */
  function DepthOf<V>(t: Tree<V>): (d: nat)
  {
    if t.Leaf? then 0 else t.depth
  }

  /** `getWeight` */
  function WeightOf<V>(t: Tree<V>): (w: nat)
  {
    if t.Leaf? then 0 else t.weight
  }

  /** `updateNode`, applied to a node with these fields. */
  function Make<V>(k: Key, v: V, l: Tree<V>, r: Tree<V>): (t: Tree<V>)
  {
    Node(k, v, 1 + Max(DepthOf(l), DepthOf(r)), 1 + WeightOf(l) + WeightOf(r), l, r)
  }

  /** `rotateLeft` */
  function RotateLeft<V>(t: Tree<V>): (r: Tree<V>)
  {
    if t.Leaf? || t.right.Leaf? then t
    else Make(t.right.key, t.right.value, Make(t.key, t.value, t.left, t.right.left), t.right.right)
  }

  /** `rotateRight` */
  function RotateRight<V>(t: Tree<V>): (r: Tree<V>)
  {
    if t.Leaf? || t.left.Leaf? then t
    else Make(t.left.key, t.left.value, t.left.left, Make(t.key, t.value, t.left.right, t.right))
  }

  /** `fixLeft` */
  function FixLeft<V>(t: Tree<V>): (r: Tree<V>)
  {
    if t.Leaf? || t.left.Leaf? then t
    else if DepthOf(t.left.right) > DepthOf(t.left.left)
    then RotateRight(t.(left := RotateLeft(t.left)))
    else RotateRight(t)
  }

  /** `fixRight` */
  function FixRight<V>(t: Tree<V>): (r: Tree<V>)
  {
    if t.Leaf? || t.right.Leaf? then t
    else if DepthOf(t.right.left) > DepthOf(t.right.right)
    then RotateLeft(t.(right := RotateRight(t.right)))
    else RotateLeft(t)
  }

  /** `fix`, applied to a node with these fields. */
  function Fix<V>(k: Key, v: V, l: Tree<V>, r: Tree<V>): (t: Tree<V>)
  {
    var u := Make(k, v, l, r);
    if DepthOf(l) > DepthOf(r) + 1 then FixLeft(u)
    else if DepthOf(r) > DepthOf(l) + 1 then FixRight(u)
    else u
  }

  /** `insert` (of a key that may be present, which is then left alone) */
  function Insert<V>(t: Tree<V>, k: Key, v: V): (r: Tree<V>)
  {
    match t
    case Leaf => Node(k, v, 1, 1, Leaf, Leaf)
    case Node(x, w, _, _, l, r) =>
      if Less(k, x) then Fix(x, w, Insert(l, k, v), r)
      else if Less(x, k) then Fix(x, w, l, Insert(r, k, v))
      else t
  }

  /** The leftmost node, which the deletion of a two-child node looks up. */
  function Least<V>(t: Tree<V>): (p: (Key, V))
    requires t.Node?
  {
    if t.left.Leaf? then (t.key, t.value) else Least(t.left)
  }

  /** `remove` */
  function Remove<V>(t: Tree<V>, k: Key): (r: Tree<V>)
    decreases t
  {
    match t
    case Leaf => Leaf
    case Node(x, w, _, _, l, r) =>
      if Less(k, x) then Fix(x, w, Remove(l, k), r)
      else if Less(x, k) then Fix(x, w, l, Remove(r, k))
      else if l.Leaf? then r
      else if r.Leaf? then l
      else var (s, u) := Least(r); Fix(s, u, l, Remove(r, s))
  }

  /** `search`, giving the value found. */
  function Find<V>(t: Tree<V>, k: Key): (r: Option<V>)
  {
    match t
    case Leaf => None
    case Node(x, w, _, _, l, r) =>
      if k == x then Some(w) else if Less(k, x) then Find(l, k) else Find(r, k)
  }

  /** The assignment of a present key, done in place by `set`. */
  function Assign<V>(t: Tree<V>, k: Key, v: V): (r: Tree<V>)
  {
    match t
    case Leaf => Leaf
    case Node(x, w, d, n, l, r) =>
      if k == x then Node(x, v, d, n, l, r)
      else if Less(k, x) then Node(x, w, d, n, Assign(l, k, v), r)
      else Node(x, w, d, n, l, Assign(r, k, v))
  }

  /** `set` */
  function Set<V>(t: Tree<V>, k: Key, v: V): (r: Tree<V>)
  {
    if Find(t, k).Some? then Assign(t, k, v) else Insert(t, k, v)
  }

  // ---- building blocks ----

  lemma BalancedFields<V>(t: Tree<V>)
    requires Balanced(t)
    ensures DepthOf(t) == Height(t) && WeightOf(t) == Count(t)
  {
  }

  lemma MakeFields<V>(k: Key, v: V, l: Tree<V>, r: Tree<V>)
    requires Balanced(l) && Balanced(r)
    ensures var t := Make(k, v, l, r); t.depth == Height(t) && t.weight == Count(t)
    ensures Height(l) <= Height(r) + 1 && Height(r) <= Height(l) + 1 ==> Balanced(Make(k, v, l, r))
  {
  }

  lemma RegroupLeft<V>(a: map<Key, V>, b: map<Key, V>, c: map<Key, V>, x: Key, vx: V, y: Key, vy: V)
    requires x != y && x !in c
    ensures ((a + b)[x := vx] + c)[y := vy] == (a + (b + c)[y := vy])[x := vx]
  {
  }

  lemma RegroupRight<V>(a: map<Key, V>, b: map<Key, V>, c: map<Key, V>, x: Key, vx: V, y: Key, vy: V)
    requires x != y && y !in c
    ensures (a + (b + c)[x := vx])[y := vy] == ((a + b)[y := vy] + c)[x := vx]
  {
  }

  /** Rotations keep contents and order. */
  lemma RotateLeftKeeps<V>(t: Tree<V>)
    requires Ordered(t)
    ensures Ordered(RotateLeft(t)) && Contents(RotateLeft(t)) == Contents(t)
  {
    if t.Node? && t.right.Node? {
      var a, b, c := Contents(t.left), Contents(t.right.left), Contents(t.right.right);
      var x, y := t.key, t.right.key;
      assert Contents(t.right) == (b + c)[y := t.right.value];
      BelowBelow(a.Keys, x, y);
      Trichotomy(x, y);
      DisjointKeys(c.Keys, y, x);
      RegroupLeft(a, b, c, x, t.value, y, t.right.value);
      assert AllBelow((a + b)[x := t.value].Keys, y);
    }
  }

  lemma DisjointKeys(s: set<Key>, hi: Key, lo: Key)
    requires AllAbove(s, hi) && Less(lo, hi)
    ensures lo !in s
  {
    if lo in s {
      Trichotomy(lo, hi);
    }
  }

  lemma RotateRightKeeps<V>(t: Tree<V>)
    requires Ordered(t)
    ensures Ordered(RotateRight(t)) && Contents(RotateRight(t)) == Contents(t)
  {
    if t.Node? && t.left.Node? {
      var a, b, c := Contents(t.left.left), Contents(t.left.right), Contents(t.right);
      var x, y := t.key, t.left.key;
      assert Contents(t.left) == (a + b)[y := t.left.value];
      AboveAbove(c.Keys, y, x);
      Trichotomy(y, x);
      SplitKeys(a.Keys, y, c.Keys);
      RegroupRight(a, b, c, x, t.value, y, t.left.value);
      assert AllAbove((b + c)[x := t.value].Keys, y);
    }
  }

  /** Keys below and keys above a key do not meet. */
  lemma SplitKeys(lo: set<Key>, k: Key, hi: set<Key>)
    requires AllBelow(lo, k) && AllAbove(hi, k)
    ensures lo !! hi && k !in lo && k !in hi
  {
    Trichotomy(k, k);
    forall x | x in lo
      ensures x !in hi
    {
      Trichotomy(x, k);
    }
  }

  lemma FixKeeps<V>(k: Key, v: V, l: Tree<V>, r: Tree<V>)
    requires Ordered(Make(k, v, l, r))
    ensures Ordered(Fix(k, v, l, r)) && Contents(Fix(k, v, l, r)) == Contents(Make(k, v, l, r))
  {
    var u := Make(k, v, l, r);
    if DepthOf(l) > DepthOf(r) + 1 && l.Node? {
      RotateLeftKeeps(l);
      var w := u.(left := RotateLeft(l));
      RotateRightKeeps(u);
      RotateRightKeeps(w);
    } else if DepthOf(r) > DepthOf(l) + 1 && r.Node? {
      RotateRightKeeps(r);
      var w := u.(right := RotateRight(r));
      RotateLeftKeeps(u);
      RotateLeftKeeps(w);
    }
  }

  // ---- balance ----

  /** `fix` restores balance when the depths of the subtrees differ by at most two, and the result is
      as deep as before, or one less. */
  lemma FixBalances<V>(k: Key, v: V, l: Tree<V>, r: Tree<V>)
    requires Balanced(l) && Balanced(r)
    requires Height(l) <= Height(r) + 2 && Height(r) <= Height(l) + 2
    ensures Balanced(Fix(k, v, l, r))
    ensures var m := Max(Height(l), Height(r)); m <= Height(Fix(k, v, l, r)) <= m + 1
    ensures Height(l) <= Height(r) + 1 && Height(r) <= Height(l) + 1 ==>
              Height(Fix(k, v, l, r)) == 1 + Max(Height(l), Height(r))
  {
    BalancedFields(l);
    BalancedFields(r);
    MakeFields(k, v, l, r);
    if Height(l) == Height(r) + 2 {
      FixLeftBalances(k, v, l, r);
    } else if Height(r) == Height(l) + 2 {
      FixRightBalances(k, v, l, r);
    }
  }

  lemma FixLeftBalances<V>(k: Key, v: V, l: Tree<V>, r: Tree<V>)
    requires Balanced(l) && Balanced(r) && Height(l) == Height(r) + 2
    ensures var t := FixLeft(Make(k, v, l, r)); Balanced(t) && Height(l) <= Height(t) <= Height(l) + 1
  {
    BalancedFields(l.left);
    BalancedFields(l.right);
    if DepthOf(l.right) > DepthOf(l.left) {
      DoubleLeft(k, v, l, r);
    } else {
      MakeFields(k, v, l.right, r);
      MakeFields(l.key, l.value, l.left, Make(k, v, l.right, r));
    }
  }

  lemma FixRightBalances<V>(k: Key, v: V, l: Tree<V>, r: Tree<V>)
    requires Balanced(l) && Balanced(r) && Height(r) == Height(l) + 2
    ensures var t := FixRight(Make(k, v, l, r)); Balanced(t) && Height(r) <= Height(t) <= Height(r) + 1
  {
    BalancedFields(r.left);
    BalancedFields(r.right);
    if DepthOf(r.left) > DepthOf(r.right) {
      DoubleRight(k, v, l, r);
    } else {
      MakeFields(k, v, l, r.left);
      MakeFields(r.key, r.value, Make(k, v, l, r.left), r.right);
    }
  }

  lemma DoubleRight<V>(k: Key, v: V, l: Tree<V>, r: Tree<V>)
    requires Balanced(l) && Balanced(r) && Height(r) == Height(l) + 2 && Height(r.left) > Height(r.right)
    ensures var t := FixRight(Make(k, v, l, r)); Balanced(t) && Height(r) == Height(t)
  {
    BalancedFields(r.left);
    BalancedFields(r.right);
    var b, c := r.left.left, r.left.right;
    DoubleRightShape(k, v, l, r);
    MakeFields(k, v, l, b);
    MakeFields(r.key, r.value, c, r.right);
    MakeFields(r.left.key, r.left.value, Make(k, v, l, b), Make(r.key, r.value, c, r.right));
  }

  lemma DoubleRightShape<V>(k: Key, v: V, l: Tree<V>, r: Tree<V>)
    requires r.Node? && r.left.Node? && DepthOf(r.left) > DepthOf(r.right)
    ensures var (b, c) := (r.left.left, r.left.right);
            FixRight(Make(k, v, l, r)) ==
            Make(r.left.key, r.left.value, Make(k, v, l, b), Make(r.key, r.value, c, r.right))
  {
  }

  lemma DoubleLeft<V>(k: Key, v: V, l: Tree<V>, r: Tree<V>)
    requires Balanced(l) && Balanced(r) && Height(l) == Height(r) + 2 && Height(l.right) > Height(l.left)
    ensures var t := FixLeft(Make(k, v, l, r)); Balanced(t) && Height(l) == Height(t)
  {
    BalancedFields(l.left);
    BalancedFields(l.right);
    var b, c := l.right.left, l.right.right;
    DoubleLeftShape(k, v, l, r);
    MakeFields(l.key, l.value, l.left, b);
    MakeFields(k, v, c, r);
    MakeFields(l.right.key, l.right.value, Make(l.key, l.value, l.left, b), Make(k, v, c, r));
  }

  lemma DoubleLeftShape<V>(k: Key, v: V, l: Tree<V>, r: Tree<V>)
    requires l.Node? && l.right.Node? && DepthOf(l.right) > DepthOf(l.left)
    ensures var (b, c) := (l.right.left, l.right.right);
            FixLeft(Make(k, v, l, r)) ==
            Make(l.right.key, l.right.value, Make(l.key, l.value, l.left, b), Make(k, v, c, r))
  {
  }

  // ---- maps of a node, its left part and its right part ----

  lemma PutLeft<V>(a: map<Key, V>, b: map<Key, V>, x: Key, w: V, k: Key, v: V)
    requires k != x && k !in b
    ensures (a[k := v] + b)[x := w] == (a + b)[x := w][k := v]
  {
  }

  lemma PutRight<V>(a: map<Key, V>, b: map<Key, V>, x: Key, w: V, k: Key, v: V)
    requires k != x
    ensures (a + b[k := v])[x := w] == (a + b)[x := w][k := v]
  {
  }

  lemma CutLeft<V>(a: map<Key, V>, b: map<Key, V>, x: Key, w: V, k: Key)
    requires k != x && k !in b
    ensures ((a - {k}) + b)[x := w] == (a + b)[x := w] - {k}
  {
  }

  lemma CutRight<V>(a: map<Key, V>, b: map<Key, V>, x: Key, w: V, k: Key)
    requires k != x && k !in a
    ensures (a + (b - {k}))[x := w] == (a + b)[x := w] - {k}
  {
  }

  /** The keys of a node's parts on either side of it, seen from a key `k`. */
  lemma Sides<V>(t: Tree<V>, k: Key)
    requires Ordered(t) && t.Node?
    ensures Less(k, t.key) || Less(t.key, k) || k == t.key
    ensures Less(k, t.key) ==> !Less(t.key, k) && k != t.key && k !in Contents(t.right)
    ensures Less(t.key, k) ==> k != t.key && k !in Contents(t.left)
    ensures k == t.key ==> k !in Contents(t.left) && k !in Contents(t.right) && !Less(k, t.key)
    ensures Contents(t.left).Keys !! Contents(t.right).Keys
  {
    Trichotomy(k, t.key);
    Trichotomy(t.key, t.key);
    SplitKeys(Contents(t.left).Keys, t.key, Contents(t.right).Keys);
    NotAmong(Contents(t.left).Keys, t.key, k);
    NotAmong(Contents(t.right).Keys, t.key, k);
  }

  // ---- the operations on the contents ----

  lemma {:induction false} FindCorrect<V>(t: Tree<V>, k: Key)
    requires Ordered(t)
    ensures Find(t, k) == if k in Contents(t) then Some(Contents(t)[k]) else None
  {
    if t.Node? {
      Trichotomy(k, t.key);
      FindCorrect(t.left, k);
      FindCorrect(t.right, k);
      NotAmong(Contents(t.left).Keys, t.key, k);
      NotAmong(Contents(t.right).Keys, t.key, k);
    }
  }

  lemma {:induction false} InsertBalances<V>(t: Tree<V>, k: Key, v: V)
    requires Balanced(t)
    ensures Balanced(Insert(t, k, v)) && Height(t) <= Height(Insert(t, k, v)) <= Height(t) + 1
  {
    if t.Node? {
      InsertBalances(t.left, k, v);
      InsertBalances(t.right, k, v);
      if Less(k, t.key) {
        FixBalances(t.key, t.value, Insert(t.left, k, v), t.right);
      } else if Less(t.key, k) {
        FixBalances(t.key, t.value, t.left, Insert(t.right, k, v));
      }
    }
  }

  /** Inserting an absent key adds exactly that pair, and keeps the order. */
  lemma {:induction false} InsertCorrect<V>(t: Tree<V>, k: Key, v: V)
    requires Ordered(t)
    ensures Ordered(Insert(t, k, v))
    ensures Contents(Insert(t, k, v)) == if k in Contents(t) then Contents(t) else Contents(t)[k := v]
  {
    if t.Node? {
      Sides(t, k);
      var a, b := Contents(t.left), Contents(t.right);
      if Less(k, t.key) {
        InsertCorrect(t.left, k, v);
        PutLeft(a, b, t.key, t.value, k, v);
        FixKeeps(t.key, t.value, Insert(t.left, k, v), t.right);
      } else if Less(t.key, k) {
        InsertCorrect(t.right, k, v);
        PutRight(a, b, t.key, t.value, k, v);
        FixKeeps(t.key, t.value, t.left, Insert(t.right, k, v));
      }
    }
  }

  /** The leftmost pair is in the tree and its key is the least. */
  lemma {:induction false} LeastCorrect<V>(t: Tree<V>)
    requires Ordered(t) && t.Node?
    ensures var (k, v) := Least(t); k in Contents(t) && Contents(t)[k] == v && AllAbove(Contents(t).Keys - {k}, k)
  {
    if t.left.Node? {
      LeastCorrect(t.left);
      var (k, v) := Least(t.left);
      assert Less(k, t.key);
      AboveAbove(Contents(t.right).Keys, k, t.key);
      SplitKeys(Contents(t.left).Keys, t.key, Contents(t.right).Keys);
    } else {
      Trichotomy(t.key, t.key);
      assert Contents(t).Keys - {t.key} <= Contents(t.right).Keys;
    }
  }

  lemma {:induction false} RemoveBalances<V>(t: Tree<V>, k: Key)
    requires Balanced(t)
    ensures Balanced(Remove(t, k)) && Height(t) <= Height(Remove(t, k)) + 1 && Height(Remove(t, k)) <= Height(t)
    decreases t
  {
    if t.Node? {
      var l, r := t.left, t.right;
      if Less(k, t.key) {
        RemoveBalances(l, k);
        FixBalances(t.key, t.value, Remove(l, k), r);
      } else if Less(t.key, k) {
        RemoveBalances(r, k);
        FixBalances(t.key, t.value, l, Remove(r, k));
      } else if l.Node? && r.Node? {
        var (s, u) := Least(r);
        RemoveBalances(r, s);
        FixBalances(s, u, l, Remove(r, s));
      }
    }
  }

  /** Removing a key takes exactly that key out, and keeps the order; a node with two children is
      replaced by its successor. */
  lemma {:induction false} RemoveCorrect<V>(t: Tree<V>, k: Key)
    requires Ordered(t)
    ensures Ordered(Remove(t, k)) && Contents(Remove(t, k)) == Contents(t) - {k}
    decreases t
  {
    if t.Node? {
      var l, r := t.left, t.right;
      Sides(t, k);
      if Less(k, t.key) {
        RemoveCorrect(l, k);
        RemoveOnLeft(t, k);
      } else if Less(t.key, k) {
        RemoveCorrect(r, k);
        RemoveOnRight(t, k);
      } else if l.Node? && r.Node? {
        RemoveRoot(t);
      } else {
        RemoveSingle(t);
      }
    }
  }

  lemma RemoveSingle<V>(t: Tree<V>)
    requires Ordered(t) && t.Node? && (t.left.Leaf? || t.right.Leaf?)
    ensures Ordered(Remove(t, t.key)) && Contents(Remove(t, t.key)) == Contents(t) - {t.key}
  {
    Sides(t, t.key);
  }

  lemma RemoveOnLeft<V>(t: Tree<V>, k: Key)
    requires Ordered(t) && t.Node? && Less(k, t.key)
    requires Ordered(Remove(t.left, k)) && Contents(Remove(t.left, k)) == Contents(t.left) - {k}
    ensures Ordered(Remove(t, k)) && Contents(Remove(t, k)) == Contents(t) - {k}
  {
    Sides(t, k);
    CutLeft(Contents(t.left), Contents(t.right), t.key, t.value, k);
    FixKeeps(t.key, t.value, Remove(t.left, k), t.right);
  }

  lemma RemoveOnRight<V>(t: Tree<V>, k: Key)
    requires Ordered(t) && t.Node? && Less(t.key, k)
    requires Ordered(Remove(t.right, k)) && Contents(Remove(t.right, k)) == Contents(t.right) - {k}
    ensures Ordered(Remove(t, k)) && Contents(Remove(t, k)) == Contents(t) - {k}
  {
    Sides(t, k);
    CutRight(Contents(t.left), Contents(t.right), t.key, t.value, k);
    FixKeeps(t.key, t.value, t.left, Remove(t.right, k));
  }

  lemma {:induction false} RemoveRoot<V>(t: Tree<V>)
    requires Ordered(t) && t.Node? && t.left.Node? && t.right.Node?
    ensures Ordered(Remove(t, t.key)) && Contents(Remove(t, t.key)) == Contents(t) - {t.key}
    decreases t, 0
  {
    var l, r := t.left, t.right;
    var (s, u) := Least(r);
    LeastCorrect(r);
    RemoveCorrect(r, s);
    Sides(t, t.key);
    BelowBelow(Contents(l).Keys, t.key, s);
    PromoteSuccessor(Contents(l), Contents(r), t.key, t.value, s, u);
    FixKeeps(s, u, l, Remove(r, s));
  }

  /** The successor takes the place of the removed key. */
  lemma PromoteSuccessor<V>(a: map<Key, V>, b: map<Key, V>, x: Key, w: V, s: Key, u: V)
    requires x !in a && x !in b && s in b && b[s] == u
    ensures (a + (b - {s}))[s := u] == (a + b)[x := w] - {x}
  {
  }

  lemma {:induction false} AssignCorrect<V>(t: Tree<V>, k: Key, v: V)
    requires Ordered(t) && k in Contents(t)
    ensures Ordered(Assign(t, k, v)) && Contents(Assign(t, k, v)) == Contents(t)[k := v]
  {
    Sides(t, k);
    var a, b := Contents(t.left), Contents(t.right);
    if Less(k, t.key) {
      AssignCorrect(t.left, k, v);
      PutLeft(a, b, t.key, t.value, k, v);
    } else if Less(t.key, k) {
      AssignCorrect(t.right, k, v);
      PutRight(a, b, t.key, t.value, k, v);
    }
  }

  lemma {:induction false} AssignBalances<V>(t: Tree<V>, k: Key, v: V)
    ensures Height(Assign(t, k, v)) == Height(t) && Count(Assign(t, k, v)) == Count(t)
    ensures Balanced(t) ==> Balanced(Assign(t, k, v))
  {
    if t.Node? && k != t.key {
      AssignBalances(t.left, k, v);
      AssignBalances(t.right, k, v);
    }
  }

  /** `set` updates the finite map and keeps the tree an AVL tree. */
  lemma SetCorrect<V>(t: Tree<V>, k: Key, v: V)
    requires Avl(t)
    ensures Avl(Set(t, k, v)) && Contents(Set(t, k, v)) == Contents(t)[k := v]
  {
    FindCorrect(t, k);
    if k in Contents(t) {
      AssignCorrect(t, k, v);
      AssignBalances(t, k, v);
    } else {
      InsertCorrect(t, k, v);
      InsertBalances(t, k, v);
    }
  }

  /** `del` removes from the finite map and keeps the tree an AVL tree. */
  lemma DelCorrect<V>(t: Tree<V>, k: Key)
    requires Avl(t)
    ensures Avl(Remove(t, k)) && Contents(Remove(t, k)) == Contents(t) - {k}
  {
    RemoveCorrect(t, k);
    RemoveBalances(t, k);
  }

  // ---- the height bound ----

  function Fib(n: nat): (f: nat)
  {
    if n < 2 then n else Fib(n - 1) + Fib(n - 2)
  }

  lemma {:induction false} FibMonotone(a: nat, b: nat)
    requires a <= b
    ensures Fib(a) <= Fib(b)
    decreases b
  {
    if a < b {
      if b == 1 {
        assert Fib(0) == 0 && Fib(1) == 1;
      } else {
        FibMonotone(a, b - 1);
      }
    }
  }

  /** A balanced tree of depth `d` holds at least Fib(d + 2) - 1 nodes. */
  lemma {:induction false} WeightBound<V>(t: Tree<V>)
    requires Balanced(t)
    ensures Fib(Height(t) + 2) <= Count(t) + 1
  {
    if t.Node? {
      WeightBound(t.left);
      WeightBound(t.right);
      var h := Height(t);
      FibMonotone(h, Height(t.left) + 2);
      FibMonotone(h, Height(t.right) + 2);
      assert Fib(h + 2) == Fib(h + 1) + Fib(h);
    } else {
      assert Fib(2) == Fib(1) + Fib(0);
    }
  }

  function Pow2(n: nat): (p: nat)
  {
    if n == 0 then 1 else 2 * Pow2(n - 1)
  }

  lemma {:induction false} FibGrows(n: nat)
    ensures Pow2(n) <= Fib(2 * n + 2)
  {
    if n == 0 {
      assert Fib(2) == Fib(1) + Fib(0);
    } else {
      FibGrows(n - 1);
      assert Fib(2 * n + 2) == Fib(2 * n + 1) + Fib(2 * n);
      FibMonotone(2 * n, 2 * n + 1);
      assert 2 * (n - 1) + 2 == 2 * n;
    }
  }

  /** How many nodes `search` visits. */
  function Steps<V>(t: Tree<V>, k: Key): (n: nat)
  {
    if t.Leaf? then 0
    else if k == t.key then 1
    else 1 + if Less(k, t.key) then Steps(t.left, k) else Steps(t.right, k)
  }

  lemma {:induction false} StepsWithinHeight<V>(t: Tree<V>, k: Key)
    ensures Steps(t, k) <= Height(t)
  {
    if t.Node? {
      StepsWithinHeight(t.left, k);
      StepsWithinHeight(t.right, k);
    }
  }

  lemma {:induction false} Pow2Monotone(a: nat, b: nat)
    requires a <= b
    ensures Pow2(a) <= Pow2(b)
    decreases b
  {
    if a < b {
      Pow2Monotone(a, b - 1);
    }
  }

  /** A search in a balanced tree visits logarithmically many nodes: two to the power of half the
      number visited does not exceed the number of nodes plus one. */
  lemma SearchIsLogarithmic<V>(t: Tree<V>, k: Key)
    requires Balanced(t)
    ensures Pow2(Steps(t, k) / 2) <= Count(t) + 1
  {
    StepsWithinHeight(t, k);
    WeightBound(t);
    var n := Height(t) / 2;
    FibGrows(n);
    FibMonotone(2 * n + 2, Height(t) + 2);
    Pow2Monotone(Steps(t, k) / 2, n);
  }
}
