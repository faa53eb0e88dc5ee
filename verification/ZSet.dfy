/**
 The sorted set: a hash from names to nodes, a tree from names to scores, and the list that owns the
 nodes.  All three hold the same names with the same scores after every operation.
 */
module ZSet {
  import opened Basics
  import opened Keys
  import opened HashMap
  import opened HashRefinement
  import opened AvlTree

  /** A member and its score. */
  class ZNode {
    const name: Key
    var score: real

    constructor (name: Key, score: real)
      ensures this.name == name && this.score == score
    {
      this.name, this.score := name, score;
    }
  }

  // ---- the hash seen as a map from names to members ----

  /** Whether the hash is in order and stands for `index`.  A verdict, unlike a predicate, is carried
      over unchanged parts of the heap as a whole. */
  ghost function HashVerdict(hash: HMap<Key, ZNode>, index: map<Key, ZNode>): (v: Verdict)
    reads hash, hash.Repr
  {
    if forall x {:trigger Unfold(x)} :: Unfold(x) ==> hash.Valid() && Represents(hash.Pairs(), index) then Holds else Fails
  }

  ghost predicate Hashed(hash: HMap<Key, ZNode>, index: map<Key, ZNode>)
    reads hash, hash.Repr
  {
    hash in hash.Repr && HashVerdict(hash, index).Holds?
  }

  method HashFind(hash: HMap<Key, ZNode>, name: Key, ghost index: map<Key, ZNode>) returns (node: ZNode?)
    requires Hashed(hash, index)
    modifies hash.Repr
    ensures Hashed(hash, index) && hash.Repr == old(hash.Repr)
    ensures node == if name in index then index[name] else null
  {
    assert Unfold(0);
    var found := hash.Find(name);
    FindRefines(hash.Pairs(), index, name, found);
    node := if found.Some? then found.value else null;
  }

  method HashInsert(hash: HMap<Key, ZNode>, node: ZNode, ghost index: map<Key, ZNode>)
    requires Hashed(hash, index) && node.name !in index
    modifies hash.Repr
    ensures Hashed(hash, index[node.name := node]) && fresh(hash.Repr - old(hash.Repr))
  {
    assert Unfold(0);
    InsertRefines(hash.Pairs(), index, node.name, node);
    hash.Insert(node.name, node);
  }

  method HashRemove(hash: HMap<Key, ZNode>, name: Key, ghost index: map<Key, ZNode>)
    requires Hashed(hash, index)
    modifies hash.Repr
    ensures Hashed(hash, index - {name}) && hash.Repr == old(hash.Repr)
  {
    assert Unfold(0);
    ghost var before := hash.Pairs();
    var removed := hash.Remove(name);
    RemoveRefines(before, index, name, removed, hash.Pairs());
  }

  // ---- the tree seen as a map from names to scores ----

  ghost function TreeVerdict(tree: Avl<real>, scores: map<Key, real>): (v: Verdict)
    reads tree, tree.Repr
  {
    if forall x {:trigger Unfold(x)} :: Unfold(x) ==> tree.Valid() && tree.Contents() == scores then Holds else Fails
  }

  ghost predicate Scored(tree: Avl<real>, scores: map<Key, real>)
    reads tree, tree.Repr
  {
    tree in tree.Repr && TreeVerdict(tree, scores).Holds?
  }

  /** `update_score` deletes and sets again. */
  method TreeRescore(tree: Avl<real>, name: Key, score: real, ghost scores: map<Key, real>)
    requires Scored(tree, scores)
    modifies tree.Repr
    ensures Scored(tree, scores[name := score]) && fresh(tree.Repr - old(tree.Repr))
  {
    TreeDel(tree, name, scores);
    TreeSet(tree, name, score, scores - {name});
    assert (scores - {name})[name := score] == scores[name := score];
  }

  method TreeSet(tree: Avl<real>, name: Key, score: real, ghost scores: map<Key, real>)
    requires Scored(tree, scores)
    modifies tree.Repr
    ensures Scored(tree, scores[name := score]) && fresh(tree.Repr - old(tree.Repr))
  {
    assert Unfold(0);
    tree.Set(name, score);
  }

  method TreeDel(tree: Avl<real>, name: Key, ghost scores: map<Key, real>)
    requires Scored(tree, scores)
    modifies tree.Repr
    ensures Scored(tree, scores - {name}) && tree.Repr <= old(tree.Repr)
  {
    assert Unfold(0);
    tree.Del(name);
  }

  // ---- the set ----

  /** The scores of the indexed members. */
  ghost function ScoresOf(index: map<Key, ZNode>): (m: map<Key, real>)
    reads index.Values
  {
    map k | k in index :: index[k].score
  }

  /** The list holds the indexed members, each once, under non-empty names. */
  ghost predicate Listed(nodes: seq<ZNode>, index: map<Key, ZNode>)
  {
    ListVerdict(nodes, index).Holds?
  }

  ghost function ListVerdict(nodes: seq<ZNode>, index: map<Key, ZNode>): (v: Verdict)
  {
    if forall x {:trigger Unfold(x)} :: Unfold(x) ==> HoldsEach(nodes, index) then Holds else Fails
  }

  ghost predicate HoldsEach(nodes: seq<ZNode>, index: map<Key, ZNode>)
  {
    && (forall k :: k in index ==> k != "" && index[k].name == k && index[k] in nodes)
    && (forall n :: n in nodes ==> n.name in index && index[n.name] == n)
    && (forall i, j :: 0 <= i < j < |nodes| ==> nodes[i] != nodes[j])
  }

  lemma MemberIndexed(nodes: seq<ZNode>, index: map<Key, ZNode>, node: ZNode)
    requires Listed(nodes, index) && node in nodes
    ensures node.name in index && index[node.name] == node
  {
    assert Unfold(0);
  }

  lemma IndexedMember(nodes: seq<ZNode>, index: map<Key, ZNode>, name: Key)
    requires Listed(nodes, index) && name in index
    ensures name != "" && index[name].name == name && index[name] in nodes
  {
    assert Unfold(0);
  }

  lemma OwnNames(nodes: seq<ZNode>, index: map<Key, ZNode>)
    requires Listed(nodes, index)
    ensures "" !in index && forall k :: k in index ==> index[k].name == k
  {
    assert Unfold(0);
  }

  /** A tree stands for one map only. */
  lemma ScoredOnce(tree: Avl<real>, a: map<Key, real>, b: map<Key, real>)
    requires Scored(tree, a) && Scored(tree, b)
    ensures a == b
  {
    assert Unfold(0);
  }

  /** The tree agrees with the members after one name was rescored in the tree only, if and only if the
      member has that score. */
  lemma StaleExactly(tree: Avl<real>, index: map<Key, ZNode>, name: Key, score: real)
    requires name in index && Scored(tree, ScoresOf(index)[name := score])
    ensures Scored(tree, ScoresOf(index)) <==> index[name].score == score
  {
    var scores := ScoresOf(index);
    if scores[name] == score {
      assert scores[name := score] == scores;
    } else if Scored(tree, scores) {
      ScoredOnce(tree, scores, scores[name := score]);
    }
  }

  lemma ListedWith(nodes: seq<ZNode>, index: map<Key, ZNode>, node: ZNode)
    requires Listed(nodes, index) && node.name != "" && node.name !in index
    ensures Listed(nodes + [node], index[node.name := node])
  {
    assert Unfold(0);
  }

  lemma ScoresWith(index: map<Key, ZNode>, node: ZNode)
    ensures ScoresOf(index[node.name := node]) == ScoresOf(index)[node.name := node.score]
  {
  }

  lemma ScoresWithout(index: map<Key, ZNode>, name: Key)
    ensures ScoresOf(index - {name}) == ScoresOf(index) - {name}
  {
  }

  method NewTree() returns (tree: Avl<real>)
    ensures Scored(tree, map[]) && fresh(tree.Repr)
  {
    tree := new Avl();
  }

  method NewHash(hashFn: Key -> nat) returns (hash: HMap<Key, ZNode>)
    ensures Hashed(hash, map[]) && fresh(hash.Repr)
  {
    hash := new HMap(hashFn);
  }

  method NewParts(hashFn: Key -> nat) returns (tree: Avl<real>, hash: HMap<Key, ZNode>)
    ensures Scored(tree, map[]) && Hashed(hash, map[]) && tree.Repr !! hash.Repr
    ensures fresh(tree.Repr) && fresh(hash.Repr)
  {
    tree := NewTree();
    hash := NewHash(hashFn);
  }

  lemma FewerMembers(index: map<Key, ZNode>, name: Key)
    ensures (index - {name}).Values <= index.Values
  {
  }

  lemma NoScores()
    ensures ScoresOf(map[]) == map[] && Listed([], map[])
  {
    assert Unfold(0);
  }

  /** A new member goes into the hash and the tree. */
  method EnterIndexes(hash: HMap<Key, ZNode>, tree: Avl<real>, node: ZNode, ghost index: map<Key, ZNode>, ghost scores: map<Key, real>)
    requires Hashed(hash, index) && Scored(tree, scores) && tree.Repr !! hash.Repr && node.name !in index
    requires node !in tree.Repr && node !in hash.Repr
    modifies tree.Repr, hash.Repr
    ensures Hashed(hash, index[node.name := node]) && Scored(tree, scores[node.name := node.score])
    ensures tree.Repr !! hash.Repr && fresh(hash.Repr - old(hash.Repr)) && fresh(tree.Repr - old(tree.Repr))
  {
    HashInsert(hash, node, index);
    TreeSet(tree, node.name, node.score, scores);
  }

  /** A name leaves the hash and the tree. */
  method LeaveIndexes(hash: HMap<Key, ZNode>, tree: Avl<real>, name: Key, ghost index: map<Key, ZNode>, ghost scores: map<Key, real>)
    requires Hashed(hash, index) && Scored(tree, scores) && tree.Repr !! hash.Repr
    modifies tree.Repr, hash.Repr
    ensures Hashed(hash, index - {name}) && Scored(tree, scores - {name})
    ensures hash.Repr == old(hash.Repr) && tree.Repr <= old(tree.Repr)
  {
    HashRemove(hash, name, index);
    TreeDel(tree, name, scores);
  }

  /** The list without a member. */
  method Erase(nodes: seq<ZNode>, ghost index: map<Key, ZNode>, node: ZNode) returns (rest: seq<ZNode>)
    requires Listed(nodes, index) && node in nodes
    ensures Listed(rest, index - {node.name})
  {
    assert Unfold(0);
    rest := [];
    var i := 0;
    while i < |nodes|
      invariant 0 <= i <= |nodes|
      invariant forall n :: n in rest <==> n in nodes[..i] && n != node
      invariant forall a, b :: 0 <= a < b < |rest| ==> rest[a] != rest[b]
    {
      assert nodes[i] !in nodes[..i];
      if nodes[i] != node {
        rest := rest + [nodes[i]];
      }
      i := i + 1;
    }
    assert nodes[..i] == nodes;
  }

  class ZSet {
    const tree: Avl<real>
    const hash: HMap<Key, ZNode>
    var nodes: seq<ZNode>
    /** The member that each name stands for. */
    ghost var index: map<Key, ZNode>

    /** The parts share no object with each other or with the members. */
    ghost predicate Apart(index: map<Key, ZNode>)
      reads tree, hash
    {
      && this !in tree.Repr && this !in hash.Repr && tree.Repr !! hash.Repr
      && (forall n :: n in index.Values ==> n !in tree.Repr && n !in hash.Repr)
    }

    ghost predicate Valid()
      reads this, tree, tree.Repr, hash, hash.Repr, index.Values
    {
      Apart(index) && Listed(nodes, index) && Hashed(hash, index) && Scored(tree, ScoresOf(index))
    }

    /** The abstract value: a finite map from names to scores. */
    ghost function Scores(): (m: map<Key, real>)
      reads this, index.Values
    {
      ScoresOf(index)
    }

    constructor (hashFn: Key -> nat)
      ensures Valid() && index == map[] && Scores() == map[]
      ensures fresh(tree.Repr) && fresh(hash.Repr)
    {
      var t, h := NewParts(hashFn);
      NoScores();
      tree, hash := t, h;
      nodes := [];
      index := map[];
    }

    /** `lookup` */
    method Lookup(name: Key) returns (node: ZNode?)
      requires Valid()
      modifies hash.Repr
      ensures Valid() && hash.Repr == old(hash.Repr) && Scores() == old(Scores())
      ensures node == if name in index then index[name] else null
    {
      node := HashFind(hash, name, index);
    }

    /** The tree and the node get the new score; the node may only be a namesake of the member. */
    method Rescore(node: ZNode, score: real)
      requires Valid() && node.name in index && node !in tree.Repr && node !in hash.Repr
      modifies tree.Repr, node
      ensures Apart(index) && Hashed(hash, index) && Scored(tree, old(Scores())[node.name := score])
      ensures Scores() == if index[node.name] == node then old(Scores())[node.name := score] else old(Scores())
      ensures fresh(tree.Repr - old(tree.Repr)) && node.score == score
    {
      TreeRescore(tree, node.name, score, Scores());
      WriteScore(node, score);
    }

    method WriteScore(node: ZNode, score: real)
      requires Listed(nodes, index) && node.name in index
      modifies node`score
      ensures node.score == score
      ensures Scores() == if index[node.name] == node then old(Scores())[node.name := score] else old(Scores())
    {
      OwnNames(nodes, index);
      node.score := score;
    }

    /** A node that carries a member's name without being that member. */
    ghost predicate Foreign(node: ZNode?)
      reads this
    {
      node != null && node.name in index && index[node.name] != node
    }

    /**
     `update_score`.  True exactly when the name is a member's.  The three indexes still agree
     afterwards, except when a foreign node is passed with a score that its namesake does not have:
     the tree then holds a score that the member does not.
     */
    method UpdateScore(node: ZNode?, score: real) returns (updated: bool)
      requires Valid() && (node != null ==> node !in tree.Repr && node !in hash.Repr)
      modifies tree.Repr, hash.Repr, node
      ensures nodes == old(nodes) && index == old(index)
      ensures updated <==> node != null && node.name in index
      ensures Valid() <==> !(Foreign(node) && index[node.name].score != score)
      ensures Scores() == if updated && !Foreign(node) then old(Scores())[node.name := score] else old(Scores())
      ensures updated ==> node.score == score && Scored(tree, old(Scores())[node.name := score])
      ensures hash.Repr == old(hash.Repr) && fresh(tree.Repr - old(tree.Repr))
    {
      OwnNames(nodes, index);
      if node == null || node.name == "" {
        return false;
      }
      var found := Lookup(node.name);
      if found == null {
        return false;
      }
      Rescore(node, score);
      if Foreign(node) {
        StaleExactly(tree, index, node.name, score);
      }
      updated := true;
    }

    /** The list is replaced, after hash and tree. */
    method Relist(list: seq<ZNode>, ghost members: map<Key, ZNode>)
      requires Apart(members) && Listed(list, members) && Hashed(hash, members) && Scored(tree, ScoresOf(members))
      modifies this`nodes, this`index
      ensures Valid() && nodes == list && index == members && Scores() == old(ScoresOf(members))
    {
      ghost var scores := ScoresOf(members);
      ghost var inHash, inTree := HashVerdict(hash, members), TreeVerdict(tree, scores);
      nodes := list;
      index := members;
      assert ScoresOf(members) == scores;
      assert HashVerdict(hash, members) == inHash && TreeVerdict(tree, scores) == inTree;
    }

    /** The new member goes into the hash, the tree and the list. */
    method Enter(node: ZNode)
      requires Valid() && node.name != "" && node.name !in index
      requires node !in tree.Repr && node !in hash.Repr
      modifies this, tree.Repr, hash.Repr
      ensures Valid() && Scores() == old(Scores())[node.name := node.score]
      ensures index == old(index)[node.name := node]
      ensures fresh(hash.Repr - old(hash.Repr)) && fresh(tree.Repr - old(tree.Repr))
    {
      ghost var scores := Scores();
      ListedWith(nodes, index, node);
      EnterIndexes(hash, tree, node, index, scores);
      ScoresWith(index, node);
      Relist(nodes + [node], index[node.name := node]);
    }

    /** `add_internal`: true exactly for a new, non-empty name; an existing one gets the score. */
    method Add(name: Key, score: real) returns (added: bool)
      requires Valid()
      modifies this, tree.Repr, hash.Repr, index.Values
      ensures Valid() && added == (name !in old(Scores()) && name != "")
      ensures Scores() == if name == "" then old(Scores()) else old(Scores())[name := score]
      ensures fresh(hash.Repr - old(hash.Repr)) && fresh(tree.Repr - old(tree.Repr))
      ensures fresh(index.Values - old(index.Values))
    {
      var existing := Lookup(name);
      if existing != null {
        IndexedMember(nodes, index, name);
        var _ := UpdateScore(existing, score);
        return false;
      }
      var node := new ZNode(name, score);
      if node.name == "" {
        return false;
      }
      Enter(node);
      added := true;
    }

    /** `remove_internal` */
    method Remove(name: Key) returns (removed: bool)
      requires Valid()
      modifies this, tree.Repr, hash.Repr
      ensures Valid() && removed == (name in old(Scores())) && Scores() == old(Scores()) - {name}
      ensures hash.Repr == old(hash.Repr) && tree.Repr <= old(tree.Repr) && index.Values <= old(index.Values)
    {
      var node := Lookup(name);
      if node == null {
        assert Scores() == Scores() - {name};
        return false;
      }
      IndexedMember(nodes, index, name);
      Leave(node);
      removed := true;
    }

    /** The hash and the tree let go of a member. */
    method Forget(node: ZNode) returns (ghost members: map<Key, ZNode>)
      requires Valid() && node in nodes
      modifies tree.Repr, hash.Repr
      ensures members == index - {node.name} && members.Values <= index.Values
      ensures ScoresOf(members) == old(Scores()) - {node.name}
      ensures Apart(members) && Hashed(hash, members) && Scored(tree, ScoresOf(members))
      ensures hash.Repr == old(hash.Repr) && tree.Repr <= old(tree.Repr)
    {
      MemberIndexed(nodes, index, node);
      FewerMembers(index, node.name);
      ghost var scores := Scores();
      members := index - {node.name};
      LeaveIndexes(hash, tree, node.name, index, scores);
      ScoresWithout(index, node.name);
    }

    method Leave(node: ZNode)
      requires Valid() && node in nodes
      modifies this, tree.Repr, hash.Repr
      ensures Valid() && Scores() == old(Scores()) - {node.name} && index.Values <= old(index.Values)
      ensures hash.Repr == old(hash.Repr) && tree.Repr <= old(tree.Repr)
    {
      var rest := Erase(nodes, index, node);
      ghost var members := Forget(node);
      Relist(rest, members);
    }
  }

  // ---- runs ----

  datatype Op = AddOp(name: Key, score: real) | UpdateOp(name: Key, score: real) | RemoveOp(name: Key)

  /** What an operation does to the map of scores; updates go to the member that `lookup` finds. */
  function Next(m: map<Key, real>, op: Op): (r: map<Key, real>)
  {
    match op
    case AddOp(name, score) => if name == "" then m else m[name := score]
    case UpdateOp(name, score) => if name in m then m[name := score] else m
    case RemoveOp(name) => m - {name}
  }

  function Reply(m: map<Key, real>, op: Op): (r: bool)
  {
    match op
    case AddOp(name, _) => name != "" && name !in m
    case UpdateOp(name, _) => name in m
    case RemoveOp(name) => name in m
  }

  function MapAfter(m: map<Key, real>, ops: seq<Op>): (r: map<Key, real>)
    decreases |ops|
  {
    if ops == [] then m else MapAfter(Next(m, ops[0]), ops[1..])
  }

  function Answers(m: map<Key, real>, ops: seq<Op>): (r: seq<bool>)
    decreases |ops|
  {
    if ops == [] then [] else [Reply(m, ops[0])] + Answers(Next(m, ops[0]), ops[1..])
  }

  method RunOne(z: ZSet, op: Op) returns (answer: bool)
    requires z.Valid()
    modifies z, z.tree.Repr, z.hash.Repr, z.index.Values
    ensures z.Valid() && z.Scores() == Next(old(z.Scores()), op) && answer == Reply(old(z.Scores()), op)
    ensures fresh(z.tree.Repr - old(z.tree.Repr)) && fresh(z.hash.Repr - old(z.hash.Repr))
    ensures fresh(z.index.Values - old(z.index.Values))
  {
    match op
    case AddOp(name, score) =>
      answer := z.Add(name, score);
    case UpdateOp(name, score) =>
      answer := UpdateByName(z, name, score);
    case RemoveOp(name) =>
      answer := z.Remove(name);
  }

  method UpdateByName(z: ZSet, name: Key, score: real) returns (answer: bool)
    requires z.Valid()
    modifies z, z.tree.Repr, z.hash.Repr, z.index.Values
    ensures z.Valid() && z.Scores() == Next(old(z.Scores()), UpdateOp(name, score))
    ensures answer == (name in old(z.Scores())) && z.index == old(z.index)
    ensures fresh(z.tree.Repr - old(z.tree.Repr)) && z.hash.Repr == old(z.hash.Repr)
  {
    var node := z.Lookup(name);
    if node != null {
      IndexedMember(z.nodes, z.index, name);
    }
    answer := z.UpdateScore(node, score);
  }

  /** Every run of additions, updates and removals answers as the finite map does, and ends with it. */
  method Replay(z: ZSet, ops: seq<Op>) returns (answers: seq<bool>)
    requires z.Valid()
    modifies z, z.tree.Repr, z.hash.Repr, z.index.Values
    ensures z.Valid() && z.Scores() == MapAfter(old(z.Scores()), ops) && answers == Answers(old(z.Scores()), ops)
    ensures fresh(z.tree.Repr - old(z.tree.Repr)) && fresh(z.hash.Repr - old(z.hash.Repr))
    ensures fresh(z.index.Values - old(z.index.Values))
    decreases |ops|
  {
    if ops == [] {
      return [];
    }
    var answer := RunOne(z, ops[0]);
    var rest := Replay(z, ops[1..]);
    answers := [answer] + rest;
  }

  lemma ScoredMeans(tree: Avl<real>, scores: map<Key, real>)
    requires Scored(tree, scores)
    ensures tree.Valid() && tree.Contents() == scores
  {
    assert Unfold(0);
  }

  method OneMember(hashFn: Key -> nat) returns (z: ZSet)
    ensures fresh(z) && fresh(z.tree.Repr) && fresh(z.hash.Repr) && z.Valid() && z.Scores() == map["a" := 1.0]
  {
    z := new ZSet(hashFn);
    var added := z.Add("a", 1.0);
  }

  /** Updating through a namesake made for the purpose. */
  method UpdateByForeign(z: ZSet, name: Key, score: real)
    requires z.Valid() && name in z.index
    modifies z.tree.Repr, z.hash.Repr
    ensures z.index == old(z.index) && z.Scores() == old(z.Scores()) && (z.Valid() <==> z.index[name].score == score)
    ensures Scored(z.tree, old(z.Scores())[name := score])
  {
    var foreign := new ZNode(name, score);
    assert z.index[name] != foreign;
    var updated := z.UpdateScore(foreign, score);
  }

  /** The input on which the indexes stop agreeing: a node made outside the set, with a member's name
      and another score.  The tree then holds that score and the member its old one. */
  method StaleMember(hashFn: Key -> nat) returns (z: ZSet)
    ensures !z.Valid() && z.Scores() == map["a" := 1.0]
    ensures z.tree.Valid() && z.tree.Contents() == map["a" := 2.0]
  {
    z := OneMember(hashFn);
    assert z.Scores()["a"] == 1.0;
    UpdateByForeign(z, "a", 2.0);
    assert z.Scores()["a"] == 1.0;
    assert map["a" := 1.0]["a" := 2.0] == map["a" := 2.0];
    ScoredMeans(z.tree, map["a" := 2.0]);
  }
}
