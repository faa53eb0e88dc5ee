/**
 On runs that insert only absent keys, the rehashing map behaves as a finite map at every stage of
 a migration.  (A key inserted twice is held twice; only the multiset statement applies then.)
 */
module HashRefinement {
  import opened Basics
  import opened HashTable
  import opened HashMap

  /** The multiset holds exactly the pairs of the map, once each. */
  ghost predicate Represents<K, V>(m: multiset<Pair<K, V>>, mp: map<K, V>) {
    && (forall p :: p in m ==> p.0 in mp && mp[p.0] == p.1 && m[p] == 1)
    && (forall k :: k in mp ==> (k, mp[k]) in m)
  }

  function Get<K(==), V>(mp: map<K, V>, k: K): (r: Option<V>)
  {
    if k in mp then Some(mp[k]) else None
  }

  /** Inserting refines the update of a finite map exactly when the key is absent: a key that is
      present ends up in the table twice. */
  lemma InsertRefines<K, V>(m: multiset<Pair<K, V>>, mp: map<K, V>, k: K, v: V)
    requires Represents(m, mp)
    ensures Represents(m + multiset{(k, v)}, mp[k := v]) <==> k !in mp
  {
    var m', mp' := m + multiset{(k, v)}, mp[k := v];
    if k in mp {
      assert (k, mp[k]) in m';
      assert m'[(k, v)] == m[(k, v)] + 1;
    } else {
      forall p | p in m'
        ensures p.0 in mp' && mp'[p.0] == p.1 && m'[p] == 1
      {
        if p == (k, v) {
          assert p !in m;
        } else {
          assert p in m && m'[p] == m[p];
        }
      }
      assert forall x :: x in mp' ==> (x, mp'[x]) in m';
    }
  }

  lemma FindRefines<K, V>(m: multiset<Pair<K, V>>, mp: map<K, V>, k: K, found: Option<V>)
    requires Represents(m, mp)
    requires found.None? ==> NoKey(m, k)
    requires found.Some? ==> (k, found.value) in m
    ensures found == Get(mp, k)
  {
    if k in mp {
      assert (k, mp[k]) in m;
    }
  }

  lemma RemoveRefines<K, V>(m: multiset<Pair<K, V>>, mp: map<K, V>, k: K, removed: Option<V>, m': multiset<Pair<K, V>>)
    requires Represents(m, mp) && RemovedOne(m, k, removed, m')
    ensures removed == Get(mp, k) && Represents(m', mp - {k})
  {
    FindRefines(m, mp, k, removed);
    forall p | p in m'
      ensures p.0 != k && m'[p] == 1 && p in m
    {
    }
    forall x | x in mp - {k}
      ensures (x, mp[x]) in m'
    {
      assert (x, mp[x]) in m;
    }
  }

  /** The number of pairs is the number of keys. */
  lemma {:induction false} SizeRefines<K, V>(m: multiset<Pair<K, V>>, mp: map<K, V>)
    requires Represents(m, mp)
    ensures |m| == |mp|
    decreases |mp|
  {
    if mp == map[] {
      assert m == multiset{};
    } else {
      var k :| k in mp;
      assert (k, mp[k]) in m;
      var m' := m - multiset{(k, mp[k])};
      RemoveRefines(m, mp, k, Some(mp[k]), m');
      assert |mp - {k}| == |mp| - 1 by {
        assert (mp - {k}).Keys == mp.Keys - {k};
      }
      SizeRefines(m', mp - {k});
    }
  }

  // ---- whole runs ----

  datatype Op<K, V> = InsertOp(key: K, value: V) | FindOp(key: K) | RemoveOp(key: K)

  function Next<K(==), V>(mp: map<K, V>, op: Op<K, V>): (r: map<K, V>)
  {
    match op
    case InsertOp(k, v) => mp[k := v]
    case FindOp(_) => mp
    case RemoveOp(k) => mp - {k}
  }

  /** The finite map after a run. */
  function MapAfter<K(==), V>(ops: seq<Op<K, V>>): (mp: map<K, V>)
  {
    if ops == [] then map[] else Next(MapAfter(ops[..|ops| - 1]), ops[|ops| - 1])
  }

  /** Every insertion of the run is of a key that is absent at that point. */
  ghost predicate InsertsAbsent<K, V>(ops: seq<Op<K, V>>) {
    ops == []
    || (var before, last := ops[..|ops| - 1], ops[|ops| - 1];
        InsertsAbsent(before) && (last.InsertOp? ==> last.key !in MapAfter(before)))
  }

  /** What the finite map answers to an operation. */
  function Reply<K(==), V>(mp: map<K, V>, op: Op<K, V>): (r: Option<V>)
  {
    if op.InsertOp? then None else Get(mp, op.key)
  }

  /** The answers of the finite map along a run. */
  function Answers<K(==), V>(ops: seq<Op<K, V>>): (r: seq<Option<V>>)
  {
    if ops == [] then []
    else
      var before := ops[..|ops| - 1];
      Answers(before) + [Reply(MapAfter(before), ops[|ops| - 1])]
  }

  /** Running the operations on the rehashing map gives the answers and the contents of the finite
      map. */
  method Replay<K(==), V>(m: HMap<K, V>, ops: seq<Op<K, V>>) returns (answers: seq<Option<V>>)
    requires InsertsAbsent(ops) && m.Valid() && m.Pairs() == multiset{}
    modifies m.Repr
    ensures m.Valid() && fresh(m.Repr - old(m.Repr))
    ensures Represents(m.Pairs(), MapAfter(ops)) && answers == Answers(ops)
    decreases |ops|
  {
    if |ops| == 0 {
      return [];
    }
    var before := ops[..|ops| - 1];
    answers := Replay(m, before);
    var answer := RunOne(m, ops[|ops| - 1], MapAfter(before));
    answers := answers + [answer];
  }

  method RunOne<K(==), V>(m: HMap<K, V>, op: Op<K, V>, ghost mp: map<K, V>) returns (answer: Option<V>)
    requires m.Valid() && Represents(m.Pairs(), mp) && (op.InsertOp? ==> op.key !in mp)
    modifies m.Repr
    ensures m.Valid() && fresh(m.Repr - old(m.Repr))
    ensures answer == Reply(mp, op) && Represents(m.Pairs(), Next(mp, op))
  {
    answer := None;
    match op {
      case InsertOp(k, v) =>
        InsertRefines(m.Pairs(), mp, k, v);
        m.Insert(k, v);
      case FindOp(k) =>
        answer := m.Find(k);
        FindRefines(m.Pairs(), mp, k, answer);
      case RemoveOp(k) =>
        ghost var before := m.Pairs();
        answer := m.Remove(k);
        RemoveRefines(before, mp, k, answer, m.Pairs());
    }
  }
}
