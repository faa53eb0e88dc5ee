/**
 `HMap`: a map over two hash tables that migrates nodes from the old table to a new one of twice
 the capacity, at most fifteen per operation.  The work done per operation is enough: a migration
 always ends before the new table fills up.
 */
module HashMap {
  import opened Basics
  import opened HashTable

  /** While a migration is pending, `p` nodes in the new table and `t` nodes in the old table of
      capacity `c` satisfy this; each node moved lowers the left side by one, each insertion raises it
      by fifteen. */
  ghost predicate WithinBudget(p: nat, t: nat, c: nat) {
    15 * p + 16 * t <= 128 * c
  }

  /** An insertion followed by the migration of fifteen nodes stays within the budget. */
  lemma InsertPaid(p: nat, t: nat, c: nat)
    requires WithinBudget(p, t, c) && MAX_WORK < t
    ensures WithinBudget(p + 1 + MAX_WORK, t - MAX_WORK, c)
  {
  }

  /** A migration that ends leaves the new table, of capacity `2 * c`, within its load. */
  lemma MigrationEndsInTime(p: nat, t: nat, c: nat)
    requires WithinBudget(p, t, c) && 0 < c
    ensures p + 1 + t <= MAX_LOAD * (2 * c) && p < MAX_LOAD * (2 * c)
  {
  }

  class HMap<K(==), V> {
    const hash: K -> nat
    var primary: HTable<K, V>
    var temporary: HTable?<K, V>
    var resizingPos: nat
    /** The objects the map consists of. */
    ghost var Repr: set<object>

    /** The tables, their placement, and the cursor below which the old table is empty. */
    ghost predicate Shape()
      reads this, Repr
    {
      && {this, primary} <= Repr && primary.Valid() && primary.hash == hash
      && (temporary != null ==>
            && temporary in Repr && temporary != primary && temporary.Valid() && temporary.hash == hash
            && |temporary.buckets| > 0 && |primary.buckets| == 2 * |temporary.buckets|
            && resizingPos < |temporary.buckets|
            && (forall i :: 0 <= i < resizingPos ==> temporary.buckets[i] == []))
      && (temporary == null ==> resizingPos == 0)
    }

    ghost predicate Valid()
      reads this, Repr
    {
      && Shape()
      && (temporary != null ==>
            0 < primary.size && WithinBudget(primary.size, temporary.size, |temporary.buckets|))
      && (temporary == null && |primary.buckets| > 0 ==> primary.size <= MAX_LOAD * |primary.buckets|)
    }

    /** All pairs held, in either table. */
    ghost function Pairs(): (m: multiset<Pair<K, V>>)
      requires Shape()
      reads this, Repr
    {
      primary.Pairs() + if temporary == null then multiset{} else temporary.Pairs()
    }

    /** How many nodes still have to be migrated. */
    ghost function Left(): (n: nat)
      reads this, temporary
    {
      if temporary == null then 0 else temporary.size
    }

    constructor (hash: K -> nat)
      ensures Valid() && Left() == 0 && Pairs() == multiset{} && fresh(Repr) && this.hash == hash
    {
      this.hash := hash;
      primary := new HTable<K, V>.Unallocated(hash);
      temporary := null;
      resizingPos := 0;
      Repr := {this, primary};
    }

    /** `size` */
    method Size() returns (n: nat)
      requires Valid()
      ensures n == |Pairs()|
    {
      n := primary.size + if temporary == null then 0 else temporary.size;
    }

    /** One turn of the migration loop. */
    method MoveOne()
      requires Shape() && temporary != null && 0 < temporary.size
      modifies this`resizingPos, primary, temporary
      ensures Shape() && Pairs() == old(Pairs())
      ensures primary.size == old(primary.size) + 1 && temporary.size == old(temporary.size) - 1
      ensures |temporary.buckets| == old(|temporary.buckets|) && |primary.buckets| == old(|primary.buckets|)
    {
      var node, at := temporary.StealFirstNode(resizingPos);
      primary.Insert(node.value.0, node.value.1);
      // `steal_first_node` found a node, so its position is within the table and the source's
      // retry and reset branches are not taken.
      resizingPos := at;
    }

    /** `help_resize` moves min(15, nodes left) nodes and drops the old table when it is empty. */
    method HelpResize()
      requires Shape()
      modifies this, primary, temporary
      ensures Shape() && primary == old(primary) && Repr == old(Repr) && Pairs() == old(Pairs())
      ensures |primary.buckets| == old(|primary.buckets|) && Left() == Max(0, old(Left()) - MAX_WORK)
      ensures old(temporary) == null ==> temporary == null && primary.size == old(primary.size)
      ensures old(temporary) != null ==>
                var t := old(temporary.size);
                var moved := if t < MAX_WORK then t else MAX_WORK;
                && primary.size == old(primary.size) + moved
                && (temporary == null <==> t <= MAX_WORK)
                && (temporary != null ==>
                      temporary == old(temporary) && temporary.size == t - moved
                      && |temporary.buckets| == old(|temporary.buckets|))
    {
      if temporary == null {
        return;
      }
      var work := 0;
      ghost var p0, t0 := primary.size, temporary.size;
      while work < MAX_WORK && temporary.size != 0
        invariant 0 <= work <= MAX_WORK && temporary == old(temporary) && primary == old(primary) && Repr == old(Repr)
        invariant temporary != null && Shape() && Pairs() == old(Pairs())
        invariant |temporary.buckets| == old(|temporary.buckets|) && |primary.buckets| == old(|primary.buckets|)
        invariant primary.size == p0 + work && temporary.size == t0 - work
        decreases temporary.size
      {
        MoveOne();
        work := work + 1;
      }
      if temporary.size == 0 {
        assert temporary.Pairs() == multiset{};
        temporary := null;
        resizingPos := 0;
      }
    }

    /** `start_resize`; its assertion is the first precondition. */
    method StartResize()
      requires temporary == null && Shape() && 0 < |primary.buckets|
      modifies this
      ensures Shape() && Pairs() == old(Pairs())
      ensures temporary == old(primary) && fresh(Repr - old(Repr)) && primary.size == 0
    {
      var capacity := (primary.mask + 1) * 2;
      temporary := primary;
      primary := new HTable<K, V>(hash, capacity);
      resizingPos := 0;
      Repr := Repr + {primary};
    }

    /** The head of `insert`: an empty table is replaced by a small one, and a full one starts a
        migration.  `start_resize` is never reached while a migration is pending. */
    method MakeRoom()
      requires Valid()
      modifies this, primary, temporary
      ensures Shape() && Pairs() == old(Pairs()) && fresh(Repr - old(Repr))
      ensures 0 < |primary.buckets|
      ensures temporary == null ==> primary.size < MAX_LOAD * |primary.buckets|
      ensures temporary != null ==> WithinBudget(primary.size, temporary.size, |temporary.buckets|)
      ensures temporary != null <==>
                old(temporary) != null || (0 < old(primary.size) && MAX_LOAD * old(|primary.buckets|) <= old(primary.size))
      ensures old(temporary) != null ==> temporary == old(temporary) && primary == old(primary)
      ensures Left() == if old(temporary) != null || temporary == null then old(Left()) else old(primary.size)
      ensures temporary == null && 0 < old(primary.size) ==> primary == old(primary)
    {
      if primary.size == 0 {
        primary := new HTable<K, V>(hash, MIN_CAPACITY);
        Repr := Repr + {primary};
      }
      if MAX_LOAD * (primary.mask + 1) <= primary.size {
        StartResize();
      }
    }

    method PushPrimary(key: K, value: V)
      requires Shape() && 0 < |primary.buckets|
      modifies primary
      ensures Shape() && Pairs() == old(Pairs()) + multiset{(key, value)}
      ensures primary.size == old(primary.size) + 1 && |primary.buckets| == old(|primary.buckets|) && Left() == old(Left())
    {
      primary.Insert(key, value);
    }

    /** `help_resize` after an insertion brings the map back within its budget. */
    method Settle()
      requires Shape() && 0 < |primary.buckets| && 0 < primary.size
      requires temporary == null ==> primary.size <= MAX_LOAD * |primary.buckets|
      requires temporary != null ==> WithinBudget(primary.size - 1, temporary.size, |temporary.buckets|)
      modifies Repr
      ensures Valid() && Pairs() == old(Pairs()) && Repr == old(Repr) && Left() == Max(0, old(Left()) - MAX_WORK)
    {
      if temporary != null {
        MigrationEndsInTime(primary.size - 1, temporary.size, |temporary.buckets|);
        if MAX_WORK < temporary.size {
          InsertPaid(primary.size - 1, temporary.size, |temporary.buckets|);
        }
      }
      HelpResize();
    }

    /** `insert` */
    method Insert(key: K, value: V)
      requires Valid()
      modifies Repr
      ensures Valid() && Pairs() == old(Pairs()) + multiset{(key, value)}
      ensures fresh(Repr - old(Repr))
      ensures var starts := old(temporary) == null && 0 < old(primary.size) && MAX_LOAD * old(|primary.buckets|) <= old(primary.size);
              Left() == Max(0, (if starts then old(primary.size) else old(Left())) - MAX_WORK)
    {
      MakeRoom();
      PushPrimary(key, value);
      Settle();
    }

    /** `help_resize` between operations. */
    method Migrate()
      requires Valid()
      modifies Repr
      ensures Valid() && Pairs() == old(Pairs()) && Repr == old(Repr) && Left() == Max(0, old(Left()) - MAX_WORK)
      ensures primary == old(primary) && (temporary != null ==> 0 < temporary.size && 1 < primary.size)
    {
      if temporary != null {
        MigrationEndsInTime(primary.size, temporary.size, |temporary.buckets|);
      }
      HelpResize();
    }

    /** `find` */
    method Find(key: K) returns (found: Option<V>)
      requires Valid()
      modifies Repr
      ensures Valid() && Pairs() == old(Pairs()) && Repr == old(Repr) && Left() == Max(0, old(Left()) - MAX_WORK)
      ensures found.None? ==> NoKey(Pairs(), key)
      ensures found.Some? ==> (key, found.value) in Pairs()
    {
      Migrate();
      found := primary.Lookup(key);
      if found.None? && temporary != null {
        found := temporary.Lookup(key);
      }
    }

    /** `remove` */
    method Remove(key: K) returns (removed: Option<V>)
      requires Valid()
      modifies Repr
      ensures Valid() && Repr == old(Repr) && Left() <= Max(0, old(Left()) - MAX_WORK)
      ensures RemovedOne(old(Pairs()), key, removed, Pairs())
    {
      Migrate();
      removed := RemoveEither(key);
    }

    method RemoveEither(key: K) returns (removed: Option<V>)
      requires Valid() && (temporary != null ==> 1 < primary.size)
      modifies primary, temporary
      ensures Valid() && RemovedOne(old(Pairs()), key, removed, Pairs()) && Left() <= old(Left())
    {
      removed := RemovePrimary(key);
      if removed.None? && temporary != null {
        removed := RemoveTemporary(key);
      }
    }

    method RemovePrimary(key: K) returns (removed: Option<V>)
      requires Valid() && (temporary != null ==> 1 < primary.size)
      modifies primary
      ensures Valid() && Left() == old(Left())
      ensures removed.None? ==> NoKey(old(primary.Pairs()), key) && Pairs() == old(Pairs()) && primary.Pairs() == old(primary.Pairs())
      ensures removed.Some? ==> RemovedOne(old(Pairs()), key, removed, Pairs())
    {
      ghost var p := primary.Pairs();
      removed := primary.Remove(key);
      if removed.Some? {
        RemoveLeft(p, if temporary == null then multiset{} else temporary.Pairs(), (key, removed.value));
      }
    }

    method RemoveTemporary(key: K) returns (removed: Option<V>)
      requires Valid() && temporary != null && NoKey(primary.Pairs(), key)
      modifies temporary
      ensures Valid() && RemovedOne(old(Pairs()), key, removed, Pairs()) && Left() <= old(Left())
    {
      ghost var t := temporary.Pairs();
      removed := temporary.Remove(key);
      if removed.Some? {
        RemoveLeft(t, primary.Pairs(), (key, removed.value));
      }
    }
  }

  /** One pair with the key is gone, if there was any. */
  ghost predicate RemovedOne<K, V>(before: multiset<Pair<K, V>>, key: K, removed: Option<V>, after: multiset<Pair<K, V>>) {
    match removed
    case None => NoKey(before, key) && after == before
    case Some(v) => (key, v) in before && after == before - multiset{(key, v)}
  }

  lemma RemoveLeft<T>(a: multiset<T>, b: multiset<T>, x: T)
    requires x in a
    ensures (a - multiset{x}) + b == (a + b) - multiset{x} && b + (a - multiset{x}) == (b + a) - multiset{x}
  {
  }
}
