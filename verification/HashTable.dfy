/**
 The chained hash table (`HTable`), and the constants that its growth goes by.  A chain is a sequence, head
 first.  The hash function is arbitrary; since every capacity is a power
 of two, masking the hash is taking its remainder.
 */
module HashTable {
  import opened Basics

  const MIN_CAPACITY := 4
  const MAX_LOAD := 8
  const MAX_WORK := 15

  type Pair<K, V> = (K, V)

  predicate IsPowerOfTwo(n: nat) {
    n == 1 || (n > 1 && n % 2 == 0 && IsPowerOfTwo(n / 2))
  }

  // ---- chains and buckets ----

  /** All pairs of all chains, with multiplicity. */
  ghost function AllPairs<K, V>(buckets: seq<seq<Pair<K, V>>>): (m: multiset<Pair<K, V>>)
  {
    if buckets == [] then multiset{} else multiset(buckets[0]) + AllPairs(buckets[1..])
  }

  /** Replacing one chain replaces its pairs. */
  lemma {:induction false} ReplaceChain<K, V>(buckets: seq<seq<Pair<K, V>>>, pos: nat, chain: seq<Pair<K, V>>)
    requires pos < |buckets|
    ensures multiset(buckets[pos]) <= AllPairs(buckets)
    ensures AllPairs(buckets[pos := chain]) == AllPairs(buckets) - multiset(buckets[pos]) + multiset(chain)
    decreases |buckets|
  {
    if pos == 0 {
      assert buckets[pos := chain][1..] == buckets[1..];
    } else {
      var rest := buckets[1..];
      ReplaceChain(rest, pos - 1, chain);
      var replaced := buckets[pos := chain];
      assert replaced[0] == buckets[0] && replaced[1..] == rest[pos - 1 := chain];
    }
  }

  /** A pair of the table lies in some chain. */
  lemma {:induction false} FindBucket<K, V>(buckets: seq<seq<Pair<K, V>>>, p: Pair<K, V>) returns (i: nat, j: nat)
    requires p in AllPairs(buckets)
    ensures i < |buckets| && j < |buckets[i]| && buckets[i][j] == p
    decreases |buckets|
  {
    if p in buckets[0] {
      i := 0;
      j :| 0 <= j < |buckets[0]| && buckets[0][j] == p;
    } else {
      i, j := FindBucket(buckets[1..], p);
      i := i + 1;
    }
  }

  lemma {:induction false} EmptyBuckets<K, V>(buckets: seq<seq<Pair<K, V>>>)
    requires forall i :: 0 <= i < |buckets| ==> buckets[i] == []
    ensures AllPairs(buckets) == multiset{}
    decreases |buckets|
  {
    if buckets != [] {
      EmptyBuckets(buckets[1..]);
    }
  }

  /** Every pair lies in the bucket its key hashes to. */
  ghost predicate Placed<K, V>(hash: K -> nat, buckets: seq<seq<Pair<K, V>>>) {
    forall i, j :: 0 <= i < |buckets| && 0 <= j < |buckets[i]| ==> hash(buckets[i][j].0) % |buckets| == i
  }

  /** No pair of `m` has the key `k`. */
  ghost predicate NoKey<K, V>(m: multiset<Pair<K, V>>, k: K) {
    forall p :: p in m ==> p.0 != k
  }

  /** A key missing from its chain is missing from the table. */
  lemma AbsentFromChain<K, V>(hash: K -> nat, buckets: seq<seq<Pair<K, V>>>, k: K)
    requires |buckets| > 0 && Placed(hash, buckets)
    requires forall j :: 0 <= j < |buckets[hash(k) % |buckets|]| ==> buckets[hash(k) % |buckets|][j].0 != k
    ensures NoKey(AllPairs(buckets), k)
  {
    forall p | p in AllPairs(buckets)
      ensures p.0 != k
    {
      var i, j := FindBucket(buckets, p);
    }
  }

  lemma PlacedReplace<K, V>(hash: K -> nat, buckets: seq<seq<Pair<K, V>>>, pos: nat, chain: seq<Pair<K, V>>)
    requires Placed(hash, buckets) && pos < |buckets|
    requires forall j :: 0 <= j < |chain| ==> hash(chain[j].0) % |buckets| == pos
    ensures Placed(hash, buckets[pos := chain])
  {
  }

  lemma PlacedPush<K, V>(hash: K -> nat, buckets: seq<seq<Pair<K, V>>>, pos: nat, p: Pair<K, V>)
    requires Placed(hash, buckets) && pos < |buckets| && pos == hash(p.0) % |buckets|
    ensures Placed(hash, buckets[pos := [p] + buckets[pos]])
  {
    PlacedReplace(hash, buckets, pos, [p] + buckets[pos]);
  }

  lemma PlacedUnlink<K, V>(hash: K -> nat, buckets: seq<seq<Pair<K, V>>>, pos: nat, j: nat)
    requires Placed(hash, buckets) && pos < |buckets| && j < |buckets[pos]|
    ensures Placed(hash, buckets[pos := buckets[pos][..j] + buckets[pos][j + 1..]])
  {
    var chain := buckets[pos];
    var rest := chain[..j] + chain[j + 1..];
    forall x | 0 <= x < |rest|
      ensures hash(rest[x].0) % |buckets| == pos
    {
      assert rest[x] == chain[if x < j then x else x + 1];
    }
    PlacedReplace(hash, buckets, pos, rest);
  }

  lemma PushPairs<K, V>(buckets: seq<seq<Pair<K, V>>>, pos: nat, p: Pair<K, V>)
    requires pos < |buckets|
    ensures AllPairs(buckets[pos := [p] + buckets[pos]]) == AllPairs(buckets) + multiset{p}
  {
    ReplaceChain(buckets, pos, [p] + buckets[pos]);
    assert multiset([p] + buckets[pos]) == multiset{p} + multiset(buckets[pos]);
  }

  lemma UnlinkPairs<K, V>(buckets: seq<seq<Pair<K, V>>>, pos: nat, j: nat)
    requires pos < |buckets| && j < |buckets[pos]|
    ensures buckets[pos][j] in AllPairs(buckets)
    ensures AllPairs(buckets[pos := buckets[pos][..j] + buckets[pos][j + 1..]]) == AllPairs(buckets) - multiset{buckets[pos][j]}
  {
    ReplaceChain(buckets, pos, buckets[pos][..j] + buckets[pos][j + 1..]);
    ChainWithout(buckets[pos], j);
  }

  lemma ChainWithout<T>(chain: seq<T>, j: nat)
    requires j < |chain|
    ensures multiset(chain) == multiset(chain[..j] + chain[j + 1..]) + multiset{chain[j]}
  {
    assert chain == chain[..j] + ([chain[j]] + chain[j + 1..]);
  }

  /** The value of the first pair of a chain that has the key. */
  ghost function First<K, V>(chain: seq<Pair<K, V>>, key: K): (r: Option<V>)
  {
    if chain == [] then None else if chain[0].0 == key then Some(chain[0].1) else First(chain[1..], key)
  }

  /** The chain without that pair. */
  ghost function WithoutFirst<K, V>(chain: seq<Pair<K, V>>, key: K): (r: seq<Pair<K, V>>)
  {
    if chain == [] then [] else if chain[0].0 == key then chain[1..] else [chain[0]] + WithoutFirst(chain[1..], key)
  }

  /** What precedes the first pair with the key does not matter to either. */
  lemma {:induction false} FirstAfter<K, V>(chain: seq<Pair<K, V>>, j: nat, key: K)
    requires j <= |chain| && forall i :: 0 <= i < j ==> chain[i].0 != key
    ensures First(chain, key) == First(chain[j..], key)
  {
    if j == 0 {
      assert chain[0..] == chain;
    } else {
      FirstAfter(chain[1..], j - 1, key);
      assert chain[1..][j - 1..] == chain[j..];
    }
  }

  lemma {:induction false} WithoutAfter<K, V>(chain: seq<Pair<K, V>>, j: nat, key: K)
    requires j < |chain| && chain[j].0 == key && forall i :: 0 <= i < j ==> chain[i].0 != key
    ensures WithoutFirst(chain, key) == chain[..j] + chain[j + 1..]
  {
    if j > 0 {
      WithoutAfter(chain[1..], j - 1, key);
      assert [chain[0]] + (chain[1..][..j - 1] + chain[1..][j..]) == chain[..j] + chain[j + 1..];
    }
  }

  lemma {:induction false} WithoutAbsent<K, V>(chain: seq<Pair<K, V>>, key: K)
    requires forall i :: 0 <= i < |chain| ==> chain[i].0 != key
    ensures WithoutFirst(chain, key) == chain
  {
    if chain != [] {
      WithoutAbsent(chain[1..], key);
    }
  }

  /** The chain of a bucket, which is empty in a table without buckets. */
  function ChainAt<K, V>(buckets: seq<seq<Pair<K, V>>>, i: nat): (r: seq<Pair<K, V>>)
  {
    if i < |buckets| then buckets[i] else []
  }

  /** The pair was put in front of the chain of its key, and the other chains are as they were. */
  ghost predicate Pushed<K, V>(hash: K -> nat, before: seq<seq<Pair<K, V>>>, after: seq<seq<Pair<K, V>>>, p: Pair<K, V>) {
    && |after| > 0
    && forall i: nat :: i < |after| ==>
         after[i] == (if i == hash(p.0) % |after| then [p] else []) + ChainAt(before, i)
  }

  lemma PushedInFront<K, V>(hash: K -> nat, before: seq<seq<Pair<K, V>>>, buckets: seq<seq<Pair<K, V>>>, p: Pair<K, V>)
    requires |buckets| > 0
    requires before == buckets || (before == [] && forall i :: 0 <= i < |buckets| ==> buckets[i] == [])
    ensures var pos := hash(p.0) % |buckets|; Pushed(hash, before, buckets[pos := [p] + buckets[pos]], p)
  {
  }

  /** The value last inserted under the key, of those not removed since. */
  ghost function Newest<K, V>(hash: K -> nat, buckets: seq<seq<Pair<K, V>>>, key: K): (r: Option<V>)
  {
    if |buckets| == 0 then None else First(buckets[hash(key) % |buckets|], key)
  }

  /** What is pushed is found, and under any other key what was found before. */
  lemma PushedIsNewest<K, V>(hash: K -> nat, before: seq<seq<Pair<K, V>>>, after: seq<seq<Pair<K, V>>>, p: Pair<K, V>, key: K)
    requires Pushed(hash, before, after, p) && (|before| == |after| || before == [])
    ensures Newest(hash, after, key) == if key == p.0 then Some(p.1) else Newest(hash, before, key)
  {
    var i := hash(key) % |after|;
    var chain := ChainAt(before, i);
    assert Newest(hash, before, key) == First(chain, key);
    if i == hash(p.0) % |after| {
      assert after[i] == [p] + chain && ([p] + chain)[1..] == chain;
    } else {
      assert after[i] == [] + chain == chain;
    }
  }

  // ---- one table ----

  class HTable<K(==), V> {
    const hash: K -> nat
    var buckets: seq<seq<Pair<K, V>>>
    var mask: nat
    var size: nat

    ghost predicate Valid()
      reads this
    {
      && size == |Pairs()|
      && (|buckets| == 0 ==> mask == 0)
      && (|buckets| > 0 ==> |buckets| == mask + 1 && MIN_CAPACITY <= mask + 1 && IsPowerOfTwo(mask + 1))
      && Placed(hash, buckets)
    }

    ghost function Pairs(): (m: multiset<Pair<K, V>>)
      reads this
    {
      AllPairs(buckets)
    }

    /** A table with `capacity` buckets, all empty. */
    constructor (hash: K -> nat, capacity: nat)
      requires MIN_CAPACITY <= capacity && IsPowerOfTwo(capacity)
      ensures Valid() && this.hash == hash && mask + 1 == capacity == |buckets|
      ensures Pairs() == multiset{} && forall i :: 0 <= i < |buckets| ==> buckets[i] == []
    {
      this.hash := hash;
      buckets := seq(capacity, _ => []);
      mask := capacity - 1;
      size := 0;
      new;
      EmptyBuckets(buckets);
    }

    /** A default-constructed table: no buckets yet. */
    constructor Unallocated(hash: K -> nat)
      ensures Valid() && this.hash == hash && buckets == [] && Pairs() == multiset{}
    {
      this.hash := hash;
      buckets := [];
      mask := 0;
      size := 0;
    }

    /** The first four buckets of a table without any. */
    method Allocate()
      requires Valid() && |buckets| == 0
      modifies this
      ensures Valid() && Pairs() == multiset{} && |buckets| == MIN_CAPACITY
      ensures forall i :: 0 <= i < |buckets| ==> buckets[i] == []
    {
      buckets := seq(MIN_CAPACITY, _ => []);
      mask := MIN_CAPACITY - 1;
      EmptyBuckets(buckets);
    }

    /** Puts the pair in front of its chain. */
    method Push(pos: nat, key: K, value: V)
      requires Valid() && pos < |buckets| && pos == hash(key) % |buckets|
      modifies this
      ensures Valid() && Pairs() == old(Pairs()) + multiset{(key, value)} && mask == old(mask)
      ensures buckets == old(buckets)[pos := [(key, value)] + old(buckets)[pos]]
    {
      PushPairs(buckets, pos, (key, value));
      PlacedPush(hash, buckets, pos, (key, value));
      buckets := buckets[pos := [(key, value)] + buckets[pos]];
      size := size + 1;
    }

    /** Puts the pair in front of its chain; a table without buckets gets four first. */
    method Insert(key: K, value: V)
      requires Valid()
      modifies this
      ensures Valid() && Pairs() == old(Pairs()) + multiset{(key, value)}
      ensures old(|buckets|) > 0 ==> mask == old(mask) && |buckets| == old(|buckets|)
      ensures Pushed(hash, old(buckets), buckets, (key, value)) && (old(|buckets|) == 0 ==> |buckets| == MIN_CAPACITY)
    {
      if |buckets| == 0 {
        Allocate();
      }
      PushedInFront(hash, old(buckets), buckets, (key, value));
      Push(hash(key) % (mask + 1), key, value);
    }

    /** The first pair of the key's chain that has the key. */
    method Lookup(key: K) returns (found: Option<V>)
      requires Valid()
      ensures found.None? ==> NoKey(Pairs(), key)
      ensures found.Some? ==> (key, found.value) in Pairs()
      ensures found == Newest(hash, buckets, key)
    {
      if |buckets| == 0 {
        return None;
      }
      var pos := hash(key) % (mask + 1);
      var chain := buckets[pos];
      var j := 0;
      while j < |chain|
        invariant 0 <= j <= |chain|
        invariant forall i :: 0 <= i < j ==> chain[i].0 != key
      {
        if chain[j].0 == key {
          FirstAfter(chain, j, key);
          UnlinkPairs(buckets, pos, j);
          return Some(chain[j].1);
        }
        j := j + 1;
      }
      FirstAfter(chain, |chain|, key);
      AbsentFromChain(hash, buckets, key);
      found := None;
    }

    /** Unlinks the first pair of the key's chain that has the key. */
    method Remove(key: K) returns (removed: Option<V>)
      requires Valid()
      modifies this
      ensures Valid() && mask == old(mask) && |buckets| == old(|buckets|)
      ensures removed.None? ==> NoKey(old(Pairs()), key) && Pairs() == old(Pairs())
      ensures removed.Some? ==> (key, removed.value) in old(Pairs()) && Pairs() == old(Pairs()) - multiset{(key, removed.value)}
      ensures forall i :: 0 <= i < |buckets| && old(buckets)[i] == [] ==> buckets[i] == []
      ensures removed == Newest(hash, old(buckets), key)
      ensures forall i: nat :: i < |buckets| ==>
                buckets[i] == if i == hash(key) % |buckets| then WithoutFirst(old(buckets)[i], key) else old(buckets)[i]
    {
      if |buckets| == 0 {
        return None;
      }
      var pos := hash(key) % (mask + 1);
      var chain := buckets[pos];
      assert pos == hash(key) % |buckets|;
      var j := 0;
      while j < |chain|
        invariant 0 <= j <= |chain| && buckets == old(buckets) && mask == old(mask) && size == old(size)
        invariant forall i :: 0 <= i < j ==> chain[i].0 != key
      {
        if chain[j].0 == key {
          removed := Some(chain[j].1);
          FirstAfter(chain, j, key);
          WithoutAfter(chain, j, key);
          Unlink(pos, j);
          return;
        }
        j := j + 1;
      }
      FirstAfter(chain, |chain|, key);
      WithoutAbsent(chain, key);
      AbsentFromChain(hash, buckets, key);
      removed := None;
    }

    /** Takes node `j` out of the chain at `pos`. */
    method Unlink(pos: nat, j: nat)
      requires Valid() && pos < |buckets| && j < |buckets[pos]|
      modifies this
      ensures Valid() && mask == old(mask) && |buckets| == old(|buckets|)
      ensures old(buckets)[pos][j] in old(Pairs()) && Pairs() == old(Pairs()) - multiset{old(buckets)[pos][j]}
      ensures buckets == old(buckets)[pos := old(buckets)[pos][..j] + old(buckets)[pos][j + 1..]]
    {
      var chain := buckets[pos];
      UnlinkPairs(buckets, pos, j);
      PlacedUnlink(hash, buckets, pos, j);
      buckets := buckets[pos := chain[..j] + chain[j + 1..]];
      size := size - 1;
    }

    /** Takes the head of the first non-empty chain from `pos` on, and says where it was. */
    method StealFirstNode(pos: nat) returns (node: Option<Pair<K, V>>, at: nat)
      requires Valid() && pos <= |buckets| && forall i :: 0 <= i < pos ==> buckets[i] == []
      modifies this
      ensures Valid() && mask == old(mask) && |buckets| == old(|buckets|) && pos <= at <= |buckets|
      ensures forall i :: 0 <= i < at ==> buckets[i] == []
      ensures node.None? <==> old(size) == 0
      ensures node.None? ==> at == |buckets| && buckets == old(buckets) && size == old(size)
      ensures node.Some? ==> at < |buckets| && node.value in old(Pairs()) && Pairs() == old(Pairs()) - multiset{node.value}
    {
      at := pos;
      while at < |buckets| && |buckets[at]| == 0
        invariant pos <= at <= |buckets| && forall i :: 0 <= i < at ==> buckets[i] == []
      {
        at := at + 1;
      }
      if at >= |buckets| {
        EmptyBuckets(buckets);
        return None, at;
      }
      node := Some(buckets[at][0]);
      Unlink(at, 0);
    }
  }
}
