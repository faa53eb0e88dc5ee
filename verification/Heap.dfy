/**
 The binary min-heap whose items may carry a reference to an external cell that tracks their
 position.  The sift loops move items past a hole; what the heap holds is the sequence with the
 travelling item put back in the hole.
 */
module Heap {
  import opened Basics

  /** An external position, updated by the heap. */
  class Cell {
    var pos: nat
  }

  datatype Item = Item(value: int, ref: Cell?)

  // ---- index arithmetic ----

  function Parent(i: nat): (p: nat)
    requires 0 < i
    ensures p < i
  {
    (i + 1) / 2 - 1
  }

  function LeftChild(i: nat): (c: nat)
  {
    i * 2 + 1
  }

  function RightChild(i: nat): (c: nat)
  {
    i * 2 + 2
  }

  lemma ChildrenOf(i: nat, c: nat)
    requires 0 < c
    ensures Parent(c) == i <==> c == LeftChild(i) || c == RightChild(i)
  {
  }

  // ---- heap order on a sequence ----

  ghost predicate OrderedAt(s: seq<Item>, i: nat)
    requires 0 < i < |s|
  {
    s[Parent(i)].value <= s[i].value
  }

  ghost predicate IsHeap(s: seq<Item>) {
    forall i: nat :: 0 < i < |s| ==> OrderedAt(s, i)
  }

  /** The children of `pos` are no smaller than the parent of `pos`. */
  ghost predicate Bridged(s: seq<Item>, pos: nat) {
    forall c: nat :: 0 < pos && pos < c < |s| && Parent(c) == pos ==> s[Parent(pos)].value <= s[c].value
  }

  /** In order except that the item at `pos` may be smaller than its parent. */
  ghost predicate HeapButUp(s: seq<Item>, pos: nat) {
    Bridged(s, pos) && forall i: nat :: 0 < i < |s| && i != pos ==> OrderedAt(s, i)
  }

  /** In order except that the item at `pos` may be larger than its children. */
  ghost predicate HeapButDown(s: seq<Item>, pos: nat) {
    Bridged(s, pos) && forall i: nat :: 0 < i < |s| && Parent(i) != pos ==> OrderedAt(s, i)
  }

  /** In order except around `pos`: what is left after the value at `pos` has been changed. */
  ghost predicate HeapButAt(s: seq<Item>, pos: nat) {
    Bridged(s, pos) && forall i: nat :: 0 < i < |s| && i != pos && Parent(i) != pos ==> OrderedAt(s, i)
  }

  function Swap(s: seq<Item>, i: nat, j: nat): (r: seq<Item>)
    requires i < |s| && j < |s|
  {
    s[i := s[j]][j := s[i]]
  }

  lemma SwapKeepsItems(s: seq<Item>, i: nat, j: nat)
    requires i < |s| && j < |s|
    ensures multiset(Swap(s, i, j)) == multiset(s)
  {
  }

  lemma StepUp(s: seq<Item>, pos: nat)
    requires 0 < pos < |s| && HeapButUp(s, pos) && s[pos].value < s[Parent(pos)].value
    ensures HeapButUp(Swap(s, pos, Parent(pos)), Parent(pos))
  {
    var p := Parent(pos);
    var r := Swap(s, pos, p);
    assert p > 0 ==> OrderedAt(s, p);
    forall i: nat | 0 < i < |r| && i != p
      ensures OrderedAt(r, i)
    {
      assert i != pos ==> OrderedAt(s, i);
    }
    forall c: nat | 0 < p && p < c < |r| && Parent(c) == p
      ensures r[Parent(p)].value <= r[c].value
    {
      assert c != pos ==> OrderedAt(s, c);
    }
  }

  lemma StepDown(s: seq<Item>, pos: nat, m: nat)
    requires pos < m < |s| && HeapButDown(s, pos) && Parent(m) == pos && s[m].value < s[pos].value
    requires forall c: nat :: pos < c < |s| && Parent(c) == pos ==> s[m].value <= s[c].value
    ensures HeapButDown(Swap(s, pos, m), m)
  {
    var r := Swap(s, pos, m);
    forall i: nat | 0 < i < |r| && Parent(i) != m
      ensures OrderedAt(r, i)
    {
      assert Parent(i) != pos ==> OrderedAt(s, i);
    }
    forall c: nat | m < c < |r| && Parent(c) == m
      ensures r[Parent(m)].value <= r[c].value
    {
      assert OrderedAt(s, c);
    }
  }

  /** Nothing left to do on the way up. */
  lemma DoneUp(s: seq<Item>, pos: nat)
    requires pos < |s| && HeapButUp(s, pos) && (0 < pos ==> s[Parent(pos)].value <= s[pos].value)
    ensures IsHeap(s)
  {
  }

  /** Nothing left to do on the way down. */
  lemma DoneDown(s: seq<Item>, pos: nat)
    requires pos < |s| && HeapButDown(s, pos)
    requires forall c: nat :: pos < c < |s| && Parent(c) == pos ==> s[pos].value <= s[c].value
    ensures IsHeap(s)
  {
  }

  /** The root of a heap is a least item. */
  lemma {:induction false} RootIsLeast(s: seq<Item>, i: nat)
    requires IsHeap(s) && i < |s|
    ensures s[0].value <= s[i].value
  {
    if i > 0 {
      assert OrderedAt(s, i);
      RootIsLeast(s, Parent(i));
    }
  }

  /** A member with the least value. */
  ghost predicate LeastOf(item: Item, m: multiset<Item>) {
    item in m && forall x :: x in m ==> item.value <= x.value
  }

  lemma RootIsLeastOf(s: seq<Item>)
    requires IsHeap(s) && |s| > 0
    ensures LeastOf(s[0], multiset(s))
  {
    forall x | x in multiset(s)
      ensures s[0].value <= x.value
    {
      var i: nat :| i < |s| && s[i] == x;
      RootIsLeast(s, i);
    }
  }

  /** Changing one value of a heap leaves it in order except around that place. */
  lemma ChangeValue(s: seq<Item>, pos: nat, item: Item)
    requires IsHeap(s) && pos < |s|
    ensures HeapButAt(s[pos := item], pos)
  {
    var r := s[pos := item];
    forall i: nat | 0 < i < |r| && i != pos && Parent(i) != pos
      ensures OrderedAt(r, i)
    {
      assert OrderedAt(s, i);
    }
    forall c: nat | 0 < pos && pos < c < |r| && Parent(c) == pos
      ensures r[Parent(pos)].value <= r[c].value
    {
      assert OrderedAt(s, c) && OrderedAt(s, pos);
    }
  }

  // ---- positions ----

  /** The cells in use. */
  ghost function Cells(s: seq<Item>): (r: set<Cell>)
  {
    set i: nat | i < |s| && s[i].ref != null :: s[i].ref
  }

  /** No two items share a cell. */
  ghost predicate DistinctCells(s: seq<Item>) {
    forall i: nat, j: nat :: i < j < |s| && s[i].ref != null ==> s[i].ref != s[j].ref
  }

  ghost predicate TrackedAt(s: seq<Item>, i: nat)
    requires i < |s|
    reads s[i].ref
  {
    s[i].ref != null ==> s[i].ref.pos == i
  }

  /** Every cell holds the index of its item, except possibly at `hole`. */
  ghost predicate TrackedBut(s: seq<Item>, hole: nat)
    reads Cells(s)
  {
    forall i: nat :: i < |s| && i != hole ==> TrackedAt(s, i)
  }

  ghost predicate Tracked(s: seq<Item>)
    reads Cells(s)
  {
    forall i: nat :: i < |s| ==> TrackedAt(s, i)
  }

  lemma SwapKeepsCells(s: seq<Item>, i: nat, j: nat)
    requires i < |s| && j < |s|
    ensures Cells(Swap(s, i, j)) == Cells(s)
    ensures DistinctCells(s) ==> DistinctCells(Swap(s, i, j))
  {
    var r := Swap(s, i, j);
    assert forall k: nat :: k < |s| ==> r[k] == s[if k == i then j else if k == j then i else k];
    forall c | c in Cells(s)
      ensures c in Cells(r)
    {
      var k: nat :| k < |s| && s[k].ref == c;
      assert r[if k == i then j else if k == j then i else k].ref == c;
    }
  }

  /** Distinct cells, except that the cell at `hole` need not hold its index. */
  ghost predicate ExactBut(s: seq<Item>, hole: nat)
    reads Cells(s)
  {
    DistinctCells(s) && TrackedBut(s, hole)
  }

  /** No cell twice, and each holds the index of its item. */
  ghost predicate Exact(s: seq<Item>)
    reads Cells(s)
  {
    DistinctCells(s) && Tracked(s)
  }

  /** With distinct cells, a cell occurs once among the items. */
  lemma CellOnce(s: seq<Item>, x: Item, y: Item)
    requires DistinctCells(s) && x in s && y in s && x.ref == y.ref && x.ref != null
    ensures x == y && multiset(s)[x] == 1
  {
    var i: nat :| i < |s| && s[i] == x;
    assert s == s[..i] + [x] + s[i + 1..];
    assert x !in s[..i] && x !in s[i + 1..];
  }

  /** Two items that share a cell cannot both be there in an exact heap. */
  lemma SharedCell(s: seq<Item>, before: seq<Item>, item: Item)
    requires multiset(s) == multiset(before) + multiset{item} && item.ref != null && item.ref in Cells(before)
    ensures !DistinctCells(s)
  {
    var k: nat :| k < |before| && before[k].ref == item.ref;
    var other := before[k];
    assert other in multiset(before);
    assert item in multiset(s) && other in multiset(s);
    if DistinctCells(s) {
      CellOnce(s, item, other);
    }
  }

  /** Tracking carries over to a sequence that has the same references where it is asked for. */
  lemma StillTracked(s: seq<Item>, r: seq<Item>, hole: nat)
    requires Tracked(s) && forall i: nat :: i < |r| && i != hole ==> i < |s| && r[i].ref == s[i].ref
    ensures TrackedBut(r, hole)
  {
    forall i: nat | i < |r| && i != hole
      ensures TrackedAt(r, i)
    {
      assert r[i].ref == s[i].ref;
      assert TrackedAt(s, i);
    }
  }

  /** `*position_ref_ = pos`, when the item is tracked. */
  method SetPosition(item: Item, pos: nat)
    modifies item.ref
    ensures item.ref != null ==> item.ref.pos == pos
  {
    if item.ref != null {
      item.ref.pos := pos;
    }
  }

  // ---- the heap ----

  class BinaryHeap {
    var items: seq<Item>

    constructor ()
      ensures IsHeap(items) && Exact(items) && items == []
    {
      items := [];
    }

    /** Moves the item at `from` into the hole; `v` is the heap with `temp` put back in the hole. */
    method MoveInto(hole: nat, from: nat, temp: Item, ghost v: seq<Item>) returns (ghost w: seq<Item>)
      requires hole < |items| && from < |items| && hole != from && v == items[hole := temp]
      modifies this, Cells(v)
      ensures |items| == old(|items|) && w == items[from := temp] == Swap(v, hole, from)
      ensures old(ExactBut(v, hole)) ==> ExactBut(w, from)
      ensures multiset(w) == multiset(v) && Cells(w) == Cells(v)
    {
      w := Swap(v, hole, from);
      SwapKeepsItems(v, hole, from);
      SwapKeepsCells(v, hole, from);
      items := items[hole := items[from]];
      assert w == items[from := temp];
      assert items[hole] == w[hole] == v[from];
      assert w[hole].ref != null ==> w[hole].ref in Cells(w);
      SetPosition(items[hole], hole);
      if old(ExactBut(v, hole)) {
        forall i: nat | i < |w| && i != from
          ensures TrackedAt(w, i)
        {
          assert i != hole ==> w[i] == v[i] && old(TrackedAt(v, i));
        }
      }
    }

    /** Puts the travelling item into the hole. */
    method Settle(hole: nat, temp: Item, ghost v: seq<Item>)
      requires hole < |items| && v == items[hole := temp]
      modifies this, Cells(v)
      ensures items == v && (old(ExactBut(v, hole)) ==> Exact(items))
    {
      items := items[hole := temp];
      assert v[hole].ref != null ==> v[hole].ref in Cells(v);
      SetPosition(items[hole], hole);
      if old(ExactBut(v, hole)) {
        forall i: nat | i < |v|
          ensures TrackedAt(v, i)
        {
          assert i != hole ==> old(TrackedAt(v, i));
        }
      }
    }

    method SiftUp(start: nat)
      requires start < |items| && HeapButUp(items, start)
      modifies this, Cells(items)
      ensures IsHeap(items) && (old(ExactBut(items, start)) ==> Exact(items))
      ensures multiset(items) == old(multiset(items)) && Cells(items) == old(Cells(items))
    {
      var pos := start;
      var temp := items[pos];
      ghost var v, exact := items, ExactBut(items, start);
      while pos > 0
        invariant pos < |items| && v == items[pos := temp]
        invariant HeapButUp(v, pos) && (exact ==> ExactBut(v, pos))
        invariant multiset(v) == old(multiset(items)) && Cells(v) == old(Cells(items))
        invariant |v| == |old(items)|
      {
        var parent := Parent(pos);
        if temp.value >= items[parent].value {
          break;
        }
        StepUp(v, pos);
        v := MoveInto(pos, parent, temp, v);
        pos := parent;
      }
      DoneUp(v, pos);
      Settle(pos, temp, v);
    }

    /** The child to move up, or `pos` itself when the travelling item fits there. */
    method SmallerChild(pos: nat, temp: Item) returns (m: nat)
      requires pos < |items|
      ensures m == pos || (pos < m < |items| && Parent(m) == pos && items[m].value < temp.value)
      ensures forall c: nat :: pos < c < |items| && Parent(c) == pos ==>
        (if m == pos then temp else items[m]).value <= items[c].value
    {
      m := pos;
      var left, right := LeftChild(pos), RightChild(pos);
      if left < |items| && items[left].value < temp.value {
        m := left;
      }
      if right < |items| && items[right].value < (if m == pos then temp.value else items[m].value) {
        m := right;
      }
      forall c: nat | pos < c < |items| && Parent(c) == pos
        ensures (if m == pos then temp else items[m]).value <= items[c].value
      {
        ChildrenOf(pos, c);
      }
    }

    method SiftDown(start: nat)
      requires start < |items| && HeapButDown(items, start)
      modifies this, Cells(items)
      ensures IsHeap(items) && (old(ExactBut(items, start)) ==> Exact(items))
      ensures multiset(items) == old(multiset(items)) && Cells(items) == old(Cells(items))
    {
      var pos := start;
      var temp := items[pos];
      ghost var v, exact := items, ExactBut(items, start);
      while true
        invariant pos < |items| && v == items[pos := temp]
        invariant HeapButDown(v, pos) && (exact ==> ExactBut(v, pos))
        invariant multiset(v) == old(multiset(items)) && Cells(v) == old(Cells(items))
        invariant |v| == |old(items)|
        decreases |old(items)| - pos
      {
        var m := SmallerChild(pos, temp);
        if m == pos {
          DoneDown(v, pos);
          break;
        }
        StepDown(v, pos, m);
        v := MoveInto(pos, m, temp, v);
        pos := m;
      }
      Settle(pos, temp, v);
    }

    /** Keeps the order for every item; the cells stay exact if and only if the item's cell is unused. */
    method Push(item: Item)
      requires IsHeap(items)
      modifies this, Cells(items), item.ref
      ensures IsHeap(items) && multiset(items) == old(multiset(items)) + multiset{item}
      ensures old(Exact(items)) ==> (Exact(items) <==> item.ref == null || item.ref !in old(Cells(items)))
      ensures Cells(items) == old(Cells(items)) + (if item.ref == null then {} else {item.ref})
    {
      ghost var before := items;
      items := items + [item];
      AppendLast(before, item);
      if old(Exact(items)) {
        StillTracked(before, items, |before|);
      }
      SiftUp(|items| - 1);
      if item.ref != null && item.ref in Cells(before) {
        SharedCell(items, before, item);
      }
    }

    /** None when the heap is empty (the source throws); otherwise a least item leaves. */
    method Pop() returns (r: Option<Item>)
      requires IsHeap(items)
      modifies this, Cells(items)
      ensures IsHeap(items) && (old(Exact(items)) ==> Exact(items))
      ensures r == None <==> old(items) == []
      ensures r == None ==> items == []
      ensures r.Some? ==> LeastOf(r.value, old(multiset(items)))
      ensures r.Some? ==> multiset(items) == old(multiset(items)) - multiset{r.value}
      ensures Cells(items) <= old(Cells(items))
      ensures r.Some? && old(Exact(items)) ==> Cells(items) == old(Cells(items)) - {r.value.ref}
    {
      if |items| == 0 {
        return None;
      }
      RootIsLeastOf(items);
      RootItems(items);
      RootCells(items);
      r := Some(items[0]);
      DropRoot();
    }

    /** The last item takes the root's place and sinks. */
    method DropRoot()
      requires IsHeap(items) && |items| > 0
      modifies this, Cells(items)
      ensures IsHeap(items) && (old(Exact(items)) ==> Exact(items))
      ensures multiset(items) == multiset(WithoutRoot(old(items))) && Cells(items) == Cells(WithoutRoot(old(items)))
    {
      ghost var before := items;
      RootCells(items);
      if |items| > 1 {
        RootOrder(items);
        items := items[0 := items[|items| - 1]];
        items := items[..|items| - 1];
        if old(Exact(items)) {
          StillTracked(before, items, 0);
        }
        SiftDown(0);
      } else {
        items := items[..|items| - 1];
      }
    }

    /** Restores the heap after the value at `pos` was changed in place; false when out of range. */
    method Update(pos: nat) returns (ok: bool)
      requires if pos < |items| then HeapButAt(items, pos) else IsHeap(items)
      modifies this, Cells(items)
      ensures IsHeap(items) && (old(Exact(items)) ==> Exact(items))
      ensures ok <==> pos < |old(items)|
      ensures !ok ==> items == old(items)
      ensures multiset(items) == old(multiset(items)) && Cells(items) == old(Cells(items))
    {
      if pos >= |items| {
        return false;
      }
      if pos > 0 && items[pos].value < items[Parent(pos)].value {
        SmallerThanParent(items, pos);
        SiftUp(pos);
      } else {
        SiftDown(pos);
      }
      ok := true;
    }

    /** A value written through `operator[]`, then `Update`. */
    method Change(pos: nat, value: int) returns (ok: bool)
      requires IsHeap(items)
      modifies this, Cells(items)
      ensures IsHeap(items) && (old(Exact(items)) ==> Exact(items)) && Cells(items) == old(Cells(items))
      ensures ok <==> pos < |old(items)|
      ensures !ok ==> items == old(items)
      ensures ok ==> multiset(items) == multiset(old(items)[pos := Item(value, old(items)[pos].ref)])
    {
      if pos < |items| {
        ghost var before := items;
        ChangeValue(items, pos, Item(value, items[pos].ref));
        items := items[pos := Item(value, items[pos].ref)];
        SameCells(before, items);
        if old(Exact(items)) {
          StillTracked(before, items, |items|);
          assert forall i: nat :: i < |items| ==> TrackedAt(items, i);
        }
      }
      ok := Update(pos);
    }
  }

  /** A new last item is the only one out of place. */
  lemma AppendLast(s: seq<Item>, item: Item)
    requires IsHeap(s)
    ensures HeapButUp(s + [item], |s|)
    ensures DistinctCells(s) && (item.ref != null ==> item.ref !in Cells(s)) ==> DistinctCells(s + [item])
    ensures Cells(s + [item]) == Cells(s) + (if item.ref == null then {} else {item.ref})
  {
    var r := s + [item];
    forall i: nat | 0 < i < |r| && i != |s|
      ensures OrderedAt(r, i)
    {
      assert OrderedAt(s, i);
    }
    assert r[|s|] == item;
    forall c | c in Cells(s)
      ensures c in Cells(r)
    {
      var k: nat :| k < |s| && s[k].ref == c;
      assert r[k].ref == c;
    }
  }

  /** What is left when the last item takes the root's place. */
  ghost function WithoutRoot(s: seq<Item>): (r: seq<Item>)
    requires |s| > 0
  {
    if |s| == 1 then [] else s[0 := s[|s| - 1]][..|s| - 1]
  }

  lemma RootItems(s: seq<Item>)
    requires |s| > 0
    ensures multiset(WithoutRoot(s)) == multiset(s) - multiset{s[0]}
  {
    var n := |s| - 1;
    if n == 0 {
      assert s == [s[0]];
    } else {
      assert s == [s[0]] + s[1..n] + [s[n]];
      assert WithoutRoot(s) == [s[n]] + s[1..n];
    }
  }

  lemma RootCells(s: seq<Item>)
    requires |s| > 0
    ensures Cells(WithoutRoot(s)) <= Cells(s)
    ensures DistinctCells(s) ==> DistinctCells(WithoutRoot(s)) && Cells(WithoutRoot(s)) == Cells(s) - {s[0].ref}
  {
    var r, n := WithoutRoot(s), |s| - 1;
    assert forall k: nat :: k < |r| ==> r[k] == s[if k == 0 then n else k];
    forall c | c in Cells(s) && c != s[0].ref
      ensures c in Cells(r)
    {
      var k: nat :| k < |s| && s[k].ref == c;
      assert r[if k == n then 0 else k].ref == c;
    }
  }

  lemma RootOrder(s: seq<Item>)
    requires |s| > 1 && IsHeap(s)
    ensures HeapButDown(WithoutRoot(s), 0)
  {
    var r := WithoutRoot(s);
    forall i: nat | 0 < i < |r| && Parent(i) != 0
      ensures OrderedAt(r, i)
    {
      assert OrderedAt(s, i);
    }
  }

  /** A value below its parent's is also below its children's. */
  lemma SmallerThanParent(s: seq<Item>, pos: nat)
    requires 0 < pos < |s| && HeapButAt(s, pos) && s[pos].value < s[Parent(pos)].value
    ensures HeapButUp(s, pos)
  {
    forall i: nat | 0 < i < |s| && i != pos
      ensures OrderedAt(s, i)
    {
      assert Parent(i) == pos ==> s[Parent(pos)].value <= s[i].value;
    }
  }

  /** Values do not matter to the cells. */
  lemma SameCells(s: seq<Item>, r: seq<Item>)
    requires |r| == |s| && forall i :: 0 <= i < |s| ==> r[i].ref == s[i].ref
    ensures Cells(r) == Cells(s)
  {
    assert forall c :: c in Cells(s) ==> exists k: nat :: k < |s| && s[k].ref == c && r[k].ref == c;
    assert forall c :: c in Cells(r) ==> exists k: nat :: k < |r| && r[k].ref == c && s[k].ref == c;
  }

  // ---- repeated pops ----

  /** `out` can be what successive pops return when the heap starts with the items `m`. */
  ghost predicate Pops(m: multiset<Item>, out: seq<Item>) {
    out == [] ||
    (LeastOf(out[0], m) && Pops(m - multiset{out[0]}, out[1..]))
  }

  lemma {:induction false} PopsConserve(m: multiset<Item>, out: seq<Item>)
    requires Pops(m, out)
    ensures multiset(out) <= m && (|out| == |m| ==> multiset(out) == m)
  {
    if out != [] {
      PopsConserve(m - multiset{out[0]}, out[1..]);
      assert out == [out[0]] + out[1..];
      assert multiset(out) == multiset{out[0]} + multiset(out[1..]);
    }
  }

  lemma {:induction false} PopsInOrder(m: multiset<Item>, out: seq<Item>, i: nat, j: nat)
    requires Pops(m, out) && i < j < |out|
    ensures out[i].value <= out[j].value
  {
    if i > 0 {
      PopsInOrder(m - multiset{out[0]}, out[1..], i - 1, j - 1);
    } else {
      PopsConserve(m, out);
      assert out[j] in multiset(out);
      assert out[j] in m;
    }
  }

  /** Repeated pops come out in order and are a part of what was in the heap, all of it when drained. */
  lemma PopsAreSorted(m: multiset<Item>, out: seq<Item>)
    requires Pops(m, out)
    ensures multiset(out) <= m && (|out| == |m| ==> multiset(out) == m)
    ensures forall i: nat, j: nat :: i < j < |out| ==> out[i].value <= out[j].value
  {
    PopsConserve(m, out);
    forall i: nat, j: nat | i < j < |out|
      ensures out[i].value <= out[j].value
    {
      PopsInOrder(m, out, i, j);
    }
  }

  lemma PopsMore(m: multiset<Item>, x: Item, rest: seq<Item>, left: multiset<Item>)
    requires LeastOf(x, m) && Pops(m - multiset{x}, rest) && left + multiset(rest) == m - multiset{x}
    ensures Pops(m, [x] + rest) && left + multiset([x] + rest) == m
  {
    assert ([x] + rest)[1..] == rest;
    assert multiset([x] + rest) == multiset{x} + multiset(rest);
    assert m == multiset{x} + (m - multiset{x});
  }

  /** Pops up to `n` items, fewer only when the heap runs empty. */
  method PopMany(h: BinaryHeap, n: nat) returns (out: seq<Item>)
    requires IsHeap(h.items)
    modifies h, Cells(h.items)
    ensures IsHeap(h.items) && (old(Exact(h.items)) ==> Exact(h.items)) && Cells(h.items) <= old(Cells(h.items))
    ensures Pops(old(multiset(h.items)), out) && multiset(h.items) + multiset(out) == old(multiset(h.items))
    ensures |out| <= n && (|out| < n ==> h.items == [])
    decreases n
  {
    if n == 0 {
      return [];
    }
    ghost var m := multiset(h.items);
    var first := h.Pop();
    if first == None {
      return [];
    }
    ghost var next := multiset(h.items);
    assert next == m - multiset{first.value};
    var rest := PopMany(h, n - 1);
    PopsMore(m, first.value, rest, multiset(h.items));
    out := [first.value] + rest;
  }

  /** Repeated pops come out in order; popping at least as often as there are items yields them all. */
  method PopInOrder(h: BinaryHeap, n: nat) returns (out: seq<Item>)
    requires IsHeap(h.items)
    modifies h, Cells(h.items)
    ensures forall i: nat, j: nat :: i < j < |out| ==> out[i].value <= out[j].value
    ensures multiset(h.items) + multiset(out) == old(multiset(h.items))
    ensures |out| == n || (|out| < n && multiset(out) == old(multiset(h.items)))
  {
    ghost var m := multiset(h.items);
    out := PopMany(h, n);
    PopsAreSorted(m, out);
  }
}
