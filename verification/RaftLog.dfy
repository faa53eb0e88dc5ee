/**
 The growable array that holds a server's log.  It is never polled, so the queue it is laid out
 as starts at slot zero; its contents are a sequence of entries.
 */
module RaftLog {
  import opened Basics
  import opened RaftTypes

  const INITIAL_CAPACITY := 10

  lemma WithinSize(x: int, size: nat)
    requires 0 <= x < size
    ensures x % size == x
  {
  }

  class ArrayLog {
    var size: nat
    var count: int
    var front: nat
    var back: int
    var base: nat
    var entries: array<Entry>

    ghost predicate Valid()
      reads this, entries
    {
      && entries.Length == size && 0 < size
      && front == 0 && base == 0 && 0 <= back == count <= size
    }

    /** The entries held, oldest first. */
    ghost function Contents(): (s: Log)
      requires Valid()
      reads this, entries
      ensures |s| == count
    {
      entries[..count]
    }

    /** `log_new` */
    constructor ()
      ensures Valid() && fresh(entries) && Contents() == []
    {
      size := INITIAL_CAPACITY;
      count, front, back, base := 0, 0, 0, 0;
      entries := new Entry[INITIAL_CAPACITY](_ => Entry(0, 0, 0));
    }

    /** `__raft__ensurecapacity`: a full array is copied into one twice as large. */
    method EnsureCapacity()
      requires Valid()
      modifies this
      ensures Valid() && Contents() == old(Contents())
      ensures count < size
      ensures entries == old(entries) || fresh(entries)
    {
      if count < size {
        return;
      }
      var temp := new Entry[size * 2](_ => Entry(0, 0, 0));
      var i, j := 0, front;
      while i < count
        modifies temp
        invariant 0 <= i <= count && j == i
        invariant temp[..i] == entries[..i]
      {
        if j == size {
          j := 0;
        }
        temp[i] := entries[j];
        i, j := i + 1, j + 1;
      }
      size := size * 2;
      entries := temp;
      front := 0;
      back := count;
    }

    /** `log_append_entry`: entries with id zero are refused. */
    method Append(e: Entry) returns (ok: bool)
      requires Valid()
      modifies this, entries
      ensures Valid() && ok == (e.id != 0)
      ensures Contents() == if ok then old(Contents()) + [e] else old(Contents())
      ensures entries == old(entries) || fresh(entries)
    {
      if e.id == 0 {
        return false;
      }
      EnsureCapacity();
      entries[back] := e;
      count := count + 1;
      back := back + 1;
      ok := true;
    }

    /** `log_delete`: drops the entry at `idx` and everything after it.  An index below one takes off more
        than there is and leaves a negative count. */
    method Delete(idx: int)
      requires Valid()
      modifies this`count, this`back
      ensures Valid() <==> 1 <= idx
      ensures 1 <= idx ==> Contents() == if idx <= |old(Contents())| then old(Contents())[..idx - 1] else old(Contents())
      ensures idx < 1 ==> count == back == idx - 1
    {
      var i := idx - 1 - base;
      var end := count;
      while i < end
        invariant idx - 1 <= i && (idx - 1 <= end ==> i <= end) && end == old(count)
        invariant count == back == if idx - 1 <= end then end - (i - (idx - 1)) else end
      {
        back := back - 1;
        count := count - 1;
        i := i + 1;
      }
    }

    /** `log_get_at_idx` */
    method GetAt(idx: int) returns (e: Option<Entry>)
      requires Valid() && 1 <= idx
      ensures e == if idx <= |Contents()| then Some(Contents()[idx - 1]) else None
    {
      if base + count < idx || idx < base {
        return None;
      }
      WithinSize(front + (idx - 1) - base, size);
      var i := (front + (idx - 1) - base) % size;
      e := Some(entries[i]);
    }

    /** `log_get_from_idx`: the slot of the entry at `idx` and how many entries follow from there. */
    method GetFrom(idx: int) returns (slot: nat, n: nat)
      requires Valid() && 1 <= idx
      ensures n == if idx <= |Contents()| then |Contents()| - (idx - 1) else 0
      ensures slot + n <= entries.Length
      ensures entries[slot..slot + n] == if idx <= |Contents()| then Contents()[idx - 1..] else []
    {
      if base + count < idx || idx < base {
        return 0, 0;
      }
      WithinSize(front + (idx - 1) - base, size);
      var i := (front + (idx - 1) - base) % size;
      if i < back {
        n := back - i;
      } else {
        n := size - i;
      }
      slot := i;
    }

    /** `log_get_current_idx` */
    method CurrentIdx() returns (n: nat)
      requires Valid()
      ensures n == |Contents()|
    {
      n := count + base;
    }
  }

  // ---- runs of the log ----

  datatype LogOp = AppendOp(e: Entry) | DeleteOp(idx: Index)

  /** The log as a sequence: appending at the end, cutting at an index. */
  function Apply(log: Log, op: LogOp): (r: Log)
  {
    match op
    case AppendOp(e) => if e.id == 0 then log else log + [e]
    case DeleteOp(idx) => if idx <= |log| then log[..idx - 1] else log
  }

  function ApplyOps(ops: seq<LogOp>): (r: Log)
  {
    if ops == [] then [] else Apply(ApplyOps(ops[..|ops| - 1]), ops[|ops| - 1])
  }

  /** Over every run of appends and deletions from an empty log, whatever doubling happened, the
      array log holds the sequence. */
  method Replay(ops: seq<LogOp>) returns (log: ArrayLog)
    ensures log.Valid() && log.Contents() == ApplyOps(ops)
  {
    log := new ArrayLog();
    for k := 0 to |ops|
      invariant fresh(log) && fresh(log.entries) && log.Valid() && log.Contents() == ApplyOps(ops[..k])
    {
      assert ops[..k + 1][..k] == ops[..k];
      match ops[k] {
        case AppendOp(e) =>
          var _ := log.Append(e);
        case DeleteOp(idx) =>
          log.Delete(idx);
      }
    }
    assert ops[..|ops|] == ops;
  }
}
