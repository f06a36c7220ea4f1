/**
 The debug log's ring buffer: a fixed array, a write position and a count.
 */
module RingBuffer {

  /** The last n elements, or all of them. */
  function Last<T>(log: seq<T>, n: nat): seq<T> {
    if |log| <= n then log else log[|log| - n..]
  }

  /** Keeping only the last n after each of two appends is keeping the last n of everything. */
  lemma LastOfLast<T>(log: seq<T>, more: seq<T>, n: nat)
    ensures Last(Last(log, n) + more, n) == Last(log + more, n)
  {
    var kept := Last(log, n) + more;
    if |more| >= n {
      assert Last(kept, n) == more[|more| - n..] == Last(log + more, n);
    } else if |log| > n {
      assert Last(kept, n) == log[|log| + |more| - n..] + more;
      assert Last(log + more, n) == log[|log| + |more| - n..] + more;
    }
  }

  /** The cells read from a position, round to it. */
  function Around<T>(cells: seq<T>, head: nat): seq<T>
    requires head <= |cells|
  {
    cells[head..] + cells[..head]
  }

  /** The next write position. */
  function Step(head: nat, n: nat): (next: nat)
    requires head < n
    ensures next == if head + 1 == n then 0 else head + 1
  {
    (head + 1) % n
  }

  /** Overwriting the oldest cell and stepping on drops the oldest and appends the new. */
  lemma StepAround<T>(cells: seq<T>, head: nat, entry: T)
    requires head < |cells|
    ensures Around(cells[head := entry], Step(head, |cells|)) == Around(cells, head)[1..] + [entry]
  {
    var after := cells[head := entry];
    if head + 1 == |cells| {
      assert after == cells[..head] + [entry];
    } else {
      assert after[head + 1..] == cells[head + 1..] && after[..head + 1] == cells[..head] + [entry];
    }
  }

  /** Filling the next free cell appends the new entry. */
  lemma FillNext<T>(cells: seq<T>, head: nat, entry: T)
    requires head < |cells|
    ensures cells[head := entry][..head + 1] == cells[..head] + [entry]
    ensures head + 1 == |cells| ==> Around(cells[head := entry], 0) == cells[..head] + [entry]
  {}

  /** What the cells hold, oldest first. */
  function Stored<T>(cells: seq<T>, head: nat, count: nat): seq<T>
    requires head <= |cells| && count <= |cells|
  {
    if count < |cells| then cells[..count] else Around(cells, head)
  }

  /** One push, on values. */
  lemma PushStores<T>(cells: seq<T>, head: nat, count: nat, log: seq<T>, entry: T)
    requires head < |cells| && count <= |cells| && (count < |cells| ==> head == count)
    requires Stored(cells, head, count) == Last(log, |cells|)
    ensures Stored(cells[head := entry], Step(head, |cells|), if count < |cells| then count + 1 else count)
      == Last(log + [entry], |cells|)
  {
    LastOfLast(log, [entry], |cells|);
    LastOne(Last(log, |cells|), entry, |cells|);
    hide Around, Last, Step;
    if count == |cells| {
      StepAround(cells, head, entry);
      AroundLength(cells, head);
    } else {
      FillNext(cells, head, entry);
    }
  }

  lemma AroundLength<T>(cells: seq<T>, head: nat)
    requires head <= |cells|
    ensures |Around(cells, head)| == |cells|
  {}

  lemma LastOne<T>(kept: seq<T>, entry: T, n: nat)
    requires |kept| <= n && n > 0
    ensures Last(kept + [entry], n) == if |kept| == n then kept[1..] + [entry] else kept + [entry]
  {}

  class Ring<T(0)> {
    const capacity: nat
    const buffer: array<T>
    var head: nat
    var count: nat
    ghost var Log: seq<T>     // everything pushed since the last clear

    ghost predicate Valid()
      reads this, buffer
    {
      && buffer.Length == capacity > 0
      && head < capacity && count <= capacity
      && (count < capacity ==> head == count)
      && Stored(buffer[..], head, count) == Last(Log, capacity)
    }

    constructor (capacity: nat)
      requires capacity > 0
      ensures Valid() && fresh(buffer) && this.capacity == capacity && Log == []
    {
      this.capacity := capacity;
      buffer := new T[capacity];
      head, count := 0, 0;
      Log := [];
    }

    method Push(entry: T)
      requires Valid()
      modifies this, buffer
      ensures Valid() && Log == old(Log) + [entry]
    {
      ghost var cells, log := buffer[..], Log;
      hide Stored, Last;
      PushStores(cells, head, count, log, entry);
      buffer[head] := entry;
      assert buffer[..] == cells[head := entry];
      head := Step(head, capacity);
      if count < capacity {
        count := count + 1;
      }
      Log := Log + [entry];
    }

    method PushBatch(entries: seq<T>)
      requires Valid()
      modifies this, buffer
      ensures Valid() && Log == old(Log) + entries
    {
      hide Stored, Last;
      for i := 0 to |entries|
        invariant Valid() && Log == old(Log) + entries[..i]
      {
        Push(entries[i]);
      }
    }

    /** Always the last entries pushed since the last clear, in push order, at most `capacity` of them. */
    method GetAll() returns (entries: seq<T>)
      requires Valid()
      ensures entries == Last(Log, capacity)
    {
      if count < capacity {
        return buffer[..count];
      }
      entries := buffer[head..] + buffer[..head];
      assert buffer[..][head..] == buffer[head..] && buffer[..][..head] == buffer[..head];
    }

    /** Clearing leaves the cells as they are. */
    method Clear()
      requires Valid()
      modifies this
      ensures Valid() && Log == []
    {
      head, count := 0, 0;
      Log := [];
    }

    method Size() returns (n: nat)
      requires Valid()
      ensures n == if |Log| < capacity then |Log| else capacity
    {
      assert |Stored(buffer[..], head, count)| == |Last(Log, capacity)|;
      n := count;
    }
  }
}
