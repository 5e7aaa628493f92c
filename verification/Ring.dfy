/** The request queue: a ring of slots with a start and an end index. */
module Ring {
  import opened Common
  import opened Modular

  /**
   * The memory the two threads share. Each function below is one step of the
   * code that the other thread can observe: the test of an index, the write or
   * read of a slot, the increment of an index, and its reset to zero.
   */
  datatype Memory<T> = Memory(slots: seq<T>, start: nat, end: nat) {
    function Max(): nat { |slots| }

    predicate Usable() { 0 < Max() && 2 * Max() <= SIZE_T }

    predicate LooksFull()
      requires Usable()
    {
      start == (end + 1) % Max()
    }

    predicate LooksEmpty() { start == end }

    function Count(): nat
      requires Usable()
    {
      (end + Max() - start) % SIZE_T % Max()
    }

    function WriteSlot(x: T): Memory<T>
      requires end < Max()
    {
      this.(slots := slots[end := x])
    }

    function ReadSlot(): T
      requires start < Max()
    {
      slots[start]
    }

    function BumpEnd(): Memory<T> { this.(end := end + 1) }

    function WrapEnd(): Memory<T> { if end >= Max() then this.(end := 0) else this }

    function BumpStart(): Memory<T> { this.(start := start + 1) }

    function WrapStart(): Memory<T> { if start >= Max() then this.(start := 0) else this }

    /** No call in progress: both indices name a slot. */
    predicate Settled() { Usable() && start < Max() && end < Max() }

    /** The queued items, oldest first. */
    function Contents(): seq<T>
      requires Settled()
    {
      if start <= end then slots[start..end] else slots[start..] + slots[..end]
    }
  }

  /** The count in terms of the two indices; `size_t` wrap-around never shows below 2^63 slots. */
  lemma CountIsDistance(start: nat, end: nat, max: nat)
    requires 0 < max && 2 * max <= SIZE_T && start < max && end <= max
    ensures (end + max - start) % SIZE_T % max ==
            if end - start == max then 0 else if start <= end then end - start else end + max - start
  {
    var d := end + max - start;
    if d == SIZE_T {
      DivModUnique(SIZE_T, max, 2, 0);
    } else {
      DivModUnique(d, SIZE_T, 0, d);
      var q := if d < max then 0 else if d < 2 * max then 1 else 2;
      DivModUnique(d, max, q, d - q * max);
    }
  }

  lemma SettledCount<T>(m: Memory<T>)
    requires m.Settled()
    ensures m.Count() == |m.Contents()|
    ensures m.LooksFull() <==> |m.Contents()| == m.Max() - 1
    ensures m.LooksEmpty() <==> m.Contents() == []
  {
    CountIsDistance(m.start, m.end, m.Max());
    var next := if m.end == m.Max() - 1 then 0 else m.end + 1;
    DivModUnique(m.end + 1, m.Max(), if next == 0 then 1 else 0, next);
  }

  /** Writing the slot, then moving the end index, appends one item. */
  lemma AppendStep<T>(m: Memory<T>, x: T)
    requires m.Settled() && !m.LooksFull()
    ensures m.WriteSlot(x).BumpEnd().WrapEnd().Settled()
    ensures m.WriteSlot(x).BumpEnd().WrapEnd().Contents() == m.Contents() + [x]
  {
    SettledCount(m);
  }

  /** Reading the slot, then moving the start index, removes the oldest item. */
  lemma RemoveStep<T>(m: Memory<T>)
    requires m.Settled() && !m.LooksEmpty()
    ensures m.BumpStart().WrapStart().Settled()
    ensures m.Contents() == [m.ReadSlot()] + m.BumpStart().WrapStart().Contents()
  {
    SettledCount(m);
  }

  class RequestQueue<T(0)> {
    const maxSize: nat
    const items: array<T>
    var start: nat
    var end: nat

    ghost function Mem(): Memory<T>
      reads this, items
    {
      Memory(items[..], start, end)
    }

    ghost predicate Valid()
      reads this, items
    {
      items.Length == maxSize && Mem().Settled()
    }

    ghost function Contents(): seq<T>
      requires Valid()
      reads this, items
    {
      Mem().Contents()
    }

    constructor (size: nat)
      requires 0 < size && 2 * size <= SIZE_T
      ensures Valid() && fresh(items) && maxSize == size && Contents() == []
    {
      maxSize := size;
      items := new T[size];
      start, end := 0, 0;
      new;
      SettledCount(Mem());
    }

    method Enqueue(item: T) returns (status: int)
      requires Valid()
      modifies this, items
      ensures Valid()
      ensures status == if |old(Contents())| == maxSize - 1 then -1 else 0
      ensures Contents() == if status == 0 then old(Contents()) + [item] else old(Contents())
    {
      SettledCount(Mem());
      if start == (end + 1) % maxSize {
        return -1;
      }
      ghost var before := Mem();
      AppendStep(before, item);
      items[end] := item;
      assert Mem() == before.WriteSlot(item);
      end := end + 1;
      if end >= maxSize {
        end := 0;
      }
      assert Mem() == before.WriteSlot(item).BumpEnd().WrapEnd();
      return 0;
    }

    /** `None` stands for the exception thrown on an empty queue. */
    method Dequeue() returns (item: Option<T>)
      requires Valid()
      modifies this
      ensures Valid()
      ensures old(Contents()) == [] ==> item == None && Contents() == []
      ensures old(Contents()) != [] ==> item.Some? && old(Contents()) == [item.value] + Contents()
    {
      SettledCount(Mem());
      if start == end {
        return None;
      }
      ghost var before := Mem();
      RemoveStep(before);
      item := Some(items[start]);
      start := start + 1;
      if start >= maxSize {
        start := 0;
      }
      assert Mem() == before.BumpStart().WrapStart();
    }

    method Count() returns (n: nat)
      requires Valid()
      ensures n == |Contents()|
    {
      SettledCount(Mem());
      n := (end + maxSize - start) % SIZE_T % maxSize;
    }
  }
}
