/** The table of resumable TLS sessions: a fixed array of slots, searched from the front. */
module SessionTable {
  import opened Common

  const SESSION_CACHE_MAX: nat := 64

  /** A slot whose key is empty is free. */
  datatype Slot = Slot(key: seq<byte>, data: seq<byte>)

  const FREE: Slot := Slot([], [])

  /** The first slot with the key, or the number of slots. */
  function Find(slots: seq<Slot>, key: seq<byte>): (i: nat)
    ensures i <= |slots| && (i < |slots| ==> slots[i].key == key)
    ensures forall j :: 0 <= j < i ==> slots[j].key != key
  {
    if slots == [] || slots[0].key == key then 0 else 1 + Find(slots[1..], key)
  }

  lemma FindIs(slots: seq<Slot>, key: seq<byte>, i: nat)
    requires i <= |slots| && (i < |slots| ==> slots[i].key == key)
    requires forall j :: 0 <= j < i ==> slots[j].key != key
    ensures Find(slots, key) == i
  {
    var f := Find(slots, key);
    assert !(f < i) && !(i < f);
  }

  /** No two slots hold the same session. */
  ghost predicate Distinct(slots: seq<Slot>) {
    forall i, j :: 0 <= i < j < |slots| && slots[i].key != [] ==> slots[i].key != slots[j].key
  }

  /** The map stands for the table: each key has the data of its first slot. */
  ghost predicate Represents(slots: seq<Slot>, m: map<seq<byte>, seq<byte>>) {
    && [] !in m
    && forall k :: k != [] ==> Lookup(m, k) == FirstData(slots, k)
  }

  function FirstData(slots: seq<Slot>, key: seq<byte>): Option<seq<byte>> {
    var i := Find(slots, key);
    if i < |slots| then Some(slots[i].data) else None
  }

  /** Writing the slot `i` changes what is found only for the old and the new key of that slot. */
  lemma FindAfterWrite(slots: seq<Slot>, i: nat, s: Slot, key: seq<byte>)
    requires i < |slots|
    ensures key != slots[i].key && key != s.key ==> Find(slots[i := s], key) == Find(slots, key)
    ensures key == s.key && slots[i].key != key ==>
              Find(slots[i := s], key) == if i < Find(slots, key) then i else Find(slots, key)
    ensures key == slots[i].key && key != s.key && Find(slots, key) < i ==> Find(slots[i := s], key) == Find(slots, key)
  {
    var f := Find(slots, key);
    if key != slots[i].key && key != s.key {
      FindIs(slots[i := s], key, f);
    } else if key == s.key && slots[i].key != key {
      FindIs(slots[i := s], key, if i < f then i else f);
    } else if key == slots[i].key && key != s.key && f < i {
      FindIs(slots[i := s], key, f);
    }
  }

  /** What `_db_store` makes of the table. */
  function Stored(slots: seq<Slot>, key: seq<byte>, data: seq<byte>): seq<Slot> {
    var i := Find(slots, []);
    if i < |slots| then slots[i := Slot(key, data)] else slots
  }

  /** What `_db_remove` makes of the table. */
  function Removed(slots: seq<Slot>, key: seq<byte>): seq<Slot> {
    var i := Find(slots, key);
    if i < |slots| then slots[i := FREE] else slots
  }

  /** A store takes effect exactly when a free slot comes before the slots of its key; no other key is touched. */
  lemma StoreTakesEffectIff(slots: seq<Slot>, m: map<seq<byte>, seq<byte>>, key: seq<byte>, data: seq<byte>)
    requires key != [] && Represents(slots, m)
    ensures Represents(Stored(slots, key, data), if Find(slots, []) < Find(slots, key) then m[key := data] else m)
  {
    var free := Find(slots, []);
    var after := if free < Find(slots, key) then m[key := data] else m;
    forall k | k != []
      ensures Lookup(after, k) == FirstData(Stored(slots, key, data), k)
    {
      if free < |slots| {
        FindAfterWrite(slots, free, Slot(key, data), k);
      }
      assert Lookup(m, k) == FirstData(slots, k);
    }
  }

  /** Storing an absent key takes effect while there is room, and keeps the sessions distinct. */
  lemma StoreAbsent(slots: seq<Slot>, m: map<seq<byte>, seq<byte>>, key: seq<byte>, data: seq<byte>)
    requires key != [] && key !in m && Distinct(slots) && Represents(slots, m)
    ensures Distinct(Stored(slots, key, data))
    ensures Find(slots, []) < Find(slots, key) <==> |m| < |slots|
  {
    assert Lookup(m, key) == FirstData(slots, key) == None;
    CountFree(slots, m);
    FreeIff(slots);
  }

  /** The map after a removal: the key is gone, or stands for its next slot. */
  function Without(slots: seq<Slot>, m: map<seq<byte>, seq<byte>>, key: seq<byte>): map<seq<byte>, seq<byte>> {
    match FirstData(Removed(slots, key), key)
    case None => m - {key}
    case Some(next) => m[key := next]
  }

  /** Removing frees the key's first slot; no other key is touched. */
  lemma RemoveFirst(slots: seq<Slot>, m: map<seq<byte>, seq<byte>>, key: seq<byte>)
    requires key != [] && Represents(slots, m)
    ensures Represents(Removed(slots, key), Without(slots, m, key))
  {
    var t, i, after := Removed(slots, key), Find(slots, key), Without(slots, m, key);
    forall k | k != []
      ensures Lookup(after, k) == FirstData(t, k)
    {
      assert Lookup(m, k) == FirstData(slots, k);
      if k != key && i < |slots| {
        FindAfterWrite(slots, i, FREE, k);
      }
    }
  }

  ghost predicate Holds(slots: seq<Slot>, i: nat, key: seq<byte>) { i < |slots| && slots[i].key == key }

  /** A removal forgets the key exactly when no two slots hold it. */
  lemma RemoveForgetsIff(slots: seq<Slot>, key: seq<byte>)
    requires key != []
    ensures FirstData(Removed(slots, key), key) == None <==>
            forall i, j :: Holds(slots, i, key) && Holds(slots, j, key) ==> i == j
  {
    var t, i := Removed(slots, key), Find(slots, key);
    var next := Find(t, key);
    if next < |t| {
      assert Holds(slots, i, key) && Holds(slots, next, key) && i != next;
    } else {
      forall j: nat | Holds(slots, j, key)
        ensures j == i
      {
        assert j == i || Holds(t, j, key);
      }
    }
  }

  lemma FindAfterRemove(slots: seq<Slot>, key: seq<byte>)
    requires key != [] && Distinct(slots)
    ensures Find(Removed(slots, key), key) == |slots|
  {
    var t := Removed(slots, key);
    assert forall j :: 0 <= j < |t| ==> t[j].key != key;
    FindIs(t, key, |t|);
  }

  lemma RemoveKeepsDistinct(slots: seq<Slot>, key: seq<byte>)
    requires Distinct(slots)
    ensures Distinct(Removed(slots, key))
  {
  }

  /** With distinct sessions, removing is removing from the map. */
  lemma RemoveDistinct(slots: seq<Slot>, m: map<seq<byte>, seq<byte>>, key: seq<byte>)
    requires key != [] && Distinct(slots)
    ensures Distinct(Removed(slots, key)) && Without(slots, m, key) == m - {key}
  {
    RemoveKeepsDistinct(slots, key);
    FindAfterRemove(slots, key);
  }

  // ---------- Room ----------

  function Free(slots: seq<Slot>): nat {
    if slots == [] then 0 else Free(slots[..|slots| - 1]) + (if slots[|slots| - 1].key == [] then 1 else 0)
  }

  lemma {:induction false} FreeIff(slots: seq<Slot>)
    ensures Free(slots) > 0 <==> Find(slots, []) < |slots|
  {
    if slots != [] {
      var n := |slots| - 1;
      FreeIff(slots[..n]);
      var f := Find(slots[..n], []);
      if f < n {
        FindIs(slots, [], f);
      } else if slots[n].key == [] {
        FindIs(slots, [], n);
      } else {
        FindIs(slots, [], n + 1);
      }
    }
  }

  lemma FindInPrefix(slots: seq<Slot>, n: nat, k: seq<byte>)
    requires |slots| == n + 1
    ensures var f := Find(slots[..n], k);
      Find(slots, k) == if f < n then f else if slots[n].key == k then n else n + 1
  {
    var f := Find(slots[..n], k);
    FindIs(slots, k, if f < n then f else if slots[n].key == k then n else n + 1);
  }

  lemma RepresentsPrefix(slots: seq<Slot>, m: map<seq<byte>, seq<byte>>, n: nat)
    requires |slots| == n + 1 && Distinct(slots) && Represents(slots, m)
    ensures Represents(slots[..n], m - {slots[n].key})
    ensures slots[n].key != [] ==> slots[n].key in m
  {
    var last := slots[n].key;
    forall k | k != []
      ensures Lookup(m - {last}, k) == FirstData(slots[..n], k)
    {
      FindInPrefix(slots, n, k);
      assert Lookup(m, k) == FirstData(slots, k);
    }
    if last != [] {
      FindInPrefix(slots, n, last);
      assert Lookup(m, last) == FirstData(slots, last);
    }
  }

  /** Every slot is free or holds one session. */
  lemma {:induction false} CountFree(slots: seq<Slot>, m: map<seq<byte>, seq<byte>>)
    requires Distinct(slots) && Represents(slots, m)
    ensures |m| + Free(slots) == |slots|
  {
    if slots == [] {
      EmptyTable(m);
    } else {
      var n := |slots| - 1;
      var last := slots[n].key;
      RepresentsPrefix(slots, m, n);
      CountFree(slots[..n], m - {last});
      RemoveOne(m, last);
    }
  }

  lemma EmptyTable(m: map<seq<byte>, seq<byte>>)
    requires Represents([], m)
    ensures m == map[]
  {
    assert forall k :: k in m ==> Lookup(m, k) == FirstData([], k);
  }

  lemma RemoveOne(m: map<seq<byte>, seq<byte>>, k: seq<byte>)
    ensures |m - {k}| == if k in m then |m| - 1 else |m|
  {
    if k in m {
      assert m == (m - {k})[k := m[k]];
    } else {
      assert m - {k} == m;
    }
  }

  // ---------- The code ----------

  class Table {
    const slots: array<Slot>
    /** What is stored, as a map. */
    ghost var sessions: map<seq<byte>, seq<byte>>

    ghost predicate Valid()
      reads this, slots
    {
      slots.Length == SESSION_CACHE_MAX && Represents(slots[..], sessions)
    }

    constructor ()
      ensures Valid() && fresh(slots) && sessions == map[] && Distinct(slots[..])
    {
      slots := new Slot[SESSION_CACHE_MAX](_ => FREE);
      sessions := map[];
    }

    method FindSlot(key: seq<byte>) returns (i: nat)
      ensures i == Find(slots[..], key)
    {
      i := 0;
      while i < slots.Length && slots[i].key != key
        invariant i <= slots.Length && forall j :: 0 <= j < i ==> slots[j].key != key
      {
        i := i + 1;
      }
      FindIs(slots[..], key, i);
    }

    /**
     * A store takes effect exactly when a free slot comes before the slots of its
     * key. While only absent keys are stored, that is while there is room.
     */
    method Store(key: seq<byte>, data: seq<byte>)
      requires Valid() && key != []
      modifies this, slots
      ensures Valid()
      ensures sessions ==
        if old(Find(slots[..], [])) < old(Find(slots[..], key)) then old(sessions)[key := data] else old(sessions)
      ensures old(Distinct(slots[..])) && key !in old(sessions) ==>
        && Distinct(slots[..])
        && sessions == if |old(sessions)| < 64 then old(sessions)[key := data] else old(sessions)
    {
      ghost var before, m := slots[..], sessions;
      StoreTakesEffectIff(before, m, key, data);
      if Distinct(before) && key !in m {
        StoreAbsent(before, m, key, data);
      }
      var i := FindSlot([]);
      if i < slots.Length {
        slots[i] := Slot(key, data);
      }
      sessions := if Find(before, []) < Find(before, key) then m[key := data] else m;
      assert slots[..] == Stored(before, key, data);
    }

    method Retrieve(key: seq<byte>) returns (data: Option<seq<byte>>)
      requires Valid() && key != []
      ensures data == Lookup(sessions, key)
    {
      var i := FindSlot(key);
      assert Lookup(sessions, key) == FirstData(slots[..], key);
      data := if i < slots.Length then Some(slots[i].data) else None;
    }

    /** Frees the first slot of the key. Without duplicates that removes the key from the map. */
    method Remove(key: seq<byte>)
      requires Valid() && key != []
      modifies this, slots
      ensures Valid() && sessions == old(Without(slots[..], sessions, key))
      ensures old(Distinct(slots[..])) ==> Distinct(slots[..]) && sessions == old(sessions) - {key}
    {
      ghost var before, m := slots[..], sessions;
      RemoveFirst(before, m, key);
      if Distinct(before) {
        RemoveDistinct(before, m, key);
      }
      var i := FindSlot(key);
      if i < slots.Length {
        slots[i] := FREE;
      }
      sessions := Without(before, m, key);
      assert slots[..] == Removed(before, key);
    }
  }
}
