/**
 * The block cache as the code keeps it: a table from cache keys to reassembly
 * buffers on the heap, which are allocated, filled in place and freed by hand.
 */
module BlockCache {
  import opened Common
  import opened BlockTransfer

  /** A reassembly buffer, allocated for one cache key. */
  class Body {
    var bytes: seq<byte>
    ghost const key: Key
    ghost var freed: bool

    constructor (ghost key: Key)
      ensures bytes == [] && this.key == key && !freed
    {
      bytes := [];
      this.key := key;
      freed := false;
    }
  }

  /** `delete`: its precondition is that the buffer has not been freed before. */
  method Free(b: Body)
    requires !b.freed
    modifies b`freed
    ensures b.freed
  {
    b.freed := true;
  }

  class SessionCache {
    /** An entry without a buffer keeps a null pointer. */
    var entries: map<Key, Body?>
    /** What the entries hold, as a value. */
    ghost var cache: Cache
    /** Every buffer ever allocated. */
    ghost var made: set<Body>

    ghost predicate EntryValid(k: Key)
      requires k in entries && k in cache
      reads this, made
    {
      var b := entries[k];
      if b == null then cache[k] == Released
      else b in made && !b.freed && b.key == k && cache[k] == Buffering(b.bytes)
    }

    /** Every buffer ever allocated has been freed, or is owned by exactly one entry. */
    ghost predicate Valid()
      reads this, made
    {
      && cache.Keys == entries.Keys
      && (forall k :: k in entries ==> EntryValid(k))
      && (forall b :: b in made && !b.freed ==> b.key in entries && entries[b.key] == b)
    }

    constructor ()
      ensures Valid() && cache == map[] && made == {}
    {
      entries, cache, made := map[], map[], {};
    }

    /** A new buffer for a key that has none. */
    method Allocate(key: Key) returns (b: Body)
      requires Valid() && (key in entries ==> entries[key] == null)
      modifies this
      ensures Valid() && old(made) <= made && fresh(made - old(made))
      ensures key in entries && entries[key] == b && b in made && cache == old(cache)[key := Buffering([])]
    {
      b := new Body(key);
      made := made + {b};
      entries, cache := entries[key := b], cache[key := Buffering([])];
    }

    /** Replaces the bytes of a key's buffer; no other entry sees the change. */
    method Fill(key: Key, bytes: seq<byte>)
      requires Valid() && key in entries && entries[key] != null
      modifies this`cache, made
      ensures Valid() && cache == old(cache)[key := Buffering(bytes)]
    {
      entries[key].bytes := bytes;
      cache := cache[key := Buffering(bytes)];
    }

    /** Takes the buffer of a key and frees it; the entry stays behind without one. */
    method TakeBody(key: Key) returns (body: Option<seq<byte>>)
      requires Valid() && key in entries
      modifies this`entries, this`cache, made
      ensures Valid() && cache == old(cache)[key := Released]
      ensures body == match old(cache)[key] case Released => None case Buffering(bytes) => Some(bytes)
    {
      var b := entries[key];
      entries, cache := entries[key := null], cache[key := Released];
      if b == null {
        return None;
      }
      body := Some(b.bytes);
      Free(b);
    }

    /** Finds, restarts or makes the entry a block belongs to. */
    method OpenEntry(b: Block) returns (ok: bool)
      requires Valid()
      modifies this, made
      ensures Valid() && old(made) <= made && fresh(made - old(made))
      ensures var entry := Open(old(Lookup(cache, b.key)), b);
        && ok == entry.Some?
        && cache == if ok then old(cache)[b.key := entry.value] else old(cache)
      ensures ok <==> b.key in old(cache) || (b.offset == 0 && b.canCache)
      ensures ok ==> cache == if b.offset == 0 then old(cache)[b.key := Buffering([])] else old(cache)
    {
      if b.key !in entries {
        if b.offset != 0 || !b.canCache {
          return false;
        }
        var body := Allocate(b.key);
      } else if b.offset == 0 {
        var body := entries[b.key];
        if body != null {
          Fill(b.key, []);
        } else {
          body := Allocate(b.key);
        }
      }
      return true;
    }

    /** `status` is 0 while more blocks are needed, 1 with a whole body in `dataOut`, -1 on an error. */
    method SessionGetData(b: Block) returns (status: int, dataOut: seq<byte>)
      requires Valid() && b.WellFormed()
      modifies this, made
      ensures Valid() && old(made) <= made && fresh(made - old(made))
      ensures var (after, outcome) := Step(old(cache), b);
        && cache == after
        && status == (match outcome case Waiting => 0 case Complete(_) => 1 case Failed => -1)
        && (outcome.Complete? ==> dataOut == outcome.body)
      ensures !b.hasData || |b.data| == b.total ==> status == 1 && dataOut == b.data && cache == old(cache)
      ensures b.Blockwise() && b.key !in old(cache) && (b.offset != 0 || !b.canCache) ==>
        status == -1 && cache == old(cache)
    {
      dataOut := [];
      if !b.hasData || |b.data| == b.total {
        return 1, b.data;
      }
      var ok := OpenEntry(b);
      if !ok {
        return -1, dataOut;
      }
      if |b.data| != 0 {
        assert EntryValid(b.key);
        var body := entries[b.key];
        if body == null {
          return -1, dataOut;
        }
        Fill(b.key, Overlay(Resize(body.bytes, b.total), b.offset, b.data));
      }
      if b.offset + |b.data| == b.total {
        var body := TakeBody(b.key);
        if body == None {
          return -1, dataOut;
        }
        return 1, body.value;
      }
      return 0, dataOut;
    }

    /** The library drops an entry and hands its buffer to the free callback; `delete` of null does nothing. */
    method Expire(key: Key)
      requires Valid() && key in entries
      modifies this`entries, this`cache, made
      ensures Valid() && cache == old(cache) - {key}
    {
      var body := TakeBody(key);
      entries, cache := entries - {key}, cache - {key};
    }
  }
}
