/** The server's code as it runs between two switches of thread: one request, or one pass over the queue. */
module CoapServer {
  import opened Common
  import opened Config
  import opened ResourceMethod
  import opened Server
  import BT = BlockTransfer
  import BC = BlockCache
  import Ring

  datatype Code = CONTINUE | INTERNAL_ERROR | OK | CONTENT(value: seq<byte>) | NOT_FOUND | NOT_ALLOWED | EMPTY

  /** What the two threads share, and how many requests have been processed. */
  datatype View = View(queue: seq<Item>, capacity: nat, cache: BT.Cache, resources: map<string, Resource>, handled: nat)

  // ---------- What one request and one pass do ----------

  function EnqueueNow(v: View, item: Item, success: Code): (View, Code) {
    if |v.queue| + 1 >= v.capacity then (v, INTERNAL_ERROR) else (v.(queue := v.queue + [item]), success)
  }

  function ServeNow(v: View, r: Request): (View, Code)
    requires r.uri in v.resources
  {
    var resource := v.resources[r.uri];
    if FindHandler(resource.kind.handlers, r.kind) == None then (v, NOT_ALLOWED)
    else if r.kind == PUT || r.kind == POST then
      var (cache, outcome) := BT.Step(v.cache, r.block);
      var w := v.(cache := cache);
      match outcome
      case Waiting => (w, CONTINUE)
      case Failed => (w, INTERNAL_ERROR)
      case Complete(body) => EnqueueNow(w, Item(r.uri, r.kind, body), OK)
    else if r.kind == GET then EnqueueNow(v, Item(r.uri, GET, resource.value), CONTENT(resource.value))
    else (v, EMPTY)
  }

  function HandleNow(setup: Setup, v: View, r: Request): (View, Code) {
    if r.uri in v.resources then ServeNow(v, r)
    else match FindPattern(setup, setup.patterns, r.uri)
      case None => (v, NOT_FOUND)
      case Some(p) =>
        if FindHandler(p.kind.handlers, r.kind) == None then (v, NOT_ALLOWED)
        else if !Attachable(p.kind.handlers) then (v, INTERNAL_ERROR)
        else ServeNow(v.(resources := v.resources[r.uri := NewResource(p)]), r)
  }

  function ProcessNow(setup: Setup, v: View, item: Item): View {
    var w := v.(handled := v.handled + 1);
    if item.uri !in v.resources then w
    else
      var r := v.resources[item.uri];
      w.(resources := v.resources[item.uri := r.(value := Effect(setup, r.kind, item.uri, r.value, item, v.handled))])
  }

  function DrainNow(setup: Setup, v: View): View
    decreases |v.queue|
  {
    if v.queue == [] then v else DrainNow(setup, ProcessNow(setup, v.(queue := v.queue[1..]), v.queue[0]))
  }

  // ---------- Their branches ----------

  /** Where an item goes: into the queue while there is room, else nowhere. */
  ghost predicate Tried(v: View, w: View, item: Item, success: Code, code: Code) {
    if |v.queue| < v.capacity - 1
    then w == v.(queue := v.queue + [item], cache := w.cache) && code == success
    else w == v.(cache := w.cache) && code == INTERNAL_ERROR
  }

  /** A request to an attached resource, branch by branch. */
  lemma ServeNowIs(v: View, r: Request)
    requires r.uri in v.resources
    ensures var (w, code) := ServeNow(v, r);
      var k, value := v.resources[r.uri].kind, v.resources[r.uri].value;
      if NoHandler(k.handlers, r.kind) then w == v && code == NOT_ALLOWED
      else match r.kind
        case GET => Tried(v, w, Item(r.uri, GET, value), CONTENT(value), code) && w.cache == v.cache
        case PUT | POST =>
          var (cache, outcome) := BT.Step(v.cache, r.block);
          && w.cache == cache
          && (match outcome
              case Waiting => w == v.(cache := cache) && code == CONTINUE
              case Failed => w == v.(cache := cache) && code == INTERNAL_ERROR
              case Complete(body) => Tried(v, w, Item(r.uri, r.kind, body), OK, code))
        case _ => w == v && code == EMPTY
  {
    FindHandlerIs(v.resources[r.uri].kind.handlers, r.kind);
  }

  /** A request for any path, branch by branch. */
  lemma HandleNowIs(setup: Setup, v: View, r: Request)
    ensures r.uri in v.resources ==> HandleNow(setup, v, r) == ServeNow(v, r)
    ensures r.uri !in v.resources && NoMatch(setup, setup.patterns, r.uri) ==> HandleNow(setup, v, r) == (v, NOT_FOUND)
    ensures forall j: nat :: r.uri !in v.resources && FirstMatch(setup, setup.patterns, r.uri, j) ==>
      var k := setup.patterns[j].kind;
      HandleNow(setup, v, r) ==
        if NoHandler(k.handlers, r.kind) then (v, NOT_ALLOWED)
        else if exists h :: h in k.handlers && h.kind != GET && h.kind != PUT && h.kind != POST then (v, INTERNAL_ERROR)
        else ServeNow(v.(resources := v.resources[r.uri := Resource(k, k.initialValue)]), r)
  {
    FindPatternIs(setup, setup.patterns, r.uri);
    forall j: nat | r.uri !in v.resources && FirstMatch(setup, setup.patterns, r.uri, j)
      ensures FindPattern(setup, setup.patterns, r.uri) == Some(setup.patterns[j])
      ensures FindHandler(setup.patterns[j].kind.handlers, r.kind) == None <==>
              NoHandler(setup.patterns[j].kind.handlers, r.kind)
    {
      OneFirstMatch(setup, r.uri, j);
      FindHandlerIs(setup.patterns[j].kind.handlers, r.kind);
    }
  }

  /** NOT_FOUND is the answer exactly without a resource and a match; a new resource is its first matching pattern's. */
  lemma HandleNowFinds(setup: Setup, v: View, r: Request)
    ensures var (w, code) := HandleNow(setup, v, r);
      && (code == NOT_FOUND <==> r.uri !in v.resources && NoMatch(setup, setup.patterns, r.uri))
      && (code == NOT_FOUND ==> w == v)
      && (r.uri !in v.resources && r.uri in w.resources ==> Matched(setup, r.uri, w.resources[r.uri]))
  {
    FindPatternIs(setup, setup.patterns, r.uri);
    if k: nat :| FirstMatch(setup, setup.patterns, r.uri, k)
                 && FindPattern(setup, setup.patterns, r.uri).value == setup.patterns[k] {
      assert MatchedAt(setup, r.uri, NewResource(setup.patterns[k]), k);
    }
  }

  ghost predicate MatchedAt(setup: Setup, uri: string, made: Resource, k: nat) {
    && FirstMatch(setup, setup.patterns, uri, k)
    && made == Resource(setup.patterns[k].kind, setup.patterns[k].kind.initialValue)
  }

  ghost predicate Matched(setup: Setup, uri: string, made: Resource) {
    exists k: nat :: MatchedAt(setup, uri, made, k)
  }

  lemma OneFirstMatch(setup: Setup, uri: string, j: nat)
    requires FirstMatch(setup, setup.patterns, uri, j)
    ensures FindPattern(setup, setup.patterns, uri) == Some(setup.patterns[j])
  {
    FindPatternIs(setup, setup.patterns, uri);
    var k: nat :| FirstMatch(setup, setup.patterns, uri, k)
                  && FindPattern(setup, setup.patterns, uri).value == setup.patterns[k];
    assert !(k < j) && !(j < k);
  }

  /** One processed item: the value of its resource is what the item's method stores, if it stores. */
  lemma ProcessNowIs(setup: Setup, v: View, item: Item)
    ensures var w := ProcessNow(setup, v, item);
      && w.handled == v.handled + 1 && w.queue == v.queue && w.cache == v.cache && w.capacity == v.capacity
      && w.resources.Keys == v.resources.Keys
      && forall u :: u in v.resources ==>
           && w.resources[u].kind == v.resources[u].kind
           && (u != item.uri || NoHandler(v.resources[u].kind.handlers, item.kind) ==> w.resources[u] == v.resources[u])
    ensures item.uri in v.resources ==>
      forall k: nat :: FirstHandler(v.resources[item.uri].kind.handlers, item.kind, k) ==>
        ItemStores(v.resources[item.uri].kind.handlers[k], setup.exec, v.handled, item.data,
                   v.resources[item.uri].value, ProcessNow(setup, v, item).resources[item.uri].value)
  {
    if item.uri in v.resources {
      var handlers := v.resources[item.uri].kind.handlers;
      FindHandlerIs(handlers, item.kind);
      forall k: nat | FirstHandler(handlers, item.kind, k)
        ensures FindHandler(handlers, item.kind) == Some(handlers[k])
        ensures StoreTells(handlers[k], setup.exec, v.handled, item.data,
                           Stored(handlers[k], setup.exec, v.handled, item.data))
      {
        OneFirstHandler(handlers, item.kind, k);
        StoredIs(handlers[k], setup.exec, v.handled, item.data);
      }
    }
  }

  lemma OneFirstHandler(handlers: seq<Handler>, kind: MethodType, j: nat)
    requires FirstHandler(handlers, kind, j)
    ensures FindHandler(handlers, kind) == Some(handlers[j])
  {
    FindHandlerIs(handlers, kind);
    var k: nat :| FirstHandler(handlers, kind, k) && FindHandler(handlers, kind).value == handlers[k];
    assert !(k < j) && !(j < k);
  }

  /** The value is what the method stores, or stays. */
  ghost predicate ItemStores(h: Handler, exec: Exec, n: nat, data: seq<byte>, before: seq<byte>, after: seq<byte>) {
    StoreTells(h, exec, n, data, Some(after)) || (StoreTells(h, exec, n, data, None) && after == before)
  }

  /** A pass over the queue processes every item, oldest first, and leaves an empty queue. */
  lemma {:induction false} DrainNowIs(setup: Setup, v: View)
    ensures var w := DrainNow(setup, v);
      && w.queue == [] && w.handled == v.handled + |v.queue|
      && w.cache == v.cache && w.capacity == v.capacity && w.resources.Keys == v.resources.Keys
    ensures forall first, rest :: v.queue == [first] + rest ==>
      DrainNow(setup, v) == DrainNow(setup, ProcessNow(setup, v.(queue := rest), first))
    decreases |v.queue|
  {
    if v.queue != [] {
      var first, rest := v.queue[0], v.queue[1..];
      ProcessNowIs(setup, v.(queue := rest), first);
      DrainNowIs(setup, ProcessNow(setup, v.(queue := rest), first));
      assert forall f, r :: v.queue == [f] + r ==> f == first && r == rest;
    }
  }

  // ---------- The code ----------

  method FindHandlerInOrder(handlers: seq<Handler>, kind: MethodType) returns (h: Option<Handler>)
    ensures h == FindHandler(handlers, kind)
    ensures h == None <==> forall j :: 0 <= j < |handlers| ==> handlers[j].kind != kind
    ensures h.Some? ==> exists k: nat :: FirstHandler(handlers, kind, k) && h.value == handlers[k]
  {
    FindHandlerIs(handlers, kind);
    var i := 0;
    assert handlers[0..] == handlers;
    while i < |handlers|
      invariant i <= |handlers| && FindHandler(handlers, kind) == FindHandler(handlers[i..], kind)
    {
      if handlers[i].kind == kind {
        return Some(handlers[i]);
      }
      assert handlers[i..][1..] == handlers[i + 1..];
      i := i + 1;
    }
    return None;
  }

  method FindPatternInOrder(setup: Setup, uri: string) returns (p: Option<Pattern>)
    ensures p == FindPattern(setup, setup.patterns, uri)
    ensures p == None <==> forall j :: 0 <= j < |setup.patterns| ==> !setup.matches(setup.patterns[j].path, uri)
    ensures p.Some? ==> exists k: nat :: FirstMatch(setup, setup.patterns, uri, k) && p.value == setup.patterns[k]
  {
    FindPatternIs(setup, setup.patterns, uri);
    var i, patterns := 0, setup.patterns;
    assert patterns[0..] == patterns;
    while i < |patterns|
      invariant i <= |patterns| && FindPattern(setup, patterns, uri) == FindPattern(setup, patterns[i..], uri)
    {
      if setup.matches(patterns[i].path, uri) {
        return Some(patterns[i]);
      }
      assert patterns[i..][1..] == patterns[i + 1..];
      i := i + 1;
    }
    return None;
  }

  class CoAPServer {
    const setup: Setup
    const queue: Ring.RequestQueue<Item>
    const cache: BC.SessionCache
    var resources: map<string, Resource>
    var handled: nat

    ghost predicate Valid()
      reads this, queue, queue.items, cache, cache.made
    {
      queue.Valid() && cache.Valid()
    }

    ghost function Now(): View
      requires Valid()
      reads this, queue, queue.items, cache, cache.made
    {
      View(queue.Contents(), queue.maxSize, cache.cache, resources, handled)
    }

    constructor (setup: Setup, size: nat, resources: map<string, Resource>)
      requires 0 < size && 2 * size <= SIZE_T
      ensures Valid() && this.setup == setup && Now() == View([], size, map[], resources, 0)
      ensures fresh(queue) && fresh(queue.items) && fresh(cache) && fresh(cache.made)
    {
      this.setup, this.resources, handled := setup, resources, 0;
      queue := new Ring.RequestQueue<Item>(size);
      cache := new BC.SessionCache();
    }

    method Enqueue(item: Item, success: Code) returns (code: Code)
      requires Valid()
      modifies queue, queue.items
      ensures Valid() && (Now(), code) == EnqueueNow(old(Now()), item, success)
    {
      var status := queue.Enqueue(item);
      code := if status != 0 then INTERNAL_ERROR else success;
    }

    /** A request that the library routes to an attached resource. */
    method HandleCoAPRequest(r: Request) returns (code: Code)
      requires Valid() && r.uri in resources && r.block.WellFormed()
      modifies queue, queue.items, cache, cache.made
      ensures Valid() && fresh(cache.made - old(cache.made))
      ensures (Now(), code) == ServeNow(old(Now()), r)
    {
      var resource := resources[r.uri];
      var h := FindHandlerInOrder(resource.kind.handlers, r.kind);
      if h == None {
        return NOT_ALLOWED;
      }
      match r.kind {
        case PUT | POST =>
          var ret, data := cache.SessionGetData(r.block);
          if ret == 0 {
            return CONTINUE;
          } else if ret < 0 {
            return INTERNAL_ERROR;
          }
          code := Enqueue(Item(r.uri, r.kind, data), OK);
        case GET =>
          code := Enqueue(Item(r.uri, GET, resource.value), CONTENT(resource.value));
        case _ =>
          return EMPTY;
      }
    }

    /** A request for any path; one without a resource is what `handleDynamicRequest` gets. */
    method HandleRequest(r: Request) returns (code: Code)
      requires Valid() && r.block.WellFormed()
      modifies this`resources, queue, queue.items, cache, cache.made
      ensures Valid() && fresh(cache.made - old(cache.made))
      ensures (Now(), code) == HandleNow(setup, old(Now()), r)
      ensures code == NOT_FOUND <==> r.uri !in old(resources) && NoMatch(setup, setup.patterns, r.uri)
      ensures code == NOT_FOUND ==> Now() == old(Now())
      ensures r.uri !in old(resources) && r.uri in resources ==> Matched(setup, r.uri, resources[r.uri])
    {
      HandleNowFinds(setup, Now(), r);
      if r.uri !in resources {
        var error := CreateResource(r);
        if error != None {
          return error.value;
        }
      }
      code := HandleCoAPRequest(r);
    }

    /** Makes the resource of a path from its first matching pattern, or says which error to answer. */
    method CreateResource(r: Request) returns (error: Option<Code>)
      requires Valid() && r.uri !in resources
      modifies this`resources
      ensures Valid()
      ensures error.Some? ==> resources == old(resources) && HandleNow(setup, old(Now()), r) == (old(Now()), error.value)
      ensures error == None ==> r.uri in resources && HandleNow(setup, old(Now()), r) == ServeNow(Now(), r)
    {
      var p := FindPatternInOrder(setup, r.uri);
      if p == None {
        return Some(NOT_FOUND);
      }
      var h := FindHandlerInOrder(p.value.kind.handlers, r.kind);
      if h == None {
        return Some(NOT_ALLOWED);
      }
      for i := 0 to |p.value.kind.handlers|
        invariant forall j :: 0 <= j < i ==> p.value.kind.handlers[j].kind in {GET, PUT, POST}
      {
        if p.value.kind.handlers[i].kind !in {GET, PUT, POST} {
          return Some(INTERNAL_ERROR);
        }
      }
      resources := resources[r.uri := NewResource(p.value)];
      return None;
    }

    /** One pass of the queue thread's inner loop. */
    method DrainQueue()
      requires Valid()
      modifies this`resources, this`handled, queue
      ensures Valid() && Now() == DrainNow(setup, old(Now()))
      ensures queue.Contents() == [] && handled == old(handled) + |old(queue.Contents())|
    {
      DrainNowIs(setup, Now());
      var n := queue.Count();
      while n > 0
        invariant Valid() && n == |Now().queue| && DrainNow(setup, Now()) == DrainNow(setup, old(Now()))
        decreases |Now().queue|
      {
        ghost var before := Now();
        var item := queue.Dequeue();
        assert before.queue[0] == item.value && before.queue[1..] == queue.Contents();
        ProcessItem(item.value);
        assert Now() == ProcessNow(setup, before.(queue := before.queue[1..]), before.queue[0]);
        n := queue.Count();
      }
    }

    method ProcessItem(item: Item)
      requires Valid()
      modifies this`resources, this`handled
      ensures Valid() && Now() == ProcessNow(setup, old(Now()), item)
    {
      if item.uri in resources {
        var resource := resources[item.uri];
        var h := FindHandlerInOrder(resource.kind.handlers, item.kind);
        if h != None {
          var stored, lines := HandleRequestQueueItem(h.value, setup.exec, handled, item.data);
          if stored != None {
            resources := resources[item.uri := resource.(value := stored.value)];
          }
        }
        assert resource.(value := resource.value) == resource;
      }
      handled := handled + 1;
    }
  }
}
