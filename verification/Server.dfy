/**
 * The whole server: the server thread answers requests and puts accepted ones in
 * the ring, the queue thread takes them out and stores values. Every access to
 * the ring, every read of a resource's value and every store is a step of its own.
 */
module Server {
  import opened Common
  import opened Config
  import opened ResourceMethod
  import BT = BlockTransfer
  import RM = RingMachine

  /** A queued request: the resource and method it came through, and its data. */
  datatype Item = Item(uri: string, kind: MethodType, data: seq<byte>)

  /** What a resource is configured to be. */
  datatype Kind = Kind(handlers: seq<Handler>, initialValue: seq<byte>)

  datatype Resource = Resource(kind: Kind, value: seq<byte>)

  /** A dynamic resource: a pattern of paths and what a matching path gets. */
  datatype Pattern = Pattern(path: string, kind: Kind)

  /** What does not change during a run. `matches` is the regular-expression match. */
  datatype Setup = Setup(patterns: seq<Pattern>, matches: (string, string) -> bool, exec: Exec)

  /** A request; `block` is its payload as the library presents it. */
  datatype Request = Request(uri: string, kind: MethodType, block: BT.Block)

  /** A request, and how many requests had been processed when it arrived. */
  datatype Arrival = Arrival(request: Request, processed: nat)

  /**
   * The answers; `Empty` is a response the handler leaves as it found it. A
   * `Content` answer also records the item queued for it and how many requests had
   * been processed at each of its two reads of the value.
   */
  datatype Answer =
    | NotFound
    | NotAllowed
    | AttachFailed
    | Continue
    | BadBlock
    | Empty
    | Refused(item: Item)
    | Accepted(item: Item)
    | Content(item: Item, value: seq<byte>, seen: nat, seenAgain: nat)

  /** What the server thread is doing. A GET reads the value once for its answer and once for the queue. */
  datatype Pending =
    | Quiet
    | SecondRead(uri: string, value: seq<byte>, seen: nat)
    | EnqueuingGet(value: seq<byte>, seen: nat, seenAgain: nat)
    | EnqueuingUpload

  /**
   * The last four fields are histories; no step reads them to decide what to do.
   * Requests are handled one at a time, so `log[i]` answers `arrivals[i]`.
   */
  datatype State = State(
    ring: RM.State<Item>, cache: BT.Cache, resources: imap<string, Resource>, pending: Pending,
    created: seq<string>, arrivals: seq<Arrival>, log: seq<Answer>, processed: seq<Item>)

  datatype Action = Arrive(request: Request) | ServerStep | QueueStep

  // ---------- Looking things up ----------

  /** The first handler of the kind. */
  function FindHandler(handlers: seq<Handler>, kind: MethodType): Option<Handler> {
    if handlers == [] then None
    else if handlers[0].kind == kind then Some(handlers[0])
    else FindHandler(handlers[1..], kind)
  }

  /** The first pattern that matches the path. */
  function FindPattern(setup: Setup, patterns: seq<Pattern>, uri: string): Option<Pattern> {
    if patterns == [] then None
    else if setup.matches(patterns[0].path, uri) then Some(patterns[0])
    else FindPattern(setup, patterns[1..], uri)
  }

  /** Handler `k` is the first of the kind. */
  ghost predicate FirstHandler(handlers: seq<Handler>, kind: MethodType, k: nat) {
    k < |handlers| && handlers[k].kind == kind && forall j :: 0 <= j < k ==> handlers[j].kind != kind
  }

  ghost predicate NoHandler(handlers: seq<Handler>, kind: MethodType) {
    forall j :: 0 <= j < |handlers| ==> handlers[j].kind != kind
  }

  lemma {:induction false} FindHandlerIs(handlers: seq<Handler>, kind: MethodType)
    ensures FindHandler(handlers, kind) == None <==> NoHandler(handlers, kind)
    ensures FindHandler(handlers, kind).Some? ==>
              exists k: nat :: FirstHandler(handlers, kind, k) && FindHandler(handlers, kind).value == handlers[k]
  {
    if handlers != [] {
      if handlers[0].kind == kind {
        assert FirstHandler(handlers, kind, 0);
      } else {
        var rest := handlers[1..];
        FindHandlerIs(rest, kind);
        if k: nat :| FirstHandler(rest, kind, k) && FindHandler(rest, kind).value == rest[k] {
          assert FirstHandler(handlers, kind, k + 1);
        } else {
          assert forall j :: 0 < j < |handlers| ==> handlers[j] == rest[j - 1];
        }
      }
    }
  }

  /** Pattern `k` is the first that matches the path. */
  ghost predicate FirstMatch(setup: Setup, patterns: seq<Pattern>, uri: string, k: nat) {
    && k < |patterns| && setup.matches(patterns[k].path, uri)
    && forall j :: 0 <= j < k ==> !setup.matches(patterns[j].path, uri)
  }

  ghost predicate NoMatch(setup: Setup, patterns: seq<Pattern>, uri: string) {
    forall j :: 0 <= j < |patterns| ==> !setup.matches(patterns[j].path, uri)
  }

  lemma {:induction false} FindPatternIs(setup: Setup, patterns: seq<Pattern>, uri: string)
    ensures FindPattern(setup, patterns, uri) == None <==> NoMatch(setup, patterns, uri)
    ensures FindPattern(setup, patterns, uri).Some? ==>
              exists k: nat ::
                FirstMatch(setup, patterns, uri, k) && FindPattern(setup, patterns, uri).value == patterns[k]
  {
    if patterns != [] {
      if setup.matches(patterns[0].path, uri) {
        assert FirstMatch(setup, patterns, uri, 0);
      } else {
        var rest := patterns[1..];
        FindPatternIs(setup, rest, uri);
        if k: nat :| FirstMatch(setup, rest, uri, k) && FindPattern(setup, rest, uri).value == rest[k] {
          assert FirstMatch(setup, patterns, uri, k + 1);
        } else {
          assert forall j :: 0 < j < |patterns| ==> patterns[j] == rest[j - 1];
        }
      }
    }
  }

  /** Handlers can be registered for three kinds only. */
  predicate Attachable(handlers: seq<Handler>) {
    forall j :: 0 <= j < |handlers| ==> handlers[j].kind in {GET, PUT, POST}
  }

  function NewResource(p: Pattern): Resource { Resource(p.kind, p.kind.initialValue) }

  // ---------- The server thread ----------

  ghost function Received(s: State, r: Request): State { s.(arrivals := s.arrivals + [Arrival(r, |s.processed|)]) }

  ghost function Answering(s: State, a: Answer): State { s.(log := s.log + [a], pending := Quiet) }

  /** Entering `enqueue`. */
  ghost function Submit(s: State, item: Item): RM.State<Item> { s.ring.(prod := RM.Test(item)) }

  /** A request for a path that has a resource. */
  ghost function Serve(s: State, r: Request): State
    requires r.uri in s.resources
  {
    var resource := s.resources[r.uri];
    if FindHandler(resource.kind.handlers, r.kind) == None then Answering(s, NotAllowed)
    else if r.kind == PUT || r.kind == POST then
      var (cache, outcome) := BT.Step(s.cache, r.block);
      var t := s.(cache := cache);
      match outcome
      case Waiting => Answering(t, Continue)
      case Failed => Answering(t, BadBlock)
      case Complete(body) => t.(ring := Submit(t, Item(r.uri, r.kind, body)), pending := EnqueuingUpload)
    else if r.kind == GET then s.(pending := SecondRead(r.uri, resource.value, |s.processed|))
    else Answering(s, Empty)
  }

  ghost function Created(s: State, uri: string, p: Pattern): State {
    s.(resources := s.resources[uri := NewResource(p)], created := s.created + [uri])
  }

  /** A request for any path: one without a resource may get one from the first matching pattern. */
  ghost function Handle(setup: Setup, s: State, r: Request): State {
    if r.uri in s.resources then Serve(s, r)
    else match FindPattern(setup, setup.patterns, r.uri)
      case None => Answering(s, NotFound)
      case Some(p) =>
        if FindHandler(p.kind.handlers, r.kind) == None then Answering(s, NotAllowed)
        else if !Attachable(p.kind.handlers) then Answering(s, AttachFailed)
        else Serve(Created(s, r.uri, p), r)
  }

  /** One step of `enqueue`, after which the ring is `ring`; leaving it without having published is a refusal. */
  ghost function EnqueueStep(s: State, ring: RM.State<Item>): State {
    var t := s.(ring := ring);
    match s.ring.prod
    case Test(item) => if ring.prod.Idle? then Answering(t, Refused(item)) else t
    case Reset(item) =>
      if s.pending.EnqueuingGet? then Answering(t, Content(item, s.pending.value, s.pending.seen, s.pending.seenAgain))
      else Answering(t, Accepted(item))
    case _ => t
  }

  ghost function ServerMove(s: State): State {
    match s.pending
    case Quiet => s
    case SecondRead(uri, value, seen) =>
      if uri in s.resources
      then
        s.(ring := Submit(s, Item(uri, GET, s.resources[uri].value)), pending := EnqueuingGet(value, seen, |s.processed|))
      else s
    case _ => EnqueueStep(s, RM.Step(s.ring, RM.ProducerStep))
  }

  // ---------- The queue thread ----------

  /** The value a resource has after one more processed item, the `n`-th. */
  function Effect(setup: Setup, k: Kind, uri: string, value: seq<byte>, item: Item, n: nat): seq<byte> {
    if item.uri != uri then value
    else match FindHandler(k.handlers, item.kind)
      case None => value
      case Some(h) => Stored(h, setup.exec, n, item.data).GetOr(value)
  }

  /** The value of a resource after the first `n` processed items. */
  ghost function Value(setup: Setup, k: Kind, uri: string, items: seq<Item>, n: nat): seq<byte>
    requires n <= |items|
  {
    if n == 0 then k.initialValue
    else Effect(setup, k, uri, Value(setup, k, uri, items, n - 1), items[n - 1], n - 1)
  }

  ghost function Process(setup: Setup, s: State, item: Item): State {
    var t := s.(processed := s.processed + [item]);
    if item.uri !in s.resources then t
    else
      var r := s.resources[item.uri];
      t.(resources := s.resources[item.uri := r.(value := Effect(setup, r.kind, item.uri, r.value, item, |s.processed|))])
  }

  /** One step of the queue thread, after which the ring is `ring`. */
  ghost function DequeueStep(setup: Setup, s: State, ring: RM.State<Item>): State {
    (if s.ring.cons.Handle? then Process(setup, s, s.ring.cons.x) else s).(ring := ring)
  }

  ghost function QueueMove(setup: Setup, s: State): State { DequeueStep(setup, s, RM.Step(s.ring, RM.ConsumerStep)) }

  // ---------- Runs ----------

  ghost function Step(setup: Setup, s: State, a: Action): State {
    match a
    case Arrive(r) => if s.pending.Quiet? then Handle(setup, Received(s, r), r) else s
    case ServerStep => ServerMove(s)
    case QueueStep => QueueMove(setup, s)
  }

  ghost function Run(setup: Setup, s: State, actions: seq<Action>): State
    decreases |actions|
  {
    if actions == [] then s else Run(setup, Step(setup, s, actions[0]), actions[1..])
  }

  /** No item is published on the strength of a full test that was misled. */
  ghost predicate SafeStep(s: State, a: Action) { a.ServerStep? ==> RM.SafeStep(s.ring, RM.ProducerStep) }

  ghost predicate SafeRun(setup: Setup, s: State, actions: seq<Action>)
    decreases |actions|
  {
    actions != [] ==> SafeStep(s, actions[0]) && SafeRun(setup, Step(setup, s, actions[0]), actions[1..])
  }

  /** A started server: the static resources hold their initial values. */
  ghost predicate Initial(s: State) {
    && s.ring.mem.Usable() && s.ring == RM.Init(s.ring.mem.slots)
    && s.pending.Quiet? && s.cache == map[]
    && s.created == [] && s.arrivals == [] && s.log == [] && s.processed == []
    && forall u :: u in s.resources ==> s.resources[u].value == s.resources[u].kind.initialValue
  }

  // ---------- Histories ----------

  /** The items of the answers that promise processing: OK for an upload, CONTENT for a GET. */
  ghost function Promised(log: seq<Answer>, n: nat): seq<Item>
    requires n <= |log|
  {
    if n == 0 then [] else
      Promised(log, n - 1) + (if log[n - 1].Accepted? || log[n - 1].Content? then [log[n - 1].item] else [])
  }

  /** The answers to uploads whose block went through reassembly. */
  predicate IsVerdict(a: Answer) { a.Continue? || a.BadBlock? || a.Accepted? || (a.Refused? && a.item.kind != GET) }

  /** What such an answer says of the block. An accepted or refused body was complete. */
  function Verdict(a: Answer): BT.Outcome
    requires IsVerdict(a)
  {
    match a
    case Continue => BT.Waiting
    case BadBlock => BT.Failed
    case _ => BT.Complete(a.item.data)
  }

  /** What the first `n` answers say of their blocks. */
  ghost function Verdicts(log: seq<Answer>, n: nat): seq<BT.Outcome>
    requires n <= |log|
  {
    if n == 0 then [] else Verdicts(log, n - 1) + (if IsVerdict(log[n - 1]) then [Verdict(log[n - 1])] else [])
  }

  /** The blocks those answers are about. */
  ghost function Judged(arrivals: seq<Arrival>, log: seq<Answer>, n: nat): seq<BT.Block>
    requires n <= |log| && n <= |arrivals|
  {
    if n == 0 then [] else
      Judged(arrivals, log, n - 1) + (if IsVerdict(log[n - 1]) then [arrivals[n - 1].request.block] else [])
  }

  lemma {:induction false} LogAppend(log: seq<Answer>, a: Answer, n: nat)
    requires n <= |log|
    ensures Promised(log + [a], n) == Promised(log, n) && Verdicts(log + [a], n) == Verdicts(log, n)
  {
    if n > 0 {
      LogAppend(log, a, n - 1);
    }
  }

  lemma {:induction false} JudgedPrefix(
    arrivals: seq<Arrival>, log: seq<Answer>, all: seq<Arrival>, more: seq<Answer>, n: nat)
    requires n <= |log| && n <= |arrivals| && arrivals <= all && log <= more
    ensures Judged(all, more, n) == Judged(arrivals, log, n)
  {
    if n > 0 {
      JudgedPrefix(arrivals, log, all, more, n - 1);
    }
  }

  lemma {:induction false} ValuePrefix(setup: Setup, k: Kind, uri: string, items: seq<Item>, more: seq<Item>, n: nat)
    requires n <= |items| && items <= more
    ensures Value(setup, k, uri, more, n) == Value(setup, k, uri, items, n)
  {
    if n > 0 {
      ValuePrefix(setup, k, uri, items, more, n - 1);
    }
  }

  lemma {:induction false} ValueUntouched(setup: Setup, k: Kind, uri: string, items: seq<Item>, n: nat)
    requires n <= |items| && forall i :: 0 <= i < n ==> items[i].uri != uri
    ensures Value(setup, k, uri, items, n) == k.initialValue
  {
    if n > 0 {
      ValueUntouched(setup, k, uri, items, n - 1);
    }
  }

  // ---------- The invariant ----------

  ghost predicate IsItemOf(item: Item, r: Request) { item.uri == r.uri && item.kind == r.kind }

  /** The server thread is at work on `a`, and the producer of the ring is at the matching place. */
  ghost predicate WorksOn(s: State, a: Arrival) {
    match s.pending
    case Quiet => false
    case SecondRead(uri, _, seen) =>
      s.ring.prod.Idle? && uri == a.request.uri && a.request.kind == GET && seen == a.processed
    case EnqueuingGet(_, seen, _) =>
      !s.ring.prod.Idle? && IsItemOf(s.ring.prod.x, a.request) && a.request.kind == GET && seen == a.processed
    case EnqueuingUpload =>
      !s.ring.prod.Idle? && IsItemOf(s.ring.prod.x, a.request) && a.request.kind in {PUT, POST}
  }

  /** Every arrival has its answer, except the one the server thread is at work on. */
  ghost predicate Wired(s: State) {
    if s.pending.Quiet? then s.ring.prod.Idle? && |s.arrivals| == |s.log|
    else |s.arrivals| == |s.log| + 1 && WorksOn(s, s.arrivals[|s.log|])
  }

  /** The item that is published but not yet answered. */
  ghost function InFlight(s: State): seq<Item> { if s.ring.prod.Reset? then [s.ring.prod.x] else [] }

  /** The item that is dequeued but not yet processed. */
  ghost function InHand(s: State): seq<Item> {
    if s.ring.cons.Rewind? || s.ring.cons.Handle? then [s.ring.cons.x] else []
  }

  ghost predicate QueueKept(s: State) {
    && s.ring.delivered <= s.ring.accepted
    && s.ring.accepted == Promised(s.log, |s.log|) + InFlight(s)
    && s.ring.delivered == s.processed + InHand(s)
  }

  /** All blocks that went through reassembly, with the one whose body is on its way into the queue. */
  ghost function Blocks(s: State): seq<BT.Block>
    requires Wired(s)
  {
    Judged(s.arrivals, s.log, |s.log|) + (if s.pending.EnqueuingUpload? then [s.arrivals[|s.log|].request.block] else [])
  }

  /** What the answers say of them; a body on its way into the queue is complete. */
  ghost function Outcomes(s: State): seq<BT.Outcome>
    requires Wired(s)
  {
    Verdicts(s.log, |s.log|) + (if s.pending.EnqueuingUpload? then [BT.Complete(s.ring.prod.x.data)] else [])
  }

  ghost predicate UploadsKept(s: State)
    requires Wired(s)
  {
    BT.Run(map[], Blocks(s)) == (s.cache, Outcomes(s))
  }

  ghost predicate KnownItem(s: State, item: Item) {
    item.uri in s.resources && FindHandler(s.resources[item.uri].kind.handlers, item.kind).Some?
  }

  ghost predicate ItemsKnown(s: State) {
    && (forall i :: 0 <= i < |s.ring.accepted| ==> KnownItem(s, s.ring.accepted[i]))
    && (!s.ring.prod.Idle? ==> KnownItem(s, s.ring.prod.x))
    && (s.pending.SecondRead? ==> KnownItem(s, Item(s.pending.uri, GET, [])))
  }

  ghost predicate ValuesAreFolds(setup: Setup, s: State) {
    forall u :: u in s.resources ==>
      s.resources[u].value == Value(setup, s.resources[u].kind, u, s.processed, |s.processed|)
  }

  /** The value was the resource's when `seen` items had been processed. */
  ghost predicate WasRead(setup: Setup, s: State, uri: string, value: seq<byte>, seen: nat) {
    && uri in s.resources && seen <= |s.processed|
    && value == Value(setup, s.resources[uri].kind, uri, s.processed, seen)
  }

  ghost predicate ContentOk(setup: Setup, s: State, a: Answer)
    requires a.Content?
  {
    && a.seen <= a.seenAgain
    && WasRead(setup, s, a.item.uri, a.value, a.seen)
    && WasRead(setup, s, a.item.uri, a.item.data, a.seenAgain)
  }

  ghost predicate ReadsOk(setup: Setup, s: State) {
    && (forall i :: 0 <= i < |s.log| && s.log[i].Content? ==> ContentOk(setup, s, s.log[i]))
    && match s.pending
       case SecondRead(uri, value, seen) => WasRead(setup, s, uri, value, seen)
       case EnqueuingGet(value, seen, seenAgain) =>
         !s.ring.prod.Idle? ==> ContentOk(setup, s, Content(s.ring.prod.x, value, seen, seenAgain))
       case _ => true
  }

  /** A GET answers with the value at its arrival, and what it queues is not newer than what any later request finds. */
  ghost predicate TimesKept(s: State) {
    && |s.log| <= |s.arrivals|
    && (forall i :: 0 <= i < |s.arrivals| ==> s.arrivals[i].processed <= |s.processed|)
    && (forall i :: 0 <= i < |s.log| && s.log[i].Content? ==> s.log[i].seen == s.arrivals[i].processed)
    && (forall i, j :: 0 <= i < |s.log| && s.log[i].Content? && i < j < |s.arrivals| ==>
          s.log[i].seenAgain <= s.arrivals[j].processed)
  }

  /** What the path has or would get from the first matching pattern. */
  ghost function KindAt(setup: Setup, s: State, uri: string): Option<Kind> {
    if uri in s.resources then Some(s.resources[uri].kind)
    else match FindPattern(setup, setup.patterns, uri)
      case None => None
      case Some(p) => Some(p.kind)
  }

  /** The answers a request can get, by what its path is configured to be. */
  ghost predicate Fits(setup: Setup, s: State, r: Request, a: Answer) {
    match KindAt(setup, s, r.uri)
    case None => a == NotFound
    case Some(k) =>
      if FindHandler(k.handlers, r.kind) == None then a == NotAllowed
      else if r.uri !in s.resources then a == AttachFailed && !Attachable(k.handlers)
      else if r.kind == PUT || r.kind == POST then
        a.Continue? || a.BadBlock? || ((a.Accepted? || a.Refused?) && IsItemOf(a.item, r))
      else if r.kind == GET then (a.Content? || a.Refused?) && IsItemOf(a.item, r)
      else a == Empty
  }

  ghost predicate AnswersFit(setup: Setup, s: State) {
    |s.log| <= |s.arrivals| && forall i :: 0 <= i < |s.log| ==> Fits(setup, s, s.arrivals[i].request, s.log[i])
  }

  ghost predicate Inv(setup: Setup, s: State) { RM.Inv(s.ring) && Kept(setup, s) }

  /** All of the invariant but what it says of the ring itself. */
  ghost predicate Kept(setup: Setup, s: State) {
    && Wired(s) && QueueKept(s) && UploadsKept(s) && ItemsKnown(s) && ValuesAreFolds(setup, s) && ReadsOk(setup, s)
    && TimesKept(s) && AnswersFit(setup, s)
  }

  lemma InitialInv(setup: Setup, s: State)
    requires Initial(s)
    ensures Inv(setup, s)
  {
    RM.InitInv(s.ring.mem.slots);
  }

  lemma SubmitKeepsRing(s: State, item: Item)
    requires RM.Inv(s.ring) && s.ring.prod.Idle?
    ensures RM.Inv(Submit(s, item)) && RM.Step(s.ring, RM.Submit(item)) == Submit(s, item)
  {
    RM.StepKeepsInv(s.ring, RM.Submit(item));
  }

  // ---------- Every step keeps the invariant ----------

  /** The answers that are given without an attempt to enqueue. */
  ghost predicate Plain(a: Answer) {
    a.NotFound? || a.NotAllowed? || a.AttachFailed? || a.Continue? || a.BadBlock? || a.Empty?
  }

  /** `s` after a request has been answered at once; reassembly may have changed the cache. */
  ghost function Replied(s: State, r: Request, cache: BT.Cache, a: Answer): State {
    Answering(Received(s, r).(cache := cache), a)
  }

  lemma ReplyKeepsQueue(s: State, r: Request, cache: BT.Cache, a: Answer)
    requires Wired(s) && QueueKept(s) && ItemsKnown(s) && s.pending.Quiet? && Plain(a)
    ensures var t := Replied(s, r, cache, a); Wired(t) && QueueKept(t) && ItemsKnown(t)
  {
    LogAppend(s.log, a, |s.log|);
  }

  lemma ReplyKeepsReads(setup: Setup, s: State, r: Request, cache: BT.Cache, a: Answer)
    requires ReadsOk(setup, s) && TimesKept(s) && AnswersFit(setup, s)
    requires s.pending.Quiet? && Plain(a) && |s.arrivals| == |s.log| && Fits(setup, s, r, a)
    ensures var t := Replied(s, r, cache, a); ReadsOk(setup, t) && TimesKept(t) && AnswersFit(setup, t)
  {
    ReceivedKeepsTimes(setup, s, r);
  }

  lemma ReceivedKeepsTimes(setup: Setup, s: State, r: Request)
    requires ReadsOk(setup, s) && TimesKept(s)
    ensures TimesKept(Received(s, r))
  {
    forall i | 0 <= i < |s.log| && s.log[i].Content?
      ensures s.log[i].seenAgain <= |s.processed|
    {
      assert ContentOk(setup, s, s.log[i]);
    }
  }

  /** One more judged block. */
  lemma JudgedOneMore(s: State, r: Request, a: Answer)
    requires Wired(s) && s.pending.Quiet?
    ensures var t := Replied(s, r, s.cache, a);
      && Judged(t.arrivals, t.log, |t.log|) ==
         Judged(s.arrivals, s.log, |s.log|) + (if IsVerdict(a) then [r.block] else [])
      && Verdicts(t.log, |t.log|) == Verdicts(s.log, |s.log|) + (if IsVerdict(a) then [Verdict(a)] else [])
  {
    var t := Replied(s, r, s.cache, a);
    JudgedPrefix(s.arrivals, s.log, t.arrivals, t.log, |s.log|);
    LogAppend(s.log, a, |s.log|);
  }

  lemma PlainReplyKept(setup: Setup, s: State, r: Request, a: Answer)
    requires Kept(setup, s) && s.pending.Quiet? && Plain(a) && !IsVerdict(a) && Fits(setup, s, r, a)
    ensures Kept(setup, Answering(Received(s, r), a))
  {
    ReplyKeepsQueue(s, r, s.cache, a);
    ReplyKeepsReads(setup, s, r, s.cache, a);
    var t := Answering(Received(s, r), a);
    JudgedOneMore(s, r, a);
    assert Blocks(t) == Blocks(s) && Outcomes(t) == Outcomes(s);
  }

  lemma RunOfBlock(blocks: seq<BT.Block>, b: BT.Block, cache: BT.Cache, outcomes: seq<BT.Outcome>)
    requires BT.Run(map[], blocks) == (cache, outcomes)
    ensures BT.Run(map[], blocks + [b]) == (BT.Step(cache, b).0, outcomes + [BT.Step(cache, b).1])
  {
    assert (blocks + [b])[..|blocks|] == blocks;
  }

  lemma VerdictKeepsUploads(s: State, r: Request, cache: BT.Cache, a: Answer)
    requires Wired(s) && UploadsKept(s) && s.pending.Quiet? && (a.Continue? || a.BadBlock?)
    requires BT.Step(s.cache, r.block) == (cache, Verdict(a))
    ensures var t := Replied(s, r, cache, a); Wired(t) && UploadsKept(t)
  {
    var t := Replied(s, r, cache, a);
    JudgedOneMore(s, r, a);
    RunOfBlock(Blocks(s), r.block, s.cache, Outcomes(s));
    assert Blocks(t) == Blocks(s) + [r.block] && Outcomes(t) == Outcomes(s) + [Verdict(a)];
  }

  /** A block that is answered without an attempt to enqueue. */
  lemma VerdictKept(setup: Setup, s: State, r: Request, cache: BT.Cache, a: Answer)
    requires Kept(setup, s) && s.pending.Quiet? && (a.Continue? || a.BadBlock?) && Fits(setup, s, r, a)
    requires BT.Step(s.cache, r.block) == (cache, Verdict(a))
    ensures Kept(setup, Replied(s, r, cache, a))
  {
    ReplyKeepsQueue(s, r, cache, a);
    ReplyKeepsReads(setup, s, r, cache, a);
    VerdictKeepsUploads(s, r, cache, a);
  }

  /** `s` after a block that completes its body: the item is on its way into the queue. */
  ghost function Uploading(s: State, r: Request, cache: BT.Cache, body: seq<byte>): State {
    Received(s, r).(cache := cache, ring := Submit(s, Item(r.uri, r.kind, body)), pending := EnqueuingUpload)
  }

  lemma CompleteBlockKeepsUploads(s: State, r: Request, cache: BT.Cache, body: seq<byte>)
    requires Wired(s) && UploadsKept(s) && s.pending.Quiet? && r.kind in {PUT, POST}
    requires BT.Step(s.cache, r.block) == (cache, BT.Complete(body))
    ensures var t := Uploading(s, r, cache, body); Wired(t) && UploadsKept(t)
  {
    var t := Uploading(s, r, cache, body);
    JudgedPrefix(s.arrivals, s.log, t.arrivals, t.log, |s.log|);
    RunOfBlock(Blocks(s), r.block, s.cache, Outcomes(s));
    assert Blocks(s) == Judged(s.arrivals, s.log, |s.log|) && Outcomes(s) == Verdicts(s.log, |s.log|);
  }

  /** The server thread has turned to something else, and nothing else has changed. */
  ghost predicate TurnedTo(s: State, t: State) {
    && t.ring == s.ring.(prod := t.ring.prod) && !s.ring.prod.Reset? && !t.ring.prod.Reset?
    && t.log == s.log && t.processed == s.processed && t.resources == s.resources && s.arrivals <= t.arrivals
  }

  lemma TurnKeepsQueue(setup: Setup, s: State, t: State)
    requires QueueKept(s) && ValuesAreFolds(setup, s) && TurnedTo(s, t)
    ensures QueueKept(t) && ValuesAreFolds(setup, t)
  {
  }

  lemma TurnKeepsFits(setup: Setup, s: State, t: State)
    requires AnswersFit(setup, s) && TurnedTo(s, t)
    ensures AnswersFit(setup, t)
  {
  }

  lemma UploadingKeepsItems(setup: Setup, s: State, r: Request, cache: BT.Cache, body: seq<byte>)
    requires ItemsKnown(s) && ReadsOk(setup, s) && TimesKept(s) && KnownItem(s, Item(r.uri, r.kind, body))
    ensures var t := Uploading(s, r, cache, body); ItemsKnown(t) && ReadsOk(setup, t) && TimesKept(t)
  {
    ReceivedKeepsTimes(setup, s, r);
  }

  lemma CompleteBlockKept(setup: Setup, s: State, r: Request, cache: BT.Cache, body: seq<byte>)
    requires Kept(setup, s) && s.pending.Quiet? && r.kind in {PUT, POST}
    requires BT.Step(s.cache, r.block) == (cache, BT.Complete(body)) && KnownItem(s, Item(r.uri, r.kind, body))
    ensures Kept(setup, Uploading(s, r, cache, body))
  {
    var t := Uploading(s, r, cache, body);
    TurnKeepsQueue(setup, s, t);
    TurnKeepsFits(setup, s, t);
    CompleteBlockKeepsUploads(s, r, cache, body);
    UploadingKeepsItems(setup, s, r, cache, body);
  }

  /** `s` after the first read of a GET. */
  ghost function Reading(s: State, r: Request): State
    requires r.uri in s.resources
  {
    Received(s, r).(pending := SecondRead(r.uri, s.resources[r.uri].value, |s.processed|))
  }

  lemma FirstReadKeepsUploads(s: State, r: Request)
    requires Wired(s) && UploadsKept(s) && s.pending.Quiet? && r.kind == GET && r.uri in s.resources
    ensures Wired(Reading(s, r)) && UploadsKept(Reading(s, r))
  {
    var t := Reading(s, r);
    JudgedPrefix(s.arrivals, s.log, t.arrivals, t.log, |s.log|);
  }

  lemma FirstReadKeepsReads(setup: Setup, s: State, r: Request)
    requires ItemsKnown(s) && ReadsOk(setup, s) && TimesKept(s) && ValuesAreFolds(setup, s)
    requires KnownItem(s, Item(r.uri, GET, []))
    ensures ItemsKnown(Reading(s, r)) && ReadsOk(setup, Reading(s, r)) && TimesKept(Reading(s, r))
  {
    ReceivedKeepsTimes(setup, s, r);
  }

  lemma FirstReadKept(setup: Setup, s: State, r: Request)
    requires Kept(setup, s) && s.pending.Quiet? && r.kind == GET && KnownItem(s, Item(r.uri, GET, []))
    ensures Kept(setup, Reading(s, r))
  {
    TurnKeepsQueue(setup, s, Reading(s, r));
    TurnKeepsFits(setup, s, Reading(s, r));
    FirstReadKeepsUploads(s, r);
    FirstReadKeepsReads(setup, s, r);
  }

  lemma ServeKept(setup: Setup, s: State, r: Request)
    requires Kept(setup, s) && s.pending.Quiet? && r.uri in s.resources
    ensures Kept(setup, Serve(Received(s, r), r))
  {
    if FindHandler(s.resources[r.uri].kind.handlers, r.kind) == None {
      PlainReplyKept(setup, s, r, NotAllowed);
    } else if r.kind == PUT || r.kind == POST {
      var (cache, outcome) := BT.Step(s.cache, r.block);
      match outcome
      case Waiting => VerdictKept(setup, s, r, cache, Continue);
      case Failed => VerdictKept(setup, s, r, cache, BadBlock);
      case Complete(body) => CompleteBlockKept(setup, s, r, cache, body);
    } else if r.kind == GET {
      FirstReadKept(setup, s, r);
    } else {
      PlainReplyKept(setup, s, r, Empty);
    }
  }

  lemma CreateKeepsValues(setup: Setup, s: State, uri: string, p: Pattern)
    requires QueueKept(s) && ItemsKnown(s) && ValuesAreFolds(setup, s) && uri !in s.resources
    ensures ValuesAreFolds(setup, Created(s, uri, p))
  {
    forall i | 0 <= i < |s.processed|
      ensures s.processed[i].uri != uri
    {
      assert s.processed[i] == s.ring.delivered[i] == s.ring.accepted[i];
    }
    ValueUntouched(setup, p.kind, uri, s.processed, |s.processed|);
  }

  lemma CreateKeepsFits(setup: Setup, s: State, uri: string, p: Pattern)
    requires AnswersFit(setup, s) && uri !in s.resources
    requires FindPattern(setup, setup.patterns, uri) == Some(p) && Attachable(p.kind.handlers)
    ensures AnswersFit(setup, Created(s, uri, p))
  {
    forall i | 0 <= i < |s.log|
      ensures Fits(setup, Created(s, uri, p), s.arrivals[i].request, s.log[i])
    {
      assert Fits(setup, s, s.arrivals[i].request, s.log[i]);
    }
  }

  lemma CreateKeepsReads(setup: Setup, s: State, uri: string, p: Pattern)
    requires ItemsKnown(s) && ReadsOk(setup, s) && uri !in s.resources
    ensures ItemsKnown(Created(s, uri, p)) && ReadsOk(setup, Created(s, uri, p))
  {
    var t := Created(s, uri, p);
    forall u, value, seen | WasRead(setup, s, u, value, seen)
      ensures WasRead(setup, t, u, value, seen)
    {
    }
  }

  lemma CreateKeepsQueue(s: State, uri: string, p: Pattern)
    requires Wired(s) && QueueKept(s) && UploadsKept(s) && TimesKept(s)
    ensures var t := Created(s, uri, p); Wired(t) && QueueKept(t) && UploadsKept(t) && TimesKept(t)
  {
  }

  lemma CreateKept(setup: Setup, s: State, uri: string, p: Pattern)
    requires Kept(setup, s) && s.pending.Quiet? && uri !in s.resources
    requires FindPattern(setup, setup.patterns, uri) == Some(p) && Attachable(p.kind.handlers)
    ensures Kept(setup, Created(s, uri, p))
  {
    CreateKeepsValues(setup, s, uri, p);
    CreateKeepsFits(setup, s, uri, p);
    CreateKeepsReads(setup, s, uri, p);
    CreateKeepsQueue(s, uri, p);
  }

  lemma HandleKept(setup: Setup, s: State, r: Request)
    requires Kept(setup, s) && s.pending.Quiet?
    ensures Kept(setup, Handle(setup, Received(s, r), r))
  {
    if r.uri in s.resources {
      ServeKept(setup, s, r);
    } else {
      match FindPattern(setup, setup.patterns, r.uri)
      case None => PlainReplyKept(setup, s, r, NotFound);
      case Some(p) =>
        if FindHandler(p.kind.handlers, r.kind) == None {
          PlainReplyKept(setup, s, r, NotAllowed);
        } else if !Attachable(p.kind.handlers) {
          PlainReplyKept(setup, s, r, AttachFailed);
        } else {
          CreateKept(setup, s, r.uri, p);
          ServeKept(setup, Created(s, r.uri, p), r);
        }
    }
  }

  ghost predicate Enqueuing(s: State) { s.pending.EnqueuingGet? || s.pending.EnqueuingUpload? }

  /** What an `enqueue` that leaves adds to the log. */
  lemma EnqueueKeepsQueue(s: State, ring: RM.State<Item>)
    requires Wired(s) && QueueKept(s) && Enqueuing(s) && RM.ProducerFacts(s.ring, ring)
    ensures var t := EnqueueStep(s, ring); Wired(t) && QueueKept(t)
  {
    var t := EnqueueStep(s, ring);
    if |t.log| > |s.log| {
      LogAppend(s.log, t.log[|s.log|], |s.log|);
    }
  }

  lemma EnqueueKeepsItems(s: State, ring: RM.State<Item>)
    requires Wired(s) && ItemsKnown(s) && Enqueuing(s) && RM.ProducerFacts(s.ring, ring)
    ensures ItemsKnown(EnqueueStep(s, ring))
  {
  }

  /** The answer to the request under way, which may be about one more judged block. */
  lemma JudgedAnswer(arrivals: seq<Arrival>, log: seq<Answer>, a: Answer)
    requires |arrivals| == |log| + 1
    ensures var more, block := log + [a], arrivals[|log|].request.block;
      && Judged(arrivals, more, |more|) == Judged(arrivals, log, |log|) + (if IsVerdict(a) then [block] else [])
      && Verdicts(more, |more|) == Verdicts(log, |log|) + (if IsVerdict(a) then [Verdict(a)] else [])
  {
    LogAppend(log, a, |log|);
    JudgedPrefix(arrivals, log, arrivals, log + [a], |log|);
  }

  lemma AnswerKeepsBlocks(s: State, t: State, a: Answer)
    requires Wired(s) && Wired(t) && !s.pending.Quiet? && t.pending.Quiet?
    requires t.arrivals == s.arrivals && t.log == s.log + [a]
    requires IsVerdict(a) <==> s.pending.EnqueuingUpload?
    requires IsVerdict(a) ==> Verdict(a) == BT.Complete(s.ring.prod.x.data)
    ensures Blocks(t) == Blocks(s) && Outcomes(t) == Outcomes(s)
  {
    JudgedAnswer(s.arrivals, s.log, a);
  }

  lemma EnqueueKeepsUploads(s: State, ring: RM.State<Item>)
    requires Wired(s) && UploadsKept(s) && Enqueuing(s) && RM.ProducerFacts(s.ring, ring)
    requires Wired(EnqueueStep(s, ring))
    ensures UploadsKept(EnqueueStep(s, ring))
  {
    var t := EnqueueStep(s, ring);
    if |t.log| > |s.log| {
      AnswerKeepsBlocks(s, t, t.log[|s.log|]);
    } else {
      assert Blocks(t) == Blocks(s) && Outcomes(t) == Outcomes(s);
    }
  }

  lemma EnqueueKeepsReads(setup: Setup, s: State, ring: RM.State<Item>)
    requires Wired(s) && ReadsOk(setup, s) && Enqueuing(s) && RM.ProducerFacts(s.ring, ring)
    ensures ReadsOk(setup, EnqueueStep(s, ring))
  {
  }

  lemma EnqueueKeepsTimes(s: State, ring: RM.State<Item>)
    requires Wired(s) && TimesKept(s) && Enqueuing(s) && RM.ProducerFacts(s.ring, ring)
    ensures TimesKept(EnqueueStep(s, ring))
  {
  }

  lemma EnqueueKeepsFits(setup: Setup, s: State, ring: RM.State<Item>)
    requires Wired(s) && AnswersFit(setup, s) && ItemsKnown(s) && Enqueuing(s) && RM.ProducerFacts(s.ring, ring)
    ensures AnswersFit(setup, EnqueueStep(s, ring))
  {
    var t := EnqueueStep(s, ring);
    forall i | 0 <= i < |s.log|
      ensures Fits(setup, t, s.arrivals[i].request, s.log[i])
    {
      assert Fits(setup, s, s.arrivals[i].request, s.log[i]);
    }
  }

  lemma EnqueueKept(setup: Setup, s: State, ring: RM.State<Item>)
    requires Kept(setup, s) && Enqueuing(s) && RM.ProducerFacts(s.ring, ring)
    ensures Kept(setup, EnqueueStep(s, ring))
  {
    EnqueueKeepsQueue(s, ring);
    EnqueueKeepsItems(s, ring);
    EnqueueKeepsUploads(s, ring);
    EnqueueKeepsReads(setup, s, ring);
    EnqueueKeepsTimes(s, ring);
    EnqueueKeepsFits(setup, s, ring);
  }

  lemma SecondReadKeepsUploads(s: State)
    requires Wired(s) && UploadsKept(s) && ItemsKnown(s) && s.pending.SecondRead?
    ensures Wired(ServerMove(s)) && UploadsKept(ServerMove(s))
  {
    var t := ServerMove(s);
    assert Blocks(t) == Blocks(s) && Outcomes(t) == Outcomes(s);
  }

  lemma SecondReadKeepsReads(setup: Setup, s: State)
    requires Wired(s) && ItemsKnown(s) && ReadsOk(setup, s) && TimesKept(s) && ValuesAreFolds(setup, s)
    requires s.pending.SecondRead?
    ensures var t := ServerMove(s); ItemsKnown(t) && ReadsOk(setup, t) && TimesKept(t)
  {
  }

  lemma SecondReadKept(setup: Setup, s: State)
    requires Kept(setup, s) && s.pending.SecondRead?
    ensures Kept(setup, ServerMove(s))
  {
    TurnKeepsQueue(setup, s, ServerMove(s));
    TurnKeepsFits(setup, s, ServerMove(s));
    SecondReadKeepsUploads(s);
    SecondReadKeepsReads(setup, s);
  }

  lemma ProcessKeepsReads(setup: Setup, s: State, item: Item)
    requires ReadsOk(setup, s)
    ensures ReadsOk(setup, Process(setup, s, item))
  {
    var t := Process(setup, s, item);
    forall uri, value, seen | WasRead(setup, s, uri, value, seen)
      ensures WasRead(setup, t, uri, value, seen)
    {
      ValuePrefix(setup, s.resources[uri].kind, uri, s.processed, t.processed, seen);
    }
  }

  lemma ProcessKeepsValues(setup: Setup, s: State, item: Item)
    requires ValuesAreFolds(setup, s) && item.uri in s.resources
    ensures ValuesAreFolds(setup, Process(setup, s, item))
  {
    var all := s.processed + [item];
    forall u | u in s.resources
      ensures Value(setup, s.resources[u].kind, u, all, |s.processed|) == s.resources[u].value
    {
      ValuePrefix(setup, s.resources[u].kind, u, s.processed, all, |s.processed|);
    }
  }

  /** What the queue thread leaves alone, and what it keeps of each resource. */
  ghost predicate QueueFrame(s: State, t: State) {
    && t.arrivals == s.arrivals && t.log == s.log && t.pending == s.pending && t.cache == s.cache
    && t.ring.prod == s.ring.prod && t.ring.accepted == s.ring.accepted && s.processed <= t.processed
    && (forall u :: u in t.resources <==> u in s.resources)
    && (forall u :: u in s.resources ==> t.resources[u].kind == s.resources[u].kind)
  }

  lemma DequeueFrame(setup: Setup, s: State, ring: RM.State<Item>)
    requires RM.ConsumerFacts(s.ring, ring)
    ensures QueueFrame(s, DequeueStep(setup, s, ring))
  {
  }

  lemma FrameKeepsUploads(s: State, t: State)
    requires Wired(s) && UploadsKept(s) && QueueFrame(s, t)
    ensures Wired(t) && UploadsKept(t)
  {
    assert Blocks(t) == Blocks(s) && Outcomes(t) == Outcomes(s);
  }

  lemma FrameKeepsItems(s: State, t: State)
    requires ItemsKnown(s) && TimesKept(s) && QueueFrame(s, t)
    ensures ItemsKnown(t) && TimesKept(t)
  {
  }

  lemma FrameKeepsFits(setup: Setup, s: State, t: State)
    requires AnswersFit(setup, s) && QueueFrame(s, t)
    ensures AnswersFit(setup, t)
  {
    forall i | 0 <= i < |s.log|
      ensures Fits(setup, t, s.arrivals[i].request, s.log[i])
    {
      assert Fits(setup, s, s.arrivals[i].request, s.log[i]);
    }
  }

  lemma DequeueKeepsQueue(setup: Setup, s: State, ring: RM.State<Item>)
    requires QueueKept(s) && RM.ConsumerFacts(s.ring, ring)
    ensures QueueKept(DequeueStep(setup, s, ring))
  {
  }

  lemma DequeueKeepsReads(setup: Setup, s: State, ring: RM.State<Item>)
    requires ReadsOk(setup, s) && ValuesAreFolds(setup, s) && RM.ConsumerFacts(s.ring, ring)
    requires s.ring.cons.Handle? ==> s.ring.cons.x.uri in s.resources
    ensures ReadsOk(setup, DequeueStep(setup, s, ring)) && ValuesAreFolds(setup, DequeueStep(setup, s, ring))
  {
    if s.ring.cons.Handle? {
      ProcessKeepsReads(setup, s, s.ring.cons.x);
      ProcessKeepsValues(setup, s, s.ring.cons.x);
    }
  }

  lemma DequeueKept(setup: Setup, s: State, ring: RM.State<Item>)
    requires Kept(setup, s) && RM.ConsumerFacts(s.ring, ring)
    ensures Kept(setup, DequeueStep(setup, s, ring))
  {
    if s.ring.cons.Handle? {
      assert s.ring.cons.x == s.ring.delivered[|s.processed|] == s.ring.accepted[|s.processed|];
    }
    var t := DequeueStep(setup, s, ring);
    DequeueFrame(setup, s, ring);
    FrameKeepsUploads(s, t);
    FrameKeepsItems(s, t);
    FrameKeepsFits(setup, s, t);
    DequeueKeepsQueue(setup, s, ring);
    DequeueKeepsReads(setup, s, ring);
  }

  lemma ServerKeepsInv(setup: Setup, s: State)
    requires Inv(setup, s) && SafeStep(s, ServerStep)
    ensures Inv(setup, ServerMove(s))
  {
    match s.pending
    case Quiet =>
    case SecondRead(uri, _, _) =>
      SecondReadKept(setup, s);
      SubmitKeepsRing(s, Item(uri, GET, s.resources[uri].value));
    case _ =>
      RM.ProducerStepFacts(s.ring);
      EnqueueKept(setup, s, RM.Step(s.ring, RM.ProducerStep));
  }

  lemma RingOfHandle(setup: Setup, s: State, r: Request)
    requires RM.Inv(s.ring) && s.ring.prod.Idle?
    ensures RM.Inv(Handle(setup, s, r).ring)
  {
    if Handle(setup, s, r).ring != s.ring {
      SubmitKeepsRing(s, Handle(setup, s, r).ring.prod.x);
    }
  }

  lemma StepKeepsInv(setup: Setup, s: State, a: Action)
    requires Inv(setup, s) && SafeStep(s, a)
    ensures Inv(setup, Step(setup, s, a))
  {
    match a
    case Arrive(r) =>
      if s.pending.Quiet? {
        RingOfHandle(setup, Received(s, r), r);
        HandleKept(setup, s, r);
      }
    case ServerStep =>
      ServerKeepsInv(setup, s);
    case QueueStep =>
      RM.ConsumerStepFacts(s.ring);
      DequeueKept(setup, s, RM.Step(s.ring, RM.ConsumerStep));
  }

  lemma {:induction false} RunKeepsInv(setup: Setup, s: State, actions: seq<Action>)
    requires Inv(setup, s) && SafeRun(setup, s, actions)
    ensures Inv(setup, Run(setup, s, actions))
    decreases |actions|
  {
    if actions != [] {
      StepKeepsInv(setup, s, actions[0]);
      RunKeepsInv(setup, Step(setup, s, actions[0]), actions[1..]);
    }
  }
}
