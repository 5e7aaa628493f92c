/** What clients can rely on, over every run of the server. */
module ServerTheorems {
  import opened Common
  import opened Config
  import opened ResourceMethod
  import opened Server
  import BT = BlockTransfer
  import RM = RingMachine

  // ---------- Safe runs ----------

  /** The ring is a queue of `max - 1` items between any two steps of the run. */
  ghost predicate FifoThroughout(setup: Setup, s: State, actions: seq<Action>)
    decreases |actions|
  {
    RM.IsBoundedFifo(s.ring) && (actions != [] ==> FifoThroughout(setup, Step(setup, s, actions[0]), actions[1..]))
  }

  lemma UnsafeStepOverfills(setup: Setup, s: State, a: Action)
    requires RM.Inv(s.ring) && Wired(s) && !SafeStep(s, a)
    ensures !RM.IsBoundedFifo(Step(setup, s, a).ring)
  {
    RM.UnsafeStepOverfills(s.ring, RM.ProducerStep);
  }

  /** The runs the theorems below speak of are exactly those in which the ring is a bounded queue throughout. */
  lemma {:induction false} SafeRunIff(setup: Setup, s: State, actions: seq<Action>)
    requires Inv(setup, s)
    ensures SafeRun(setup, s, actions) <==> FifoThroughout(setup, s, actions)
    decreases |actions|
  {
    RM.InvIsFifo(s.ring);
    if actions != [] {
      if SafeStep(s, actions[0]) {
        StepKeepsInv(setup, s, actions[0]);
        SafeRunIff(setup, Step(setup, s, actions[0]), actions[1..]);
      } else {
        UnsafeStepOverfills(setup, s, actions[0]);
      }
    }
  }

  // ---------- Promised requests are processed once and in order ----------

  /**
   * Over every safe run: the processed requests, then the one in hand, then those
   * still queued are exactly the promised requests in the order of their answers
   * (and the one whose answer is on its way), so none is lost, repeated, or
   * reordered, and no refused request is among them.
   */
  lemma PromisedAreProcessedInOrder(setup: Setup, s: State, actions: seq<Action>)
    requires Initial(s) && SafeRun(setup, s, actions)
    ensures var e := Run(setup, s, actions);
      && e.processed + InHand(e) <= Promised(e.log, |e.log|) + InFlight(e)
      && e.processed <= Promised(e.log, |e.log|) + InFlight(e)
      && |Promised(e.log, |e.log|) + InFlight(e)| - |e.processed + InHand(e)| <= e.ring.mem.Max() - 1
  {
    InitialInv(setup, s);
    RunKeepsInv(setup, s, actions);
  }

  /** Over every safe run a resource's value is its initial value changed by the processed requests in order. */
  lemma ValuesFollowProcessed(setup: Setup, s: State, actions: seq<Action>, uri: string)
    requires Initial(s) && SafeRun(setup, s, actions) && uri in Run(setup, s, actions).resources
    ensures var e := Run(setup, s, actions);
      e.resources[uri].value == Value(setup, e.resources[uri].kind, uri, e.processed, |e.processed|)
  {
    InitialInv(setup, s);
    RunKeepsInv(setup, s, actions);
  }

  // ---------- Every request gets an answer that fits it ----------

  /** What happens to the histories and to the kinds of resources between two states of a run. */
  ghost predicate Grows(setup: Setup, s: State, t: State) {
    && s.arrivals <= t.arrivals && s.log <= t.log && s.processed <= t.processed
    && (forall u :: u in s.resources ==> u in t.resources)
    && (forall u :: KindAt(setup, t, u) == KindAt(setup, s, u))
  }

  lemma ServeGrows(setup: Setup, s: State, r: Request)
    requires r.uri in s.resources
    ensures Grows(setup, s, Serve(s, r))
  {
  }

  lemma HandleGrows(setup: Setup, s: State, r: Request)
    ensures Grows(setup, s, Handle(setup, s, r))
  {
    if r.uri in s.resources {
      ServeGrows(setup, s, r);
    } else {
      match FindPattern(setup, setup.patterns, r.uri)
      case None =>
      case Some(p) => ServeGrows(setup, Created(s, r.uri, p), r);
    }
  }

  lemma StepGrows(setup: Setup, s: State, a: Action)
    ensures Grows(setup, s, Step(setup, s, a))
  {
    match a
    case Arrive(r) =>
      if s.pending.Quiet? {
        HandleGrows(setup, Received(s, r), r);
      }
    case ServerStep =>
    case QueueStep =>
  }

  lemma {:induction false} RunGrows(setup: Setup, s: State, actions: seq<Action>)
    ensures Grows(setup, s, Run(setup, s, actions))
    decreases |actions|
  {
    if actions != [] {
      StepGrows(setup, s, actions[0]);
      RunGrows(setup, Step(setup, s, actions[0]), actions[1..]);
    }
  }

  /** What a path is configured to be: what its resource is from the start, else what its first matching pattern says. */
  ghost predicate ConfiguredAs(setup: Setup, s: State, uri: string, k: Kind) {
    if uri in s.resources then k == s.resources[uri].kind
    else exists j: nat :: FirstMatch(setup, setup.patterns, uri, j) && setup.patterns[j].kind == k
  }

  ghost predicate Unconfigured(setup: Setup, s: State, uri: string) {
    uri !in s.resources && NoMatch(setup, setup.patterns, uri)
  }

  lemma KindAtIs(setup: Setup, s: State, uri: string)
    ensures KindAt(setup, s, uri) == None <==> Unconfigured(setup, s, uri)
    ensures KindAt(setup, s, uri).Some? ==> ConfiguredAs(setup, s, uri, KindAt(setup, s, uri).value)
  {
    FindPatternIs(setup, setup.patterns, uri);
  }

  ghost predicate Registrable(handlers: seq<Handler>) {
    forall j :: 0 <= j < |handlers| ==> handlers[j].kind == GET || handlers[j].kind == PUT || handlers[j].kind == POST
  }

  /** Everything created since `s0` can be registered. */
  ghost predicate CreatedRegistrable(s0: State, s: State) {
    forall u :: u in s.resources && u !in s0.resources ==> Registrable(s.resources[u].kind.handlers)
  }

  lemma ServeKeepsKinds(s: State, r: Request)
    requires r.uri in s.resources
    ensures Serve(s, r).resources == s.resources
  {
  }

  lemma HandleCreatesRegistrable(setup: Setup, s0: State, s: State, r: Request)
    requires CreatedRegistrable(s0, s)
    ensures CreatedRegistrable(s0, Handle(setup, s, r))
  {
    if r.uri in s.resources {
      ServeKeepsKinds(s, r);
    } else {
      match FindPattern(setup, setup.patterns, r.uri)
      case None =>
      case Some(p) => ServeKeepsKinds(Created(s, r.uri, p), r);
    }
  }

  lemma StepCreatesRegistrable(setup: Setup, s0: State, s: State, a: Action)
    requires CreatedRegistrable(s0, s)
    ensures CreatedRegistrable(s0, Step(setup, s, a))
  {
    match a
    case Arrive(r) =>
      if s.pending.Quiet? {
        HandleCreatesRegistrable(setup, s0, Received(s, r), r);
      }
    case ServerStep =>
    case QueueStep =>
  }

  lemma {:induction false} RunCreatesRegistrable(setup: Setup, s0: State, s: State, actions: seq<Action>)
    requires CreatedRegistrable(s0, s)
    ensures CreatedRegistrable(s0, Run(setup, s, actions))
    decreases |actions|
  {
    if actions != [] {
      StepCreatesRegistrable(setup, s0, s, actions[0]);
      RunCreatesRegistrable(setup, s0, Step(setup, s, actions[0]), actions[1..]);
    }
  }

  /** The answers to a request for a path that is configured as `k`, from the start or by a pattern. */
  ghost predicate RightFor(k: Kind, given: bool, r: Request, a: Answer) {
    if NoHandler(k.handlers, r.kind) then a == NotAllowed
    else if !given && !Registrable(k.handlers) then a == AttachFailed
    else match r.kind
      case GET => (a.Content? || a.Refused?) && a.item.uri == r.uri && a.item.kind == GET
      case PUT | POST =>
        || a == Continue || a == BadBlock
        || ((a.Accepted? || a.Refused?) && a.item.uri == r.uri && a.item.kind == r.kind)
      case _ => a == Empty
  }

  ghost predicate RightAnswer(setup: Setup, s: State, r: Request, a: Answer) {
    exists k :: ConfiguredAs(setup, s, r.uri, k) && RightFor(k, r.uri in s.resources, r, a)
  }

  lemma FitIsRight(setup: Setup, s: State, e: State, r: Request, a: Answer)
    requires Fits(setup, e, r, a) && Grows(setup, s, e) && CreatedRegistrable(s, e)
    ensures a == NotFound <==> Unconfigured(setup, s, r.uri)
    ensures a != NotFound ==> RightAnswer(setup, s, r, a)
  {
    KindAtIs(setup, s, r.uri);
    match KindAt(setup, s, r.uri)
    case None =>
    case Some(k) =>
      FindHandlerIs(k.handlers, r.kind);
      assert RightFor(k, r.uri in s.resources, r, a);
  }

  /**
   * Over every safe run each request but the one under way has been answered. The
   * answer is NotFound exactly if the path had no resource at the start and no
   * pattern matches it; otherwise it is one that the path's own configuration, or
   * that of the first matching pattern, allows for the method, and it carries the
   * request's own path and method. Every resource is what its path is configured
   * to be.
   */
  lemma AnswersFitRequests(setup: Setup, s: State, actions: seq<Action>, i: nat)
    requires Initial(s) && SafeRun(setup, s, actions) && i < |Run(setup, s, actions).log|
    ensures var e := Run(setup, s, actions);
      && |e.arrivals| == |e.log| + (if e.pending.Quiet? then 0 else 1)
      && (e.log[i] == NotFound <==> Unconfigured(setup, s, e.arrivals[i].request.uri))
      && (e.log[i] != NotFound ==> RightAnswer(setup, s, e.arrivals[i].request, e.log[i]))
  {
    var e := Run(setup, s, actions);
    InitialInv(setup, s);
    RunKeepsInv(setup, s, actions);
    RunGrows(setup, s, actions);
    RunCreatesRegistrable(setup, s, s, actions);
    FitIsRight(setup, s, e, e.arrivals[i].request, e.log[i]);
  }

  /**
   * Over every run each resource is what its path is configured to be; one that
   * was created has the kind of its first matching pattern.
   */
  lemma ResourcesAreAsConfigured(setup: Setup, s: State, actions: seq<Action>, uri: string)
    requires uri in Run(setup, s, actions).resources
    ensures ConfiguredAs(setup, s, uri, Run(setup, s, actions).resources[uri].kind)
  {
    RunGrows(setup, s, actions);
    var e := Run(setup, s, actions);
    assert KindAt(setup, s, uri) == KindAt(setup, e, uri) == Some(e.resources[uri].kind);
    KindAtIs(setup, s, uri);
  }

  // ---------- What a GET sees ----------

  lemma ContentFacts(setup: Setup, e: State, i: nat)
    requires ReadsOk(setup, e) && TimesKept(e) && AnswersFit(setup, e) && i < |e.log| && e.log[i].Content?
    ensures var a, arrival := e.log[i], e.arrivals[i];
      && ContentOk(setup, e, a) && IsItemOf(a.item, arrival.request) && arrival.request.kind == GET
      && arrival.processed == a.seen
  {
    assert Fits(setup, e, e.arrivals[i].request, e.log[i]);
  }

  /**
   * Every GET is answered with the value its resource had after the requests that
   * had been processed when it arrived, and is queued with the value after the
   * same or a later number of requests.
   */
  lemma ContentsAreSnapshots(setup: Setup, s: State, actions: seq<Action>, i: nat)
    requires Initial(s) && SafeRun(setup, s, actions)
    requires i < |Run(setup, s, actions).log| && Run(setup, s, actions).log[i].Content?
    ensures var e := Run(setup, s, actions);
      && i < |e.arrivals|
      && var a, arrival := e.log[i], e.arrivals[i];
      && IsItemOf(a.item, arrival.request) && arrival.request.kind == GET && a.item.uri in e.resources
      && arrival.processed == a.seen <= a.seenAgain <= |e.processed|
      && a.value == Value(setup, e.resources[a.item.uri].kind, a.item.uri, e.processed, a.seen)
      && a.item.data == Value(setup, e.resources[a.item.uri].kind, a.item.uri, e.processed, a.seenAgain)
  {
    InitialInv(setup, s);
    RunKeepsInv(setup, s, actions);
    ContentFacts(setup, Run(setup, s, actions), i);
  }

  lemma {:induction false} QueueStepsKeepPending(setup: Setup, s: State, between: seq<Action>)
    requires forall a :: a in between ==> a == QueueStep
    ensures SafeRun(setup, s, between) && Run(setup, s, between).pending == s.pending
    decreases |between|
  {
    if between != [] {
      assert between[0] in between && forall a :: a in between[1..] ==> a in between;
      QueueStepsKeepPending(setup, Step(setup, s, between[0]), between[1..]);
    }
  }

  /**
   * A GET reads the value twice. Whatever the queue thread does between the two
   * reads, the answer keeps the value at the arrival, and the queue gets the value
   * at the second read.
   */
  lemma SecondReadIsFresh(setup: Setup, s: State, r: Request, between: seq<Action>)
    requires Inv(setup, s) && s.pending.Quiet? && r.kind == GET && r.uri in s.resources
    requires FindHandler(s.resources[r.uri].kind.handlers, GET).Some?
    requires forall a :: a in between ==> a == QueueStep
    ensures var t := Run(setup, Step(setup, s, Arrive(r)), between);
      var u, k := Step(setup, t, ServerStep), s.resources[r.uri].kind;
      && u.ring.prod == RM.Test(Item(r.uri, GET, Value(setup, k, r.uri, t.processed, |t.processed|)))
      && u.pending == EnqueuingGet(Value(setup, k, r.uri, s.processed, |s.processed|), |s.processed|, |t.processed|)
  {
    var a := Step(setup, s, Arrive(r));
    var t := Run(setup, a, between);
    StepKeepsInv(setup, s, Arrive(r));
    QueueStepsKeepPending(setup, a, between);
    RunKeepsInv(setup, a, between);
    RunGrows(setup, a, between);
    assert KindAt(setup, t, r.uri) == KindAt(setup, a, r.uri) == KindAt(setup, s, r.uri);
  }

  /** Reads never go back: a later GET sees all that an earlier one was answered or queued with. */
  lemma ReadsNeverGoBack(setup: Setup, s: State, actions: seq<Action>, i: nat, j: nat)
    requires Initial(s) && SafeRun(setup, s, actions)
    requires i < j < |Run(setup, s, actions).log|
    requires Run(setup, s, actions).log[i].Content? && Run(setup, s, actions).log[j].Content?
    ensures Run(setup, s, actions).log[i].seenAgain <= Run(setup, s, actions).log[j].seen
  {
    InitialInv(setup, s);
    RunKeepsInv(setup, s, actions);
  }

  /**
   * A request is refused exactly when its full test finds `max - 1` items that are
   * not yet released, and is not misled.
   */
  lemma RefusedIffFull(setup: Setup, s: State)
    requires Inv(setup, s) && SafeStep(s, ServerStep) && s.ring.prod.Test?
    ensures var t := Step(setup, s, ServerStep);
      && (t.log == s.log + [Refused(s.ring.prod.x)] <==>
          RM.Pending(s.ring) == s.ring.mem.Max() - 1 && !RM.InWindow(s.ring))
      && (t.log == s.log + [Refused(s.ring.prod.x)] || (t.log == s.log && t.ring.prod == RM.Write(s.ring.prod.x)))
      && t.ring.accepted == s.ring.accepted
  {
    RM.ProducerStepFacts(s.ring);
    assert |s.log + [Refused(s.ring.prod.x)]| == |s.log| + 1;
  }

  /** Runs in which the queue thread's increment and reset of `start` are not separated by the server thread. */
  ghost predicate ReleasesAtomically(setup: Setup, s: State, actions: seq<Action>)
    decreases |actions|
  {
    actions != [] ==>
      && (s.ring.cons.Rewind? ==> actions[0].QueueStep?)
      && ReleasesAtomically(setup, Step(setup, s, actions[0]), actions[1..])
  }

  lemma WindowNeedsRewind(r: RM.State<Item>)
    requires RM.Inv(r) && RM.InWindow(r)
    ensures r.cons.Rewind?
  {
  }

  lemma ArrivalIsNotMisled(setup: Setup, s: State, r: Request)
    requires s.pending.Quiet? && s.ring.prod.Idle?
    ensures !RM.Overfilling(Step(setup, s, Arrive(r)).ring)
  {
  }

  lemma AtomicReleaseStep(setup: Setup, s: State, a: Action)
    requires RM.Inv(s.ring) && Wired(s) && !RM.Overfilling(s.ring) && (s.ring.cons.Rewind? ==> a.QueueStep?)
    ensures SafeStep(s, a) && !RM.Overfilling(Step(setup, s, a).ring)
  {
    if RM.InWindow(s.ring) {
      WindowNeedsRewind(s.ring);
    }
    match a
    case Arrive(r) =>
      if s.pending.Quiet? {
        ArrivalIsNotMisled(setup, s, r);
      }
    case ServerStep => RM.ProducerStepFacts(s.ring);
    case QueueStep => RM.ConsumerStepFacts(s.ring);
  }

  /** All of them are safe, so everything here holds for every other interleaving. */
  lemma {:induction false} AtomicReleaseIsSafe(setup: Setup, s: State, actions: seq<Action>)
    requires Inv(setup, s) && !RM.Overfilling(s.ring) && ReleasesAtomically(setup, s, actions)
    ensures SafeRun(setup, s, actions)
    decreases |actions|
  {
    if actions != [] {
      AtomicReleaseStep(setup, s, actions[0]);
      StepKeepsInv(setup, s, actions[0]);
      AtomicReleaseIsSafe(setup, Step(setup, s, actions[0]), actions[1..]);
    }
  }

  // ---------- The queue drains ----------

  ghost function QueueOnly(steps: nat): seq<Action> { seq(steps, _ => QueueStep) }

  lemma {:induction false} QueueOnlyRun(setup: Setup, s: State, steps: nat)
    ensures SafeRun(setup, s, QueueOnly(steps))
    ensures var e := Run(setup, s, QueueOnly(steps));
      && e.ring == RM.Run(s.ring, RM.ConsumerOnly(steps))
      && e.log == s.log && e.pending == s.pending
    decreases steps
  {
    if steps > 0 {
      assert QueueOnly(steps)[1..] == QueueOnly(steps - 1);
      RM.ConsumerOnlyUnfold(s.ring, steps);
      QueueOnlyRun(setup, Step(setup, s, QueueStep), steps - 1);
    } else {
      RM.ConsumerOnlyUnfold(s.ring, 0);
    }
  }

  /** From every state the queue thread by itself processes everything promised. */
  lemma EverythingPromisedIsProcessed(setup: Setup, s: State)
    requires Inv(setup, s)
    ensures RM.DrainSteps(s.ring) >= 0
    ensures var e := Run(setup, s, QueueOnly(RM.DrainSteps(s.ring)));
      && Inv(setup, e) && e.log == s.log && e.pending == s.pending
      && e.processed == Promised(s.log, |s.log|) + InFlight(s) && RM.Pending(e.ring) == 0
  {
    RM.DrainDeliversAll(s.ring);
    var steps := RM.DrainSteps(s.ring);
    QueueOnlyRun(setup, s, steps);
    RunKeepsInv(setup, s, QueueOnly(steps));
    RM.ConsumerOnlyKeepsAccepted(s.ring, steps);
  }

  // ---------- The last upload is seen ----------

  ghost predicate Stores(k: Kind, uri: string, item: Item) {
    item.uri == uri && FindHandler(k.handlers, item.kind).Some? && FindHandler(k.handlers, item.kind).value.store
  }

  ghost predicate IsUpload(item: Item) { item.kind == PUT || item.kind == POST }

  lemma {:induction false} HandlerKind(handlers: seq<Handler>, kind: MethodType)
    requires FindHandler(handlers, kind).Some?
    ensures FindHandler(handlers, kind).value.kind == kind
  {
    if handlers[0].kind != kind {
      HandlerKind(handlers[1..], kind);
    }
  }

  /** The value after the last storing upload is its data. */
  lemma {:induction false} ValueOfLastUpload(setup: Setup, k: Kind, uri: string, items: seq<Item>, last: nat, n: nat)
    requires last < n <= |items| && Stores(k, uri, items[last]) && IsUpload(items[last])
    requires forall j :: last < j < n ==> !Stores(k, uri, items[j])
    ensures Value(setup, k, uri, items, n) == items[last].data
  {
    if n == last + 1 {
      HandlerKind(k.handlers, items[last].kind);
    } else {
      ValueOfLastUpload(setup, k, uri, items, last, n - 1);
      assert !Stores(k, uri, items[n - 1]);
    }
  }

  /** What no storing request changes keeps its initial value. */
  lemma {:induction false} ValueWithoutStores(setup: Setup, k: Kind, uri: string, items: seq<Item>, n: nat)
    requires n <= |items| && forall j :: 0 <= j < n ==> !Stores(k, uri, items[j])
    ensures Value(setup, k, uri, items, n) == k.initialValue
  {
    if n > 0 {
      ValueWithoutStores(setup, k, uri, items, n - 1);
      assert !Stores(k, uri, items[n - 1]);
    }
  }

  /**
   * The value after a last storing GET is what the first formatter, and the command
   * if there is one, leaves of its data.
   */
  lemma {:induction false} ValueOfLastStoringGet(
    setup: Setup, k: Kind, uri: string, items: seq<Item>, last: nat, n: nat, h: Handler)
    requires last < n <= |items| && Stores(k, uri, items[last]) && items[last].kind == GET
    requires FindHandler(k.handlers, GET) == Some(h) && |h.formatters| > 0
    requires forall j :: last < j < n ==> !Stores(k, uri, items[j])
    ensures BytesLeft(h, setup.exec, last, items[last].data, Value(setup, k, uri, items, n))
  {
    if n == last + 1 {
      HandlerKind(k.handlers, GET);
      StoredIs(h, setup.exec, last, items[last].data);
    } else {
      ValueOfLastStoringGet(setup, k, uri, items, last, n - 1, h);
      assert !Stores(k, uri, items[n - 1]);
    }
  }

  /** `last` is the last of the first `n` items that stores into the resource, and it is an upload. */
  ghost predicate LastStoring(k: Kind, uri: string, items: seq<Item>, last: nat) {
    && last < |items| && Stores(k, uri, items[last]) && IsUpload(items[last])
    && forall j :: last < j < |items| ==> !Stores(k, uri, items[j])
  }

  /** The request that arrives at `s` is answered by the next entry of the log, and its own history stays. */
  lemma AnswerOf(setup: Setup, s: State, r: Request, actions: seq<Action>)
    requires Inv(setup, s) && s.pending.Quiet? && SafeRun(setup, s, [Arrive(r)] + actions)
    ensures var e := Run(setup, s, [Arrive(r)] + actions);
      && Inv(setup, e) && Grows(setup, s, e)
      && |s.log| < |e.arrivals| && e.arrivals[|s.log|] == Arrival(r, |s.processed|)
  {
    var t := Step(setup, s, Arrive(r));
    assert ([Arrive(r)] + actions)[1..] == actions;
    RunKeepsInv(setup, s, [Arrive(r)] + actions);
    RunGrows(setup, s, [Arrive(r)] + actions);
    ArrivalIsKept(setup, s, r);
    RunGrows(setup, t, actions);
  }

  lemma ArrivalIsKept(setup: Setup, s: State, r: Request)
    requires s.pending.Quiet?
    ensures Step(setup, s, Arrive(r)).arrivals == s.arrivals + [Arrival(r, |s.processed|)]
  {
  }

  /**
   * A GET is answered with the data of the last storing PUT or POST that had been
   * processed when it arrived, if no storing GET came after it; or it is refused.
   * This holds of every safe continuation that answers it.
   */
  lemma GetSeesLastUpload(setup: Setup, s: State, r: Request, actions: seq<Action>, last: nat)
    requires Inv(setup, s) && s.pending.Quiet? && SafeRun(setup, s, [Arrive(r)] + actions)
    requires r.kind == GET && r.uri in s.resources && FindHandler(s.resources[r.uri].kind.handlers, GET).Some?
    requires LastStoring(s.resources[r.uri].kind, r.uri, s.processed, last)
    requires |Run(setup, s, [Arrive(r)] + actions).log| > |s.log|
    ensures var a := Run(setup, s, [Arrive(r)] + actions).log[|s.log|];
      && (a.Content? || a.Refused?) && IsItemOf(a.item, r)
      && (a.Content? ==> a.value == s.processed[last].data)
  {
    AnswerOf(setup, s, r, actions);
    var e, n, k := Run(setup, s, [Arrive(r)] + actions), |s.processed|, s.resources[r.uri].kind;
    var a := e.log[|s.log|];
    assert KindAt(setup, e, r.uri) == Some(k);
    assert Fits(setup, e, r, a);
    if a.Content? {
      assert ContentOk(setup, e, a);
      ValuePrefix(setup, k, r.uri, s.processed, e.processed, n);
      ValueOfLastUpload(setup, k, r.uri, s.processed, last, n);
    }
  }

  // ---------- Who is refused ----------

  /** The `i`-th request is under way and will find room, or has been answered and not been refused. */
  ghost predicate WillFindRoom(s: State, i: nat) {
    if |s.log| > i then !s.log[i].Refused?
    else
      && |s.log| == i && !s.pending.Quiet?
      && (s.pending.SecondRead? || s.ring.prod.Test? ==> RM.Pending(s.ring) < s.ring.mem.Max() - 1)
  }

  lemma WillFindRoomStep(setup: Setup, s: State, a: Action, i: nat)
    requires Inv(setup, s) && SafeStep(s, a) && WillFindRoom(s, i)
    ensures WillFindRoom(Step(setup, s, a), i)
  {
    RM.MaxOfStep(s.ring, RM.ProducerStep);
    RM.MaxOfStep(s.ring, RM.ConsumerStep);
    StepGrows(setup, s, a);
    if a.ServerStep? && Enqueuing(s) {
      RM.ProducerStepFacts(s.ring);
    } else if a.QueueStep? {
      RM.ConsumerStepFacts(s.ring);
    }
  }

  lemma {:induction false} WillFindRoomRun(setup: Setup, s: State, actions: seq<Action>, i: nat)
    requires Inv(setup, s) && SafeRun(setup, s, actions) && WillFindRoom(s, i)
    ensures WillFindRoom(Run(setup, s, actions), i)
    decreases |actions|
  {
    if actions != [] {
      WillFindRoomStep(setup, s, actions[0], i);
      StepKeepsInv(setup, s, actions[0]);
      WillFindRoomRun(setup, Step(setup, s, actions[0]), actions[1..], i);
    }
  }

  /** A request that arrives while fewer than `max - 1` items are waiting is not refused, whatever happens then. */
  lemma RoomOnArrivalIsEnough(setup: Setup, s: State, r: Request, actions: seq<Action>)
    requires Inv(setup, s) && s.pending.Quiet? && SafeRun(setup, s, [Arrive(r)] + actions)
    requires RM.Pending(s.ring) < s.ring.mem.Max() - 1
    requires |Run(setup, s, [Arrive(r)] + actions).log| > |s.log|
    ensures !Run(setup, s, [Arrive(r)] + actions).log[|s.log|].Refused?
  {
    var t := Step(setup, s, Arrive(r));
    assert ([Arrive(r)] + actions)[1..] == actions;
    StepKeepsInv(setup, s, Arrive(r));
    ArrivalFindsRoom(setup, s, r);
    WillFindRoomRun(setup, t, actions, |s.log|);
  }

  lemma ArrivalFindsRoom(setup: Setup, s: State, r: Request)
    requires s.pending.Quiet? && RM.Pending(s.ring) < s.ring.mem.Max() - 1
    ensures WillFindRoom(Step(setup, s, Arrive(r)), |s.log|)
  {
  }

  /**
   * Read your writes: from any state between two requests, once the queue thread
   * has been left to itself until the queue is empty, a GET that arrives then is
   * answered with the data of the last promised storing PUT or POST (if no storing
   * GET was promised after it), whatever happens after its arrival.
   */
  lemma DrainedGetSeesLastPromised(setup: Setup, s: State, r: Request, actions: seq<Action>, last: nat)
    requires Inv(setup, s) && s.pending.Quiet? && s.ring.mem.Max() >= 2
    requires r.kind == GET && r.uri in s.resources && FindHandler(s.resources[r.uri].kind.handlers, GET).Some?
    requires LastStoring(s.resources[r.uri].kind, r.uri, Promised(s.log, |s.log|), last)
    requires RM.DrainSteps(s.ring) >= 0
    requires var d := Run(setup, s, QueueOnly(RM.DrainSteps(s.ring)));
      SafeRun(setup, d, [Arrive(r)] + actions) && |Run(setup, d, [Arrive(r)] + actions).log| > |s.log|
    ensures var d := Run(setup, s, QueueOnly(RM.DrainSteps(s.ring)));
      var a := Run(setup, d, [Arrive(r)] + actions).log[|s.log|];
      a.Content? && IsItemOf(a.item, r) && a.value == Promised(s.log, |s.log|)[last].data
  {
    var steps := RM.DrainSteps(s.ring);
    var d := Run(setup, s, QueueOnly(steps));
    EverythingPromisedIsProcessed(setup, s);
    QueueOnlyRun(setup, s, steps);
    RM.MaxIsConstant(s.ring, RM.ConsumerOnly(steps));
    RunGrows(setup, s, QueueOnly(steps));
    assert InFlight(s) == [];
    assert KindAt(setup, d, r.uri) == KindAt(setup, s, r.uri);
    GetSeesLastUpload(setup, d, r, actions, last);
    RoomOnArrivalIsEnough(setup, d, r, actions);
  }

  // ---------- Block-wise uploads reach the queue once ----------

  /** The requests whose blocks of one key went through reassembly and were answered. */
  ghost function RequestsOn(arrivals: seq<Arrival>, log: seq<Answer>, n: nat, key: BT.Key): seq<Request>
    requires n <= |log| && n <= |arrivals|
  {
    if n == 0 then [] else
      RequestsOn(arrivals, log, n - 1, key)
      + (if IsVerdict(log[n - 1]) && arrivals[n - 1].request.block.key == key then [arrivals[n - 1].request] else [])
  }

  /** Their answers. */
  ghost function AnswersOn(arrivals: seq<Arrival>, log: seq<Answer>, n: nat, key: BT.Key): seq<Answer>
    requires n <= |log| && n <= |arrivals|
  {
    if n == 0 then [] else
      AnswersOn(arrivals, log, n - 1, key)
      + (if IsVerdict(log[n - 1]) && arrivals[n - 1].request.block.key == key then [log[n - 1]] else [])
  }

  /**
   * What an upload is answered, given what became of its block: a whole body is
   * tried once, on its own path and method.
   */
  ghost predicate Tells(r: Request, a: Answer, o: BT.Outcome) {
    match o
    case Waiting => a == Continue
    case Failed => a == BadBlock
    case Complete(body) => a == Accepted(Item(r.uri, r.kind, body)) || a == Refused(Item(r.uri, r.kind, body))
  }

  lemma FitTells(setup: Setup, s: State, r: Request, a: Answer)
    requires Fits(setup, s, r, a) && IsVerdict(a)
    ensures Tells(r, a, Verdict(a))
  {
  }

  /** `rs` are the requests of the key's blocks, and their answers tell what became of them. */
  ghost predicate Told(
    blocks: seq<BT.Block>, outcomes: seq<BT.Outcome>, key: BT.Key, rs: seq<Request>, answers: seq<Answer>)
  {
    && |blocks| == |outcomes|
    && var mine, verdicts := BT.Select(blocks, key), BT.SelectOutcomes(blocks, outcomes, key);
       && |rs| == |answers| == |mine| == |verdicts|
       && forall m :: 0 <= m < |rs| ==> rs[m].block == mine[m] && Tells(rs[m], answers[m], verdicts[m])
  }

  lemma ToldOneMore(
    blocks: seq<BT.Block>, outcomes: seq<BT.Outcome>, key: BT.Key, rs: seq<Request>, answers: seq<Answer>,
    r: Request, a: Answer, o: BT.Outcome)
    requires Told(blocks, outcomes, key, rs, answers) && Tells(r, a, o)
    ensures if r.block.key == key then Told(blocks + [r.block], outcomes + [o], key, rs + [r], answers + [a])
            else Told(blocks + [r.block], outcomes + [o], key, rs, answers)
  {
    var n := |blocks|;
    assert (blocks + [r.block])[..n] == blocks && (outcomes + [o])[..n] == outcomes;
    var mine := BT.Select(blocks, key);
    assert BT.Select(blocks + [r.block], key) == mine + (if r.block.key == key then [r.block] else []);
  }

  lemma {:induction false} AnswersOnKey(setup: Setup, s: State, n: nat, key: BT.Key)
    requires AnswersFit(setup, s) && n <= |s.log|
    ensures Told(Judged(s.arrivals, s.log, n), Verdicts(s.log, n), key,
                 RequestsOn(s.arrivals, s.log, n, key), AnswersOn(s.arrivals, s.log, n, key))
  {
    if n > 0 {
      AnswersOnKey(setup, s, n - 1, key);
      var r, a := s.arrivals[n - 1].request, s.log[n - 1];
      var blocks, outcomes := Judged(s.arrivals, s.log, n - 1), Verdicts(s.log, n - 1);
      var rs, answers := RequestsOn(s.arrivals, s.log, n - 1, key), AnswersOn(s.arrivals, s.log, n - 1, key);
      assert blocks + [] == blocks && outcomes + [] == outcomes && rs + [] == rs && answers + [] == answers;
      if IsVerdict(a) {
        FitTells(setup, s, r, a);
        ToldOneMore(blocks, outcomes, key, rs, answers, r, a, Verdict(a));
      }
    }
  }

  /** Reassembly of the answered blocks gives what their answers say. */
  lemma AnsweredBlocks(s: State)
    requires Wired(s) && UploadsKept(s)
    ensures BT.Run(map[], Judged(s.arrivals, s.log, |s.log|)).1 == Verdicts(s.log, |s.log|)
  {
    var blocks := Judged(s.arrivals, s.log, |s.log|);
    if s.pending.EnqueuingUpload? {
      assert Blocks(s)[..|blocks|] == blocks;
      var before := BT.Run(map[], blocks).1;
      assert before == Outcomes(s)[..|before|];
    } else {
      assert Blocks(s) == blocks && Outcomes(s) == Verdicts(s.log, |s.log|);
    }
  }

  /** The answers to the blocks of a key, the first of which are those of the transfers. */
  ghost predicate TransfersAnswered(e: State, key: BT.Key, transfers: seq<seq<BT.Block>>)
    requires |e.log| <= |e.arrivals|
  {
    var rs, answers := RequestsOn(e.arrivals, e.log, |e.log|, key), AnswersOn(e.arrivals, e.log, |e.log|, key);
    && |rs| == |answers| <= |Flatten(transfers)| && |rs| <= |BT.FlatOutcomes(transfers)|
    && forall m :: 0 <= m < |rs| ==>
         rs[m].block == Flatten(transfers)[m] && Tells(rs[m], answers[m], BT.FlatOutcomes(transfers)[m])
  }

  lemma AnswersFollowTransfers(setup: Setup, e: State, key: BT.Key, transfers: seq<seq<BT.Block>>)
    requires Wired(e) && UploadsKept(e) && AnswersFit(setup, e) && forall t :: t in transfers ==> BT.Transfer(t)
    requires BT.Select(Judged(e.arrivals, e.log, |e.log|), key) <= Flatten(transfers)
    ensures TransfersAnswered(e, key, transfers)
  {
    AnswersOnKey(setup, e, |e.log|, key);
    AnsweredBlocks(e);
    BT.InterleavedTransfersComplete(map[], Judged(e.arrivals, e.log, |e.log|), key, transfers);
  }

  /**
   * Over every safe run, however requests are interleaved: if the blocks of a key
   * that were answered by reassembly form transfers one after the other (the last
   * one perhaps unfinished), each block but the last of a transfer is answered
   * CONTINUE, and the last one makes the only attempt to enqueue, with the whole
   * body and the path and method of its own request.
   */
  lemma TransfersAreEnqueuedOnce(setup: Setup, s: State, actions: seq<Action>, key: BT.Key, transfers: seq<seq<BT.Block>>)
    requires Initial(s) && SafeRun(setup, s, actions)
    requires forall t :: t in transfers ==> BT.Transfer(t)
    requires var e := Run(setup, s, actions);
      |e.log| <= |e.arrivals| && BT.Select(Judged(e.arrivals, e.log, |e.log|), key) <= Flatten(transfers)
    ensures TransfersAnswered(Run(setup, s, actions), key, transfers)
  {
    InitialInv(setup, s);
    RunKeepsInv(setup, s, actions);
    AnswersFollowTransfers(setup, Run(setup, s, actions), key, transfers);
  }

  /**
   * Over every safe run, a block of a larger body that was accepted or refused
   * comes after a block of its key at offset 0: nothing is made of a body whose
   * beginning the server has not seen.
   */
  lemma UploadsWereStarted(setup: Setup, s: State, actions: seq<Action>, key: BT.Key, m: nat)
    requires Initial(s) && SafeRun(setup, s, actions)
    requires var e := Run(setup, s, actions);
      && |e.log| <= |e.arrivals|
      && var rs, answers := RequestsOn(e.arrivals, e.log, |e.log|, key), AnswersOn(e.arrivals, e.log, |e.log|, key);
      && m < |rs| && m < |answers| && (answers[m].Accepted? || answers[m].Refused?)
      && rs[m].block.hasData && |rs[m].block.data| != rs[m].block.total
    ensures var e := Run(setup, s, actions);
      var rs := RequestsOn(e.arrivals, e.log, |e.log|, key);
      exists j :: 0 <= j < m && BT.StartsBody(rs[j].block)
  {
    InitialInv(setup, s);
    RunKeepsInv(setup, s, actions);
    UploadWasStarted(setup, Run(setup, s, actions), key, m);
  }

  lemma UploadWasStarted(setup: Setup, e: State, key: BT.Key, m: nat)
    requires Wired(e) && UploadsKept(e) && AnswersFit(setup, e)
    requires var rs, answers := RequestsOn(e.arrivals, e.log, |e.log|, key), AnswersOn(e.arrivals, e.log, |e.log|, key);
      && m < |rs| && m < |answers| && (answers[m].Accepted? || answers[m].Refused?)
      && rs[m].block.hasData && |rs[m].block.data| != rs[m].block.total
    ensures exists j :: 0 <= j < m && BT.StartsBody(RequestsOn(e.arrivals, e.log, |e.log|, key)[j].block)
  {
    var blocks := Judged(e.arrivals, e.log, |e.log|);
    var rs, mine := RequestsOn(e.arrivals, e.log, |e.log|, key), BT.Select(blocks, key);
    AnswersOnKey(setup, e, |e.log|, key);
    AnsweredBlocks(e);
    BT.KeysAreIsolated(map[], blocks, key);
    assert rs[m].block == mine[m];
    BT.CompletionNeedsStart(mine, m);
    var j :| 0 <= j < m && BT.StartsBody(mine[j]);
    assert rs[j].block == mine[j];
  }

  /** Remark: a block that does not complete its body leaves the queue and every resource alone. */
  lemma IncompleteBlockChangesNothing(setup: Setup, s: State, r: Request)
    requires Inv(setup, s) && s.pending.Quiet? && r.uri in s.resources && (r.kind == PUT || r.kind == POST)
    requires FindHandler(s.resources[r.uri].kind.handlers, r.kind).Some?
    requires !BT.Step(s.cache, r.block).1.Complete?
    ensures var t := Step(setup, s, Arrive(r));
      && t.ring == s.ring && t.resources == s.resources && t.processed == s.processed && t.pending.Quiet?
      && t.log == s.log + [if BT.Step(s.cache, r.block).1.Waiting? then Continue else BadBlock]
  {
  }

  // ---------- Creating resources on demand ----------

  /** A server without patterns, whose resources are there from the start. */
  ghost function EagerSetup(setup: Setup): Setup { setup.(patterns := []) }

  /** Every path that has no resource yet but matches a pattern has the resource it would get. */
  ghost function AllResources(setup: Setup, resources: imap<string, Resource>): imap<string, Resource> {
    imap u: string | u in resources || FindPattern(setup, setup.patterns, u).Some? ::
      if u in resources then resources[u] else NewResource(FindPattern(setup, setup.patterns, u).value)
  }

  ghost function Eager(setup: Setup, s: State): State {
    s.(resources := AllResources(setup, s.resources), created := [])
  }

  /** What reading the configuration ensures: only GET, POST and PUT methods. */
  ghost predicate AllAttachable(setup: Setup) {
    forall p :: p in setup.patterns ==> Attachable(p.kind.handlers)
  }

  lemma EagerServe(setup: Setup, s: State, r: Request)
    requires r.uri in s.resources
    ensures Eager(setup, Serve(s, r)) == Serve(Eager(setup, s), r)
  {
    if r.kind == PUT || r.kind == POST {
      EagerUpload(setup, s, r);
    }
  }

  lemma EagerUpload(setup: Setup, s: State, r: Request)
    requires r.uri in s.resources && (r.kind == PUT || r.kind == POST)
    ensures Eager(setup, Serve(s, r)) == Serve(Eager(setup, s), r)
  {
    var t, u := Serve(s, r), Serve(Eager(setup, s), r);
    assert t.resources == s.resources && u.resources == Eager(setup, s).resources;
  }

  lemma EagerCreate(setup: Setup, s: State, uri: string, p: Pattern)
    requires uri !in s.resources && FindPattern(setup, setup.patterns, uri) == Some(p)
    ensures Eager(setup, Created(s, uri, p)) == Eager(setup, s)
  {
    assert AllResources(setup, s.resources[uri := NewResource(p)]) == AllResources(setup, s.resources);
  }

  lemma EagerHandle(setup: Setup, s: State, r: Request)
    requires AllAttachable(setup)
    ensures Eager(setup, Handle(setup, s, r)) == Handle(EagerSetup(setup), Eager(setup, s), r)
  {
    if r.uri in s.resources {
      EagerServe(setup, s, r);
    } else {
      match FindPattern(setup, setup.patterns, r.uri)
      case None =>
      case Some(p) =>
        FindPatternIs(setup, setup.patterns, r.uri);
        EagerCreate(setup, s, r.uri, p);
        EagerServe(setup, Created(s, r.uri, p), r);
    }
  }

  lemma EagerProcess(setup: Setup, s: State, item: Item)
    requires item.uri in s.resources
    ensures Eager(setup, Process(setup, s, item)) == Process(EagerSetup(setup), Eager(setup, s), item)
  {
    var r := s.resources[item.uri];
    var new' := r.(value := Effect(setup, r.kind, item.uri, r.value, item, |s.processed|));
    assert AllResources(setup, s.resources[item.uri := new']) == AllResources(setup, s.resources)[item.uri := new'];
  }

  lemma InHandIsKnown(s: State)
    requires QueueKept(s) && ItemsKnown(s) && s.ring.cons.Handle?
    ensures s.ring.cons.x.uri in s.resources
  {
    assert s.ring.cons.x == s.ring.delivered[|s.processed|] == s.ring.accepted[|s.processed|];
  }

  lemma EagerQueueMove(setup: Setup, s: State)
    requires s.ring.cons.Handle? ==> s.ring.cons.x.uri in s.resources
    ensures Eager(setup, QueueMove(setup, s)) == QueueMove(EagerSetup(setup), Eager(setup, s))
  {
    if s.ring.cons.Handle? {
      EagerProcess(setup, s, s.ring.cons.x);
    }
  }

  lemma EagerStep(setup: Setup, s: State, a: Action)
    requires Inv(setup, s) && AllAttachable(setup)
    ensures Eager(setup, Step(setup, s, a)) == Step(EagerSetup(setup), Eager(setup, s), a)
  {
    match a
    case Arrive(r) => EagerHandle(setup, Received(s, r), r);
    case ServerStep => EagerServerMove(setup, s);
    case QueueStep =>
      if s.ring.cons.Handle? {
        InHandIsKnown(s);
      }
      EagerQueueMove(setup, s);
  }

  lemma EagerServerMove(setup: Setup, s: State)
    requires s.pending.SecondRead? ==> s.pending.uri in s.resources
    ensures Eager(setup, ServerMove(s)) == ServerMove(Eager(setup, s))
  {
    if s.pending.EnqueuingGet? || s.pending.EnqueuingUpload? {
      EagerEnqueue(setup, s, RM.Step(s.ring, RM.ProducerStep));
    }
  }

  lemma EagerEnqueue(setup: Setup, s: State, ring: RM.State<Item>)
    ensures Eager(setup, EnqueueStep(s, ring)) == EnqueueStep(Eager(setup, s), ring)
  {
  }

  /**
   * Creating a resource on the first request for its path cannot be told from
   * having had it all along: every run gives the same answers, and the same values
   * to the resources that exist.
   */
  lemma {:induction false} LazyIsEager(setup: Setup, s: State, actions: seq<Action>)
    requires Inv(setup, s) && AllAttachable(setup) && SafeRun(setup, s, actions)
    ensures Eager(setup, Run(setup, s, actions)) == Run(EagerSetup(setup), Eager(setup, s), actions)
    ensures Run(setup, s, actions).log == Run(EagerSetup(setup), Eager(setup, s), actions).log
    ensures forall u :: u in Run(setup, s, actions).resources ==>
      && u in Run(EagerSetup(setup), Eager(setup, s), actions).resources
      && Run(EagerSetup(setup), Eager(setup, s), actions).resources[u] == Run(setup, s, actions).resources[u]
    decreases |actions|
  {
    if actions != [] {
      EagerStep(setup, s, actions[0]);
      StepKeepsInv(setup, s, actions[0]);
      LazyIsEager(setup, Step(setup, s, actions[0]), actions[1..]);
    }
  }

  ghost predicate CreatedOnce(s0: State, s: State) {
    && (forall i, j :: 0 <= i < j < |s.created| ==> s.created[i] != s.created[j])
    && (forall u :: u in s.resources <==> u in s0.resources || u in s.created)
    && (forall u :: u in s0.resources ==> u !in s.created)
  }

  ghost predicate SameResources(s: State, t: State) {
    t.created == s.created && forall u :: u in t.resources <==> u in s.resources
  }

  lemma ServeSameResources(s: State, r: Request)
    requires r.uri in s.resources
    ensures SameResources(s, Serve(s, r))
  {
  }

  lemma HandleResources(setup: Setup, s: State, r: Request)
    ensures var t := Handle(setup, s, r);
      || SameResources(s, t)
      || (r.uri !in s.resources && exists p :: SameResources(Created(s, r.uri, p), t))
  {
    if r.uri in s.resources {
      ServeSameResources(s, r);
    } else {
      match FindPattern(setup, setup.patterns, r.uri)
      case None =>
      case Some(p) => ServeSameResources(Created(s, r.uri, p), r);
    }
  }

  /** A step creates nothing, or the resource of the request that arrived and had none. */
  lemma StepResources(setup: Setup, s: State, a: Action)
    ensures var t := Step(setup, s, a);
      || SameResources(s, t)
      || (a.Arrive? && a.request.uri !in s.resources && exists p :: SameResources(Created(s, a.request.uri, p), t))
  {
    match a
    case Arrive(r) =>
      if s.pending.Quiet? {
        var c := Received(s, r);
        HandleResources(setup, c, r);
        forall p | SameResources(Created(c, r.uri, p), Handle(setup, c, r))
          ensures SameResources(Created(s, r.uri, p), Handle(setup, c, r))
        {
        }
      }
    case ServerStep =>
    case QueueStep =>
  }

  lemma CreatedOnceStep(setup: Setup, s0: State, s: State, a: Action)
    requires CreatedOnce(s0, s)
    ensures CreatedOnce(s0, Step(setup, s, a))
  {
    StepResources(setup, s, a);
    var t := Step(setup, s, a);
    if t.created != s.created {
      assert t.created == s.created + [a.request.uri];
      assert forall u :: u in t.created <==> u in s.created || u == a.request.uri;
    }
  }

  /** Over every run at most one resource is created for each path, and none is ever removed. */
  lemma {:induction false} ResourcesAreCreatedOnce(setup: Setup, s0: State, s: State, actions: seq<Action>)
    requires CreatedOnce(s0, s)
    ensures CreatedOnce(s0, Run(setup, s, actions))
    decreases |actions|
  {
    if actions != [] {
      CreatedOnceStep(setup, s0, s, actions[0]);
      ResourcesAreCreatedOnce(setup, s0, Step(setup, s, actions[0]), actions[1..]);
    }
  }
}
