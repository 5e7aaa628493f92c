/**
 * The code of `CoapServer`, which runs without being interrupted, is the server
 * of `Server` when its threads do not interleave.
 */
module SequentialRuns {
  import opened Common
  import opened Config
  import opened Server
  import opened CoapServer
  import BT = BlockTransfer
  import RM = RingMachine

  function CodeOf(a: Answer): Code {
    match a
    case NotFound => NOT_FOUND
    case NotAllowed => NOT_ALLOWED
    case AttachFailed => INTERNAL_ERROR
    case Continue => CONTINUE
    case BadBlock => INTERNAL_ERROR
    case Empty => EMPTY
    case Refused(_) => INTERNAL_ERROR
    case Accepted(_) => OK
    case Content(_, value, _, _) => CONTENT(value)
  }

  ghost predicate SameResources(m: map<string, Resource>, i: imap<string, Resource>) {
    forall u :: (u in m <==> u in i) && (u in m ==> m[u] == i[u])
  }

  /** Both threads are between two calls, and the shared data are those of the view. */
  ghost predicate Matches(s: State, v: View) {
    && s.pending.Quiet? && s.ring.cons.Poll?
    && s.ring.delivered <= s.ring.accepted && v.queue == s.ring.accepted[|s.ring.delivered|..]
    && v.capacity == s.ring.mem.Max() && v.cache == s.cache && v.handled == |s.processed|
    && SameResources(v.resources, s.resources)
  }

  lemma {:induction false} RunAppend(setup: Setup, s: State, first: seq<Action>, second: seq<Action>)
    ensures Run(setup, s, first + second) == Run(setup, Run(setup, s, first), second)
    ensures SafeRun(setup, s, first) && SafeRun(setup, Run(setup, s, first), second) ==> SafeRun(setup, s, first + second)
    decreases |first|
  {
    if first == [] {
      assert first + second == second;
    } else {
      assert (first + second)[1..] == first[1..] + second;
      RunAppend(setup, Step(setup, s, first[0]), first[1..], second);
    }
  }

  lemma Extend(setup: Setup, s: State, actions: seq<Action>, a: Action)
    requires SafeRun(setup, s, actions) && SafeStep(Run(setup, s, actions), a)
    ensures SafeRun(setup, s, actions + [a]) && Run(setup, s, actions + [a]) == Step(setup, Run(setup, s, actions), a)
  {
    var e := Run(setup, s, actions);
    RunAppend(setup, s, actions, [a]);
    assert [a][1..] == [];
    assert SafeRun(setup, e, [a]) && Run(setup, e, [a]) == Step(setup, e, a);
  }

  // ---------- The server thread ----------

  /** Only the server thread moves after the request has arrived. */
  ghost predicate OneRequest(actions: seq<Action>, r: Request) {
    actions != [] && actions[0] == Arrive(r) && forall i :: 1 <= i < |actions| ==> actions[i] == ServerStep
  }

  lemma NoWindowAtPoll(r: RM.State<Item>)
    requires RM.Inv(r) && r.cons.Poll?
    ensures !RM.InWindow(r)
  {
  }

  /** There is no window while the queue thread polls, so no full test is misled. */
  lemma EnqueueFacts(r: RM.State<Item>)
    requires RM.Inv(r) && r.cons.Poll? && !RM.Overfilling(r)
    ensures RM.SafeStep(r, RM.ProducerStep)
    ensures var t := RM.Step(r, RM.ProducerStep);
      && RM.Inv(t) && RM.ProducerFacts(r, t) && t.mem.Max() == r.mem.Max() && !RM.Overfilling(t)
      && (r.prod.Test? ==> (t.prod.Idle? <==> RM.Pending(r) == r.mem.Max() - 1))
  {
    NoWindowAtPoll(r);
    RM.ProducerStepFacts(r);
    RM.MaxOfStep(r, RM.ProducerStep);
  }

  /** One step of an `enqueue` that is not disturbed. */
  lemma EnqueueOne(setup: Setup, s: State, actions: seq<Action>)
    requires SafeRun(setup, s, actions)
    requires var e := Run(setup, s, actions);
      RM.Inv(e.ring) && Enqueuing(e) && e.ring.cons.Poll? && !RM.Overfilling(e.ring)
    ensures var e, f := Run(setup, s, actions), Run(setup, s, actions + [ServerStep]);
      && SafeRun(setup, s, actions + [ServerStep]) && RM.Inv(f.ring)
      && f == EnqueueStep(e, f.ring) && RM.ProducerFacts(e.ring, f.ring)
      && f.ring.mem.Max() == e.ring.mem.Max() && !RM.Overfilling(f.ring)
      && (e.ring.prod.Test? ==> (f.ring.prod.Idle? <==> RM.Pending(e.ring) == e.ring.mem.Max() - 1))
  {
    EnqueueFacts(Run(setup, s, actions).ring);
    Extend(setup, s, actions, ServerStep);
  }

  /** The answer of an `enqueue` that finds room. */
  ghost function Success(s: State, item: Item): Answer {
    if s.pending.EnqueuingGet? then Content(item, s.pending.value, s.pending.seen, s.pending.seenAgain) else Accepted(item)
  }

  /** `e` is `s` after its `enqueue` of the item has returned. */
  ghost predicate Enqueued(s: State, item: Item, full: bool, e: State) {
    && e == Answering(s, if full then Refused(item) else Success(s, item)).(ring := e.ring)
    && e.ring.accepted == s.ring.accepted + (if full then [] else [item])
    && e.ring.delivered == s.ring.delivered && e.ring.cons == s.ring.cons
    && e.ring.mem.Max() == s.ring.mem.Max()
  }

  /** The rest of an `enqueue` that has found room: three steps. */
  lemma FinishEnqueue(setup: Setup, s: State, actions: seq<Action>, r: Request, item: Item)
    returns (longer: seq<Action>)
    requires SafeRun(setup, s, actions) && OneRequest(actions, r)
    requires var e := Run(setup, s, actions);
      RM.Inv(e.ring) && Enqueuing(e) && e.ring.cons.Poll? && e.ring.prod == RM.Write(item) && !RM.Overfilling(e.ring)
    ensures SafeRun(setup, s, longer) && OneRequest(longer, r)
    ensures Enqueued(Run(setup, s, actions), item, false, Run(setup, s, longer))
  {
    EnqueueOne(setup, s, actions);
    longer := actions + [ServerStep];
    EnqueueOne(setup, s, longer);
    longer := longer + [ServerStep];
    EnqueueOne(setup, s, longer);
    longer := longer + [ServerStep];
  }

  /** The whole `enqueue`: four steps, or one when the ring is full. */
  lemma WholeEnqueue(setup: Setup, s: State, actions: seq<Action>, r: Request, item: Item)
    returns (longer: seq<Action>)
    requires SafeRun(setup, s, actions) && OneRequest(actions, r)
    requires var e := Run(setup, s, actions);
      RM.Inv(e.ring) && Enqueuing(e) && e.ring.cons.Poll? && e.ring.prod == RM.Test(item)
    ensures SafeRun(setup, s, longer) && OneRequest(longer, r)
    ensures var e := Run(setup, s, actions);
      Enqueued(e, item, RM.Pending(e.ring) == e.ring.mem.Max() - 1, Run(setup, s, longer))
  {
    EnqueueOne(setup, s, actions);
    longer := actions + [ServerStep];
    if Run(setup, s, longer).ring.prod.Write? {
      longer := FinishEnqueue(setup, s, longer, r, item);
    }
  }

  /** What `WholeEnqueue` leaves is what `EnqueueNow` computes. */
  lemma EnqueueMatches(s: State, v: View, t: State, e: State, item: Item, success: Code)
    requires Matches(s, v) && t.ring.accepted == s.ring.accepted && t.ring.delivered == s.ring.delivered
    requires t.ring.cons == s.ring.cons && t.ring.mem.Max() == s.ring.mem.Max()
    requires t.cache == v.cache && SameResources(v.resources, t.resources) && |t.processed| == v.handled
    requires RM.Pending(t.ring) <= t.ring.mem.Max() - 1
    requires Enqueued(t, item, RM.Pending(t.ring) == t.ring.mem.Max() - 1, e)
    ensures Matches(e, EnqueueNow(v, item, success).0)
    ensures EnqueueNow(v, item, success).1 == if RM.Pending(t.ring) == t.ring.mem.Max() - 1 then INTERNAL_ERROR else success
  {
    var h := |s.ring.delivered|;
    assert |v.queue| == RM.Pending(s.ring);
    assert (s.ring.accepted + [item])[h..] == s.ring.accepted[h..] + [item];
    assert s.ring.accepted + [] == s.ring.accepted;
  }

  /** After the request has arrived the server is at `Serve(c, r)`, where `c` has the resource asked for. */
  ghost predicate Arrived(setup: Setup, s: State, c: State, v: View, r: Request) {
    && Inv(setup, s) && Matches(c, v) && c.ring == s.ring && c.log == s.log
    && r.uri in c.resources && Step(setup, s, Arrive(r)) == Serve(c, r)
  }

  lemma FirstAction(setup: Setup, s: State, r: Request)
    ensures SafeRun(setup, s, [Arrive(r)]) && Run(setup, s, [Arrive(r)]) == Step(setup, s, Arrive(r))
    ensures OneRequest([Arrive(r)], r)
  {
    assert [Arrive(r)][1..] == [];
  }

  lemma PendingBound(r: RM.State<Item>)
    requires RM.Inv(r)
    ensures RM.Pending(r) <= r.mem.Max() - 1
  {
  }

  /** A request that is answered at once. */
  lemma ImmediateAnswer(c: State, v: View, r: Request) returns (a: Answer)
    requires Matches(c, v) && r.uri in c.resources && Serve(c, r).pending.Quiet?
    ensures Matches(Serve(c, r), ServeNow(v, r).0) && Serve(c, r).log == c.log + [a] && CodeOf(a) == ServeNow(v, r).1
  {
    var resource := c.resources[r.uri];
    if FindHandler(resource.kind.handlers, r.kind).Some? && (r.kind == PUT || r.kind == POST) {
      a := ImmediateVerdict(c, v, r);
    } else {
      a := Serve(c, r).log[|c.log|];
    }
  }

  lemma ImmediateVerdict(c: State, v: View, r: Request) returns (a: Answer)
    requires Matches(c, v) && r.uri in c.resources && Serve(c, r).pending.Quiet?
    requires FindHandler(c.resources[r.uri].kind.handlers, r.kind).Some? && (r.kind == PUT || r.kind == POST)
    ensures Matches(Serve(c, r), ServeNow(v, r).0) && Serve(c, r).log == c.log + [a] && CodeOf(a) == ServeNow(v, r).1
  {
    var (cache, outcome) := BT.Step(c.cache, r.block);
    a := if outcome.Waiting? then Continue else BadBlock;
    assert Serve(c, r) == Answering(c.(cache := cache), a);
  }

  lemma UploadShape(c: State, v: View, r: Request)
    requires Matches(c, v) && r.uri in c.resources && Serve(c, r).pending.EnqueuingUpload?
    ensures var t := Serve(c, r);
      && t.ring == Submit(c, t.ring.prod.x) && t.ring.prod.Test?
      && t == c.(ring := t.ring, cache := t.cache, pending := EnqueuingUpload)
      && ServeNow(v, r) == EnqueueNow(v.(cache := t.cache), t.ring.prod.x, OK)
      && Matches(c.(cache := t.cache), v.(cache := t.cache))
  {
  }

  lemma UploadAnswered(c: State, v: View, r: Request, e: State) returns (a: Answer)
    requires Matches(c, v) && r.uri in c.resources && Serve(c, r).pending.EnqueuingUpload?
    requires RM.Pending(c.ring) <= c.ring.mem.Max() - 1
    requires var t := Serve(c, r); Enqueued(t, t.ring.prod.x, RM.Pending(t.ring) == t.ring.mem.Max() - 1, e)
    ensures Matches(e, ServeNow(v, r).0) && e.log == c.log + [a] && CodeOf(a) == ServeNow(v, r).1
  {
    var t := Serve(c, r);
    var item := t.ring.prod.x;
    UploadShape(c, v, r);
    a := if RM.Pending(t.ring) == t.ring.mem.Max() - 1 then Refused(item) else Accepted(item);
    EnqueueMatches(c.(cache := t.cache), v.(cache := t.cache), t, e, item, OK);
  }

  lemma UploadRun(setup: Setup, s: State, c: State, v: View, r: Request) returns (actions: seq<Action>, a: Answer)
    requires Arrived(setup, s, c, v, r) && Serve(c, r).pending.EnqueuingUpload?
    ensures SafeRun(setup, s, actions) && OneRequest(actions, r)
    ensures var e := Run(setup, s, actions);
      Matches(e, ServeNow(v, r).0) && e.log == s.log + [a] && CodeOf(a) == ServeNow(v, r).1
  {
    UploadShape(c, v, r);
    FirstAction(setup, s, r);
    PendingBound(s.ring);
    actions := WholeEnqueue(setup, s, [Arrive(r)], r, Serve(c, r).ring.prod.x);
    a := UploadAnswered(c, v, r, Run(setup, s, actions));
  }

  /** The second read of a GET, which puts it in front of the queue. */
  ghost function ReadAgain(t: State, item: Item): State
    requires t.pending.SecondRead?
  {
    t.(ring := Submit(t, item), pending := EnqueuingGet(t.pending.value, t.pending.seen, |t.processed|))
  }

  lemma SecondAction(setup: Setup, s: State, t: State, r: Request, item: Item)
    requires Run(setup, s, [Arrive(r)]) == t && SafeRun(setup, s, [Arrive(r)])
    requires t.pending.SecondRead? && t.pending.uri in t.resources && t.ring.prod.Idle?
    requires item == Item(t.pending.uri, GET, t.resources[t.pending.uri].value)
    ensures SafeRun(setup, s, [Arrive(r), ServerStep]) && OneRequest([Arrive(r), ServerStep], r)
    ensures Run(setup, s, [Arrive(r), ServerStep]) == ReadAgain(t, item)
  {
    Extend(setup, s, [Arrive(r)], ServerStep);
    assert [Arrive(r)] + [ServerStep] == [Arrive(r), ServerStep];
  }

  lemma GetShape(c: State, v: View, r: Request)
    requires Matches(c, v) && r.uri in c.resources && Serve(c, r).pending.SecondRead?
    ensures var t, value := Serve(c, r), c.resources[r.uri].value;
      && t == c.(pending := SecondRead(r.uri, value, |c.processed|))
      && ServeNow(v, r) == EnqueueNow(v, Item(r.uri, GET, value), CONTENT(value))
  {
  }

  lemma GetAnswered(c: State, v: View, r: Request, e: State) returns (a: Answer)
    requires Matches(c, v) && r.uri in c.resources && Serve(c, r).pending.SecondRead?
    requires RM.Pending(c.ring) <= c.ring.mem.Max() - 1
    requires var item := Item(r.uri, GET, c.resources[r.uri].value);
      var q := ReadAgain(Serve(c, r), item);
      Enqueued(q, item, RM.Pending(q.ring) == q.ring.mem.Max() - 1, e)
    ensures Matches(e, ServeNow(v, r).0) && e.log == c.log + [a] && CodeOf(a) == ServeNow(v, r).1
  {
    var value := c.resources[r.uri].value;
    var item := Item(r.uri, GET, value);
    GetShape(c, v, r);
    var q := ReadAgain(Serve(c, r), item);
    a := if RM.Pending(q.ring) == q.ring.mem.Max() - 1 then Refused(item) else Success(q, item);
    EnqueueMatches(c, v, q, e, item, CONTENT(value));
  }

  lemma GetRun(setup: Setup, s: State, c: State, v: View, r: Request) returns (actions: seq<Action>, a: Answer)
    requires Arrived(setup, s, c, v, r) && Serve(c, r).pending.SecondRead?
    ensures SafeRun(setup, s, actions) && OneRequest(actions, r)
    ensures var e := Run(setup, s, actions);
      Matches(e, ServeNow(v, r).0) && e.log == s.log + [a] && CodeOf(a) == ServeNow(v, r).1
  {
    var item := Item(r.uri, GET, c.resources[r.uri].value);
    GetShape(c, v, r);
    FirstAction(setup, s, r);
    PendingBound(s.ring);
    SecondAction(setup, s, Serve(c, r), r, item);
    actions := WholeEnqueue(setup, s, [Arrive(r), ServerStep], r, item);
    a := GetAnswered(c, v, r, Run(setup, s, actions));
  }

  lemma ServeRun(setup: Setup, s: State, c: State, v: View, r: Request) returns (actions: seq<Action>, a: Answer)
    requires Arrived(setup, s, c, v, r)
    ensures SafeRun(setup, s, actions) && OneRequest(actions, r)
    ensures var e := Run(setup, s, actions);
      Matches(e, ServeNow(v, r).0) && e.log == s.log + [a] && CodeOf(a) == ServeNow(v, r).1
  {
    match Serve(c, r).pending
    case Quiet =>
      actions := [Arrive(r)];
      FirstAction(setup, s, r);
      a := ImmediateAnswer(c, v, r);
    case EnqueuingUpload => actions, a := UploadRun(setup, s, c, v, r);
    case SecondRead(_, _, _) => actions, a := GetRun(setup, s, c, v, r);
  }

  /** A request handled by the code is a run of the server in which only the server thread moves. */
  lemma RequestIsARun(setup: Setup, s: State, v: View, r: Request) returns (actions: seq<Action>, a: Answer)
    requires Inv(setup, s) && Matches(s, v)
    ensures SafeRun(setup, s, actions) && OneRequest(actions, r)
    ensures var e := Run(setup, s, actions);
      Matches(e, HandleNow(setup, v, r).0) && e.log == s.log + [a] && CodeOf(a) == HandleNow(setup, v, r).1
  {
    if r.uri in s.resources {
      actions, a := ServeRun(setup, s, Received(s, r), v, r);
    } else {
      var p := FindPattern(setup, setup.patterns, r.uri);
      if p == None || FindHandler(p.value.kind.handlers, r.kind) == None || !Attachable(p.value.kind.handlers) {
        actions := [Arrive(r)];
        FirstAction(setup, s, r);
        a := Handle(setup, Received(s, r), r).log[|s.log|];
      } else {
        var w := v.(resources := v.resources[r.uri := NewResource(p.value)]);
        actions, a := ServeRun(setup, s, Created(Received(s, r), r.uri, p.value), w, r);
      }
    }
  }

  // ---------- The queue thread ----------

  ghost predicate OnlyQueue(actions: seq<Action>) {
    forall i :: 0 <= i < |actions| ==> actions[i] == QueueStep
  }

  lemma DequeueFacts(r: RM.State<Item>)
    requires RM.Inv(r)
    ensures RM.Inv(RM.Step(r, RM.ConsumerStep)) && RM.ConsumerFacts(r, RM.Step(r, RM.ConsumerStep))
    ensures RM.Step(r, RM.ConsumerStep).mem.Max() == r.mem.Max()
  {
    RM.ConsumerStepFacts(r);
  }

  lemma DequeueOne(setup: Setup, s: State, actions: seq<Action>)
    requires SafeRun(setup, s, actions) && RM.Inv(Run(setup, s, actions).ring)
    ensures var e, f := Run(setup, s, actions), Run(setup, s, actions + [QueueStep]);
      && SafeRun(setup, s, actions + [QueueStep]) && RM.Inv(f.ring)
      && f == DequeueStep(setup, e, f.ring) && RM.ConsumerFacts(e.ring, f.ring)
      && f.ring.mem.Max() == e.ring.mem.Max()
  {
    DequeueFacts(Run(setup, s, actions).ring);
    Extend(setup, s, actions, QueueStep);
  }

  /** Some steps of the queue thread that move only the ring, and publish nothing. */
  ghost predicate RingMoves(e: State, f: State) {
    f == e.(ring := f.ring) && f.ring.accepted == e.ring.accepted && f.ring.mem.Max() == e.ring.mem.Max()
  }

  lemma ReadItem(setup: Setup, s: State, actions: seq<Action>) returns (longer: seq<Action>)
    requires SafeRun(setup, s, actions) && OnlyQueue(actions)
    requires var e := Run(setup, s, actions); RM.Inv(e.ring) && e.ring.cons.Poll? && RM.Pending(e.ring) > 0
    ensures SafeRun(setup, s, longer) && OnlyQueue(longer) && RM.Inv(Run(setup, s, longer).ring)
    ensures var e, f := Run(setup, s, actions), Run(setup, s, longer);
      RingMoves(e, f) && f.ring.cons.Release? && f.ring.delivered == e.ring.delivered
  {
    DequeueOne(setup, s, actions);
    longer := actions + [QueueStep];
    DequeueOne(setup, s, longer);
    longer := longer + [QueueStep];
    DequeueOne(setup, s, longer);
    longer := longer + [QueueStep];
  }

  /** From the poll that finds an item up to the point where it is in hand. */
  lemma TakeItem(setup: Setup, s: State, actions: seq<Action>) returns (longer: seq<Action>)
    requires SafeRun(setup, s, actions) && OnlyQueue(actions)
    requires var e := Run(setup, s, actions); RM.Inv(e.ring) && e.ring.cons.Poll? && RM.Pending(e.ring) > 0
    ensures SafeRun(setup, s, longer) && OnlyQueue(longer) && RM.Inv(Run(setup, s, longer).ring)
    ensures var e, f := Run(setup, s, actions), Run(setup, s, longer);
      && RingMoves(e, f) && f.ring.cons.Handle?
      && f.ring.delivered == e.ring.delivered + [f.ring.cons.x] && f.ring.delivered <= e.ring.accepted
  {
    longer := ReadItem(setup, s, actions);
    DequeueOne(setup, s, longer);
    longer := longer + [QueueStep];
    DequeueOne(setup, s, longer);
    longer := longer + [QueueStep];
  }

  lemma ProcessMatches(setup: Setup, s: State, v: View, t: State, e: State)
    requires Matches(s, v) && v.queue != [] && t == s.(ring := t.ring) && t.ring.cons.Handle?
    requires t.ring.accepted == s.ring.accepted && t.ring.mem.Max() == s.ring.mem.Max()
    requires t.ring.delivered == s.ring.delivered + [t.ring.cons.x] && t.ring.delivered <= s.ring.accepted
    requires e == DequeueStep(setup, t, e.ring) && RM.ConsumerFacts(t.ring, e.ring) && e.ring.mem.Max() == t.ring.mem.Max()
    ensures Matches(e, ProcessNow(setup, v.(queue := v.queue[1..]), v.queue[0])) && e.log == s.log
  {
    var h := |s.ring.delivered|;
    assert t.ring.cons.x == t.ring.delivered[h] == s.ring.accepted[h] == v.queue[0];
    assert s.ring.accepted[h..][1..] == s.ring.accepted[h + 1..];
  }

  lemma {:induction false} DrainFrom(setup: Setup, s: State, actions: seq<Action>, v: View) returns (longer: seq<Action>)
    requires SafeRun(setup, s, actions) && OnlyQueue(actions) && Matches(Run(setup, s, actions), v)
    requires RM.Inv(Run(setup, s, actions).ring)
    ensures SafeRun(setup, s, longer) && OnlyQueue(longer)
    ensures Matches(Run(setup, s, longer), DrainNow(setup, v))
    ensures Run(setup, s, longer).log == Run(setup, s, actions).log
    decreases |v.queue|
  {
    longer := actions;
    if v.queue != [] {
      var e := Run(setup, s, actions);
      longer := TakeItem(setup, s, actions);
      var t := Run(setup, s, longer);
      DequeueOne(setup, s, longer);
      longer := longer + [QueueStep];
      ProcessMatches(setup, e, v, t, Run(setup, s, longer));
      longer := DrainFrom(setup, s, longer, ProcessNow(setup, v.(queue := v.queue[1..]), v.queue[0]));
    }
  }

  /** One pass of the queue thread's loop is a run in which only the queue thread moves. */
  lemma DrainIsARun(setup: Setup, s: State, v: View) returns (actions: seq<Action>)
    requires Inv(setup, s) && Matches(s, v)
    ensures SafeRun(setup, s, actions) && OnlyQueue(actions)
    ensures Matches(Run(setup, s, actions), DrainNow(setup, v)) && Run(setup, s, actions).log == s.log
  {
    actions := DrainFrom(setup, s, [], v);
  }
}
