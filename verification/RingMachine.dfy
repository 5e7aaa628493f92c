/**
 * The server thread and the queue thread running on one ring, one observable
 * memory access at a time. Both indices are moved in two steps (increment, then
 * reset to zero), so each can rest at the ring size while the other thread runs.
 */
module RingMachine {
  import opened Common
  import opened Modular
  import opened Ring

  /** What the server thread does next inside `enqueue`. */
  datatype Producer<T> = Idle | Test(x: T) | Write(x: T) | Publish(x: T) | Reset(x: T)

  /** What the queue thread does next; `Threw` is the exception of an empty dequeue. */
  datatype Consumer<T> = Poll | Check | Read | Release(x: T) | Rewind(x: T) | Handle(x: T) | Threw

  /**
   * The last three fields are histories; no step reads them to decide what to do.
   * `accepted` and `delivered` are the published and the released items. `misled`
   * is whether the latest full test was taken in the window (`InWindow`) and no
   * item has been released since.
   */
  datatype State<T> = State(
    mem: Memory<T>, prod: Producer<T>, cons: Consumer<T>, accepted: seq<T>, delivered: seq<T>, misled: bool)

  datatype Action<T> = Submit(x: T) | ProducerStep | ConsumerStep

  /** The consumer has incremented `start` past the last slot and not yet reset it, and `end` is the last slot. */
  ghost predicate InWindow<T>(s: State<T>) {
    s.mem.start == s.mem.Max() && s.mem.end + 1 == s.mem.Max()
  }

  ghost predicate CanStep<T>(s: State<T>) {
    && s.mem.Usable()
    && ((s.prod.Write? || s.prod.Publish?) ==> s.mem.end < s.mem.Max())
    && (s.cons.Read? ==> s.mem.start < s.mem.Max())
  }

  ghost function ProducerMove<T>(s: State<T>): State<T>
    requires CanStep(s)
  {
    match s.prod
    case Idle => s
    case Test(x) => s.(prod := if s.mem.LooksFull() then Idle else Write(x), misled := InWindow(s))
    case Write(x) => s.(mem := s.mem.WriteSlot(x), prod := Publish(x))
    case Publish(x) => s.(mem := s.mem.BumpEnd(), prod := Reset(x), accepted := s.accepted + [x])
    case Reset(x) => s.(mem := s.mem.WrapEnd(), prod := Idle)
  }

  ghost function ConsumerMove<T>(s: State<T>): State<T>
    requires CanStep(s)
  {
    match s.cons
    case Poll => if s.mem.Count() == 0 then s else s.(cons := Check)
    case Check => s.(cons := if s.mem.LooksEmpty() then Threw else Read)
    case Read => s.(cons := Release(s.mem.ReadSlot()))
    case Release(x) => s.(mem := s.mem.BumpStart(), cons := Rewind(x), delivered := s.delivered + [x], misled := false)
    case Rewind(x) => s.(mem := s.mem.WrapStart(), cons := Handle(x))
    case Handle(x) => s.(cons := Poll)
    case Threw => s
  }

  /** `StepKeepsInv` shows that the state in which nothing can step is never reached. */
  ghost function Step<T>(s: State<T>, a: Action<T>): State<T> {
    if !CanStep(s) then s else
      match a
      case Submit(x) => if s.prod.Idle? then s.(prod := Test(x)) else s
      case ProducerStep => ProducerMove(s)
      case ConsumerStep => ConsumerMove(s)
  }

  ghost function Run<T>(s: State<T>, schedule: seq<Action<T>>): State<T>
    decreases |schedule|
  {
    if schedule == [] then s else Run(Step(s, schedule[0]), schedule[1..])
  }

  /** The number of items published and not yet released. */
  ghost function Pending<T>(s: State<T>): int { |s.accepted| - |s.delivered| }

  /**
   * The one step that goes wrong: publishing an item on the strength of a full
   * test taken in the window, when nothing has been released since that test.
   */
  ghost predicate SafeStep<T>(s: State<T>, a: Action<T>) {
    !(a.ProducerStep? && s.prod.Publish? && s.misled)
  }

  ghost predicate SafeRun<T>(s: State<T>, schedule: seq<Action<T>>)
    decreases |schedule|
  {
    schedule != [] ==> SafeStep(s, schedule[0]) && SafeRun(Step(s, schedule[0]), schedule[1..])
  }

  /** Schedules in which the consumer's increment and reset are never separated. */
  ghost predicate ReleasesAtomically<T>(s: State<T>, schedule: seq<Action<T>>)
    decreases |schedule|
  {
    schedule != [] ==>
      && (s.cons.Rewind? ==> schedule[0].ConsumerStep?)
      && ReleasesAtomically(Step(s, schedule[0]), schedule[1..])
  }

  ghost predicate Inv<T>(s: State<T>) {
    var m := s.mem.Max();
    var h := |s.delivered|;
    var t := |s.accepted|;
    && s.mem.Usable()
    && h <= t < h + m
    && s.delivered == s.accepted[..h]
    && s.mem.start == (if s.cons.Rewind? && h % m == 0 then m else h % m)
    && s.mem.end == (if s.prod.Reset? && t % m == 0 then m else t % m)
    && (forall i :: h <= i < t ==> s.mem.slots[i % m] == s.accepted[i])
    && ((s.prod.Write? || s.prod.Publish?) ==> (s.misled <==> t - h == m - 1) && (s.misled ==> h % m == 0))
    && (s.prod.Publish? ==> s.mem.slots[t % m] == s.prod.x)
    && (s.prod.Reset? ==> 0 < t && s.accepted[t - 1] == s.prod.x)
    && ((s.cons.Check? || s.cons.Read? || s.cons.Release?) ==> h < t)
    && (s.cons.Release? ==> s.cons.x == s.accepted[h])
    && ((s.cons.Rewind? || s.cons.Handle?) ==> 0 < h && s.cons.x == s.accepted[h - 1])
    && !s.cons.Threw?
  }

  ghost function Init<T>(slots: seq<T>): State<T> {
    State(Memory(slots, 0, 0), Idle, Poll, [], [], false)
  }

  lemma InitInv<T>(slots: seq<T>)
    requires 0 < |slots| && 2 * |slots| <= SIZE_T
    ensures Inv(Init(slots))
  {
  }

  /** `count` returns the exact number of pending items, whatever the producer is doing. */
  lemma CountIsPending<T>(s: State<T>)
    requires Inv(s) && !s.cons.Rewind?
    ensures s.mem.Count() == Pending(s)
  {
    CountIsDistance(s.mem.start, s.mem.end, s.mem.Max());
    ModDifference(|s.delivered|, |s.accepted|, s.mem.Max());
  }

  /**
   * The producer's full test is right in every reachable state except the window,
   * where the ring is full and the test says it is not.
   */
  lemma FullTestIsRightIffOutsideWindow<T>(s: State<T>)
    requires Inv(s) && s.prod.Test?
    ensures (s.mem.LooksFull() <==> Pending(s) == s.mem.Max() - 1) <==> !InWindow(s)
    ensures InWindow(s) ==> Pending(s) == s.mem.Max() - 1
  {
    var m, h, t := s.mem.Max(), |s.delivered|, |s.accepted|;
    ModStep(t, m);
    ModDifference(h, t, m);
    DivModUnique(s.mem.end + 1, m, if s.mem.end + 1 == m then 1 else 0, if s.mem.end + 1 == m then 0 else s.mem.end + 1);
  }

  /**
   * The empty test of `dequeue` on its own is wrong in exactly one kind of state:
   * `end` rests at the ring size and `start` is zero. Only the count taken
   * beforehand keeps the consumer out of it.
   */
  lemma EmptyTestIsRightIffEndReset<T>(s: State<T>)
    requires Inv(s) && !s.cons.Rewind?
    ensures (s.mem.LooksEmpty() <==> Pending(s) == 0) <==> !(s.mem.start == 0 && s.mem.end == s.mem.Max())
  {
    ModDifference(|s.delivered|, |s.accepted|, s.mem.Max());
  }

  /** Neither thread touches a slot the other one is using. */
  lemma NoSlotRace<T>(s: State<T>)
    requires Inv(s) && (s.prod.Write? || s.prod.Publish?) && (s.cons.Read? || s.cons.Release?)
    ensures s.mem.start < s.mem.Max() && s.mem.end < s.mem.Max() && s.mem.start != s.mem.end
  {
    ModDistinct(|s.delivered|, |s.accepted|, s.mem.Max());
  }

  lemma ProducerKeepsInv<T>(s: State<T>)
    requires Inv(s) && SafeStep(s, ProducerStep)
    ensures CanStep(s) && Inv(ProducerMove(s))
  {
    var m, h, t := s.mem.Max(), |s.delivered|, |s.accepted|;
    ModStep(t, m);
    match s.prod
    case Test(x) =>
      FullTestIsRightIffOutsideWindow(s);
    case Write(x) =>
      forall i | h <= i < t
        ensures i % m != t % m
      {
        ModDistinct(i, t, m);
      }
    case _ =>
  }

  /** The two steps of the consumer that move `start`. */
  lemma ReleaseKeepsInv<T>(s: State<T>)
    requires Inv(s) && (s.cons.Release? || s.cons.Rewind?)
    ensures CanStep(s) && Inv(ConsumerMove(s))
  {
    ModStep(|s.delivered|, s.mem.Max());
  }

  lemma ConsumerKeepsInv<T>(s: State<T>)
    requires Inv(s)
    ensures CanStep(s) && Inv(ConsumerMove(s))
  {
    match s.cons
    case Release(_) => ReleaseKeepsInv(s);
    case Rewind(_) => ReleaseKeepsInv(s);
    case Poll => CountIsPending(s);
    case Check =>
      EmptyTestIsRightIffEndReset(s);
      ModDifference(|s.delivered|, |s.accepted|, s.mem.Max());
    case _ =>
  }

  lemma StepKeepsInv<T>(s: State<T>, a: Action<T>)
    requires Inv(s) && SafeStep(s, a)
    ensures CanStep(s) && Inv(Step(s, a))
  {
    if a.ProducerStep? {
      ProducerKeepsInv(s);
    } else if a.ConsumerStep? {
      ConsumerKeepsInv(s);
    }
  }

  /** What a step of the producer does to what both threads can tell of the queue. */
  ghost predicate ProducerFacts<T>(r: State<T>, r': State<T>) {
    && r'.delivered == r.delivered && r'.cons == r.cons && r'.delivered <= r'.accepted
    && r'.misled == (if r.prod.Test? then InWindow(r) else r.misled)
    && match r.prod
       case Idle => r' == r
       case Test(x) =>
         (r'.prod.Idle? || r'.prod == Write(x)) && r'.accepted == r.accepted
       case Write(x) => r'.prod == Publish(x) && r'.accepted == r.accepted
       case Publish(x) => r'.prod == Reset(x) && r'.accepted == r.accepted + [x]
       case Reset(x) => r'.prod.Idle? && r'.accepted == r.accepted
  }

  ghost predicate ConsumerFacts<T>(r: State<T>, r': State<T>) {
    && r'.accepted == r.accepted && r'.prod == r.prod && r'.delivered <= r'.accepted
    && r'.misled == (r.misled && !r.cons.Release?)
    && match r.cons
       case Release(x) => r'.cons == Rewind(x) && r'.delivered == r.delivered + [x]
       case Rewind(x) => r'.cons == Handle(x) && r'.delivered == r.delivered
       case Handle(_) => r'.cons.Poll? && r'.delivered == r.delivered
       case Read => r'.cons.Release? && r'.delivered == r.delivered
       case Check => r'.cons.Read? && r'.delivered == r.delivered
       case Poll => r'.cons == (if Pending(r) == 0 then Poll else Check) && r'.delivered == r.delivered
       case Threw => false
  }

  lemma ProducerStepFacts<T>(r: State<T>)
    requires Inv(r) && SafeStep(r, ProducerStep)
    ensures Inv(Step(r, ProducerStep)) && ProducerFacts(r, Step(r, ProducerStep))
    ensures r.prod.Test? ==>
      (Step(r, ProducerStep).prod.Idle? <==> Pending(r) == r.mem.Max() - 1 && !InWindow(r))
  {
    StepKeepsInv(r, ProducerStep);
    if r.prod.Test? {
      FullTestIsRightIffOutsideWindow(r);
    }
  }

  lemma ConsumerStepFacts<T>(r: State<T>)
    requires Inv(r)
    ensures Inv(Step(r, ConsumerStep)) && ConsumerFacts(r, Step(r, ConsumerStep))
  {
    StepKeepsInv(r, ConsumerStep);
    if r.cons.Poll? {
      CountIsPending(r);
    }
  }

  lemma MaxOfStep<T>(r: State<T>, a: Action<T>)
    ensures Step(r, a).mem.Max() == r.mem.Max()
  {
  }

  lemma {:induction false} RunKeepsInv<T>(s: State<T>, schedule: seq<Action<T>>)
    requires Inv(s) && SafeRun(s, schedule)
    ensures Inv(Run(s, schedule))
    decreases |schedule|
  {
    if schedule != [] {
      StepKeepsInv(s, schedule[0]);
      RunKeepsInv(Step(s, schedule[0]), schedule[1..]);
    }
  }

  /** What a queue of `max - 1` items promises both threads, between any two of their steps. */
  ghost predicate IsBoundedFifo<T>(s: State<T>) {
    && CanStep(s)
    && s.delivered <= s.accepted && Pending(s) <= s.mem.Max() - 1
    && (s.cons.Poll? ==> s.mem.Count() == Pending(s))
    && (s.cons.Handle? ==> s.delivered != [] && s.cons.x == s.delivered[|s.delivered| - 1])
    && !s.cons.Threw?
  }

  ghost predicate FifoThroughout<T>(s: State<T>, schedule: seq<Action<T>>)
    decreases |schedule|
  {
    IsBoundedFifo(s) && (schedule != [] ==> FifoThroughout(Step(s, schedule[0]), schedule[1..]))
  }

  lemma InvIsFifo<T>(s: State<T>)
    requires Inv(s)
    ensures IsBoundedFifo(s)
  {
    if s.prod.Write? || s.prod.Publish? {
      assert s.mem.end < s.mem.Max();
    }
    if s.cons.Poll? {
      CountIsPending(s);
    }
  }

  lemma UnsafeStepOverfills<T>(s: State<T>, a: Action<T>)
    requires Inv(s) && !SafeStep(s, a)
    ensures !IsBoundedFifo(Step(s, a))
  {
    assert Pending(Step(s, a)) == s.mem.Max();
  }

  lemma {:induction false} FifoThroughoutIff<T>(s: State<T>, schedule: seq<Action<T>>)
    requires Inv(s)
    ensures SafeRun(s, schedule) <==> FifoThroughout(s, schedule)
    decreases |schedule|
  {
    InvIsFifo(s);
    if schedule != [] {
      if SafeStep(s, schedule[0]) {
        StepKeepsInv(s, schedule[0]);
        FifoThroughoutIff(Step(s, schedule[0]), schedule[1..]);
      } else {
        UnsafeStepOverfills(s, schedule[0]);
      }
    }
  }

  /**
   * For every interleaving: the ring is a FIFO of `max - 1` items throughout (what
   * has been dequeued is a prefix of what has been accepted, the count is exact
   * when the consumer takes it, the guarded `dequeue` never throws) if and only if
   * no item is published on the strength of a full test taken in the window with
   * nothing released since.
   */
  lemma RingIsBoundedFifo<T>(slots: seq<T>, schedule: seq<Action<T>>)
    requires 0 < |slots| && 2 * |slots| <= SIZE_T
    ensures SafeRun(Init(slots), schedule) <==> FifoThroughout(Init(slots), schedule)
  {
    InitInv(slots);
    FifoThroughoutIff(Init(slots), schedule);
  }

  lemma {:induction false} MaxIsConstant<T>(s: State<T>, schedule: seq<Action<T>>)
    ensures Run(s, schedule).mem.Max() == s.mem.Max()
    decreases |schedule|
  {
    if schedule != [] {
      MaxIsConstant(Step(s, schedule[0]), schedule[1..]);
    }
  }

  /** A call of `enqueue` is under way that will go wrong unless an item is released in time. */
  ghost predicate Overfilling<T>(s: State<T>) { (s.prod.Write? || s.prod.Publish?) && s.misled }

  /** If increment and reset of `start` were one step, every schedule would be safe. */
  lemma {:induction false} AtomicReleaseIsSafe<T>(s: State<T>, schedule: seq<Action<T>>)
    requires Inv(s) && !Overfilling(s) && ReleasesAtomically(s, schedule)
    ensures SafeRun(s, schedule)
    decreases |schedule|
  {
    if schedule != [] {
      assert InWindow(s) ==> s.cons.Rewind?;
      StepKeepsInv(s, schedule[0]);
      AtomicReleaseIsSafe(Step(s, schedule[0]), schedule[1..]);
    }
  }

  // ---------- Nothing accepted is lost ----------

  lemma {:induction false} RunAppend<T>(s: State<T>, first: seq<Action<T>>, second: seq<Action<T>>)
    ensures Run(s, first + second) == Run(Run(s, first), second)
    ensures SafeRun(s, first + second) <==> SafeRun(s, first) && SafeRun(Run(s, first), second)
    decreases |first|
  {
    if first == [] {
      assert first + second == second;
    } else {
      assert (first + second)[1..] == first[1..] + second;
      RunAppend(Step(s, first[0]), first[1..], second);
    }
  }

  ghost function ConsumerOnly<T>(steps: nat): seq<Action<T>> { seq(steps, _ => ConsumerStep) }

  lemma ConsumerOnlyUnfold<T>(s: State<T>, steps: nat)
    ensures steps > 0 ==> Run(s, ConsumerOnly(steps)) == Run(Step(s, ConsumerStep), ConsumerOnly(steps - 1))
    ensures steps == 0 ==> Run(s, ConsumerOnly(steps)) == s
  {
    if steps > 0 {
      assert ConsumerOnly<T>(steps)[1..] == ConsumerOnly<T>(steps - 1);
    }
  }

  lemma {:induction false} ConsumerOnlyKeepsAccepted<T>(s: State<T>, steps: nat)
    ensures Run(s, ConsumerOnly(steps)).accepted == s.accepted
    decreases steps
  {
    ConsumerOnlyUnfold(s, steps);
    if steps > 0 {
      ConsumerOnlyKeepsAccepted(Step(s, ConsumerStep), steps - 1);
    }
  }

  /** The number of steps the queue thread needs, from wherever it is, until it polls an empty queue. */
  ghost function DrainSteps<T>(s: State<T>): int {
    6 * Pending(s) +
      match s.cons
      case Poll => 0
      case Check => -1
      case Read => -2
      case Release(_) => -3
      case Rewind(_) => 2
      case Handle(_) => 1
      case Threw => 0
  }

  /** Left to itself the queue thread delivers everything accepted, in order, and finds the queue empty. */
  lemma {:induction false} DrainDeliversAll<T>(s: State<T>)
    requires Inv(s)
    ensures DrainSteps(s) >= 0
    ensures var e := Run(s, ConsumerOnly(DrainSteps(s)));
      Inv(e) && e.delivered == s.accepted && e.cons.Poll? && e.mem.Count() == 0
    decreases DrainSteps(s)
  {
    ConsumerOnlyUnfold(s, DrainSteps(s));
    if DrainSteps(s) == 0 {
      CountIsPending(s);
    } else {
      ConsumerStepFacts(s);
      DrainDeliversAll(Step(s, ConsumerStep));
    }
  }

  // ---------- The window ----------

  lemma {:induction false} HistoriesGrow<T>(s: State<T>, schedule: seq<Action<T>>)
    ensures |s.accepted| <= |Run(s, schedule).accepted| && |s.delivered| <= |Run(s, schedule).delivered|
    decreases |schedule|
  {
    if schedule != [] {
      HistoriesGrow(Step(s, schedule[0]), schedule[1..]);
    }
  }

  lemma {:induction false} MisledUntilRelease<T>(s: State<T>, schedule: seq<Action<T>>)
    requires s.prod.Write? || s.prod.Publish?
    requires |Run(s, schedule).accepted| == |s.accepted|
    ensures var e := Run(s, schedule);
      && (e.prod.Write? || e.prod.Publish?)
      && (e.misled <==> s.misled && |e.delivered| == |s.delivered|)
    decreases |schedule|
  {
    if schedule != [] {
      var t := Step(s, schedule[0]);
      HistoriesGrow(t, schedule[1..]);
      MisledUntilRelease(t, schedule[1..]);
    }
  }

  /**
   * What `misled` says of a schedule: from a full test that lets the call through
   * until the call publishes, the call is misled exactly if the test was taken in
   * the window and nothing has been released since.
   */
  lemma MisledIff<T>(s: State<T>, schedule: seq<Action<T>>)
    requires CanStep(s) && s.prod.Test? && !s.mem.LooksFull()
    requires |Run(Step(s, ProducerStep), schedule).accepted| == |s.accepted|
    ensures var e := Run(Step(s, ProducerStep), schedule);
      && (e.prod.Write? || e.prod.Publish?)
      && (e.misled <==> InWindow(s) && |e.delivered| == |s.delivered|)
  {
    MisledUntilRelease(Step(s, ProducerStep), schedule);
  }

  // ---------- A ring with one item too many ----------

  /** All `max` slots hold pending items, and the producer has not passed another full test. */
  ghost predicate Overfull<T>(s: State<T>) {
    var m, h, t := s.mem.Max(), |s.delivered|, |s.accepted|;
    && s.mem.Usable() && t == h + m && h % m == 0 && s.delivered == s.accepted[..h]
    && s.mem.start == (if s.cons.Rewind? then m else 0)
    && s.mem.end == (if s.prod.Reset? then m else 0)
    && (forall i :: h <= i < t ==> s.mem.slots[i % m] == s.accepted[i])
    && !s.prod.Write? && !s.prod.Publish? && !s.cons.Threw?
    && (s.prod.Reset? ==> s.accepted[t - 1] == s.prod.x)
    && (s.cons.Release? ==> s.cons.x == s.accepted[h])
    && ((s.cons.Rewind? || s.cons.Handle?) ==> 0 < h && s.cons.x == s.accepted[h - 1])
  }

  /** The step that `SafeStep` excludes leaves one item too many. */
  lemma MisledPublishOverfills<T>(s: State<T>)
    requires Inv(s) && s.prod.Publish? && s.misled
    ensures CanStep(s)
    ensures var d := Step(s, ProducerStep);
      && Overfull(d) && d.prod.Reset? && d.cons == s.cons && d.mem.slots == s.mem.slots
      && d.accepted == s.accepted + [s.prod.x] && d.delivered == s.delivered
  {
    var m, h, t := s.mem.Max(), |s.delivered|, |s.accepted|;
    ModDifference(h, t, m);
    var d := Step(s, ProducerStep);
    forall i | h <= i < t + 1
      ensures d.mem.slots[i % m] == d.accepted[i]
    {
    }
  }

  /** Steps that are not a full test. */
  ghost predicate CalmStep<T>(s: State<T>, a: Action<T>) { !(a.ProducerStep? && s.prod.Test?) }

  /** Schedules in which no full test is taken. */
  ghost predicate Calm<T>(s: State<T>, schedule: seq<Action<T>>)
    decreases |schedule|
  {
    schedule != [] ==> CalmStep(s, schedule[0]) && Calm(Step(s, schedule[0]), schedule[1..])
  }

  /** The item too many is taken out again. */
  lemma OverfullRelease<T>(s: State<T>)
    requires Overfull(s) && s.cons.Release?
    ensures CanStep(s)
    ensures var r := Step(s, ConsumerStep);
      Inv(r) && r.cons.Rewind? && !r.misled && r.prod == s.prod && |r.delivered| == |s.delivered| + 1
  {
    var m, h := s.mem.Max(), |s.delivered|;
    ModStep(h, m);
    ModShift(h, 1, m);
    DivModUnique(h, m, h / m, 0);
  }

  lemma OverfullProducer<T>(s: State<T>, a: Action<T>)
    requires Overfull(s) && CalmStep(s, a) && !a.ConsumerStep?
    ensures Overfull(Step(s, a)) && Step(s, a).cons == s.cons && Step(s, a).delivered == s.delivered
  {
  }

  lemma OverfullCount<T>(s: State<T>)
    requires Overfull(s) && !s.cons.Rewind?
    ensures s.mem.Count() == 0
  {
    CountIsDistance(0, s.mem.end, s.mem.Max());
  }

  lemma OverfullRead<T>(s: State<T>)
    requires Overfull(s) && s.cons.Read?
    ensures CanStep(s) && Step(s, ConsumerStep) == s.(cons := Release(s.accepted[|s.delivered|]))
  {
    var h := |s.delivered|;
    assert s.mem.slots[h % s.mem.Max()] == s.accepted[h];
  }

  /** The queue thread polls an empty queue; the empty test throws exactly if `end` has been reset. */
  lemma OverfullConsumer<T>(s: State<T>)
    requires Overfull(s) && !s.cons.Release?
    ensures var r := Step(s, ConsumerStep);
      && r.delivered == s.delivered && r.prod == s.prod
      && (if s.cons.Check? && !s.prod.Reset? then r.cons.Threw? else Overfull(r))
      && (s.cons.Check? && s.prod.Reset? ==> r.cons.Read?)
      && (s.cons.Read? ==> r.cons.Release?)
      && (s.cons.Rewind? ==> r.cons.Handle?)
      && (s.cons.Handle? || s.cons.Poll? ==> r.cons.Poll?)
  {
    match s.cons
    case Poll => OverfullCount(s);
    case Read => OverfullRead(s);
    case _ =>
  }

  /** The consumer has not begun another dequeue. */
  ghost predicate Away<T>(s: State<T>) { s.cons.Poll? || s.cons.Handle? || s.cons.Rewind? }

  /** Such a consumer never does: every poll counts no item. */
  lemma {:induction false} OverfullAway<T>(s: State<T>, schedule: seq<Action<T>>)
    requires Overfull(s) && Away(s) && Calm(s, schedule)
    ensures var e := Run(s, schedule); Overfull(e) && Away(e) && e.delivered == s.delivered
    decreases |schedule|
  {
    if schedule != [] {
      if schedule[0].ConsumerStep? {
        OverfullConsumer(s);
      } else {
        OverfullProducer(s, schedule[0]);
      }
      OverfullAway(Step(s, schedule[0]), schedule[1..]);
    }
  }

  lemma CalmStepKeepsInv<T>(s: State<T>, a: Action<T>)
    requires Inv(s) && !s.prod.Write? && !s.prod.Publish? && CalmStep(s, a)
    ensures Inv(Step(s, a)) && !Step(s, a).prod.Write? && !Step(s, a).prod.Publish?
  {
    StepKeepsInv(s, a);
  }

  lemma {:induction false} CalmKeepsInv<T>(s: State<T>, schedule: seq<Action<T>>)
    requires Inv(s) && !s.prod.Write? && !s.prod.Publish? && Calm(s, schedule)
    ensures Inv(Run(s, schedule))
    decreases |schedule|
  {
    if schedule != [] {
      CalmStepKeepsInv(s, schedule[0]);
      CalmKeepsInv(Step(s, schedule[0]), schedule[1..]);
    }
  }

  function ConsumerSteps<T>(schedule: seq<Action<T>>): nat {
    if schedule == [] then 0 else (if schedule[0].ConsumerStep? then 1 else 0) + ConsumerSteps(schedule[1..])
  }

  /** Whether the producer moves before the consumer does. */
  function ProducerFirst<T>(schedule: seq<Action<T>>): bool {
    schedule != [] && !schedule[0].ConsumerStep? && (schedule[0].ProducerStep? || ProducerFirst(schedule[1..]))
  }

  /** Nothing has been released, or the queue is right again. */
  ghost predicate StillOrRight<T>(s: State<T>, e: State<T>, still: bool) {
    if still then Overfull(e) && e.delivered == s.delivered else Inv(e) && |e.delivered| > |s.delivered|
  }

  /** A dequeue that has passed both its tests takes an item out, and the queue is right from then on. */
  lemma {:induction false} OverfullDequeue<T>(s: State<T>, schedule: seq<Action<T>>)
    requires Overfull(s) && (s.cons.Read? || s.cons.Release?) && Calm(s, schedule)
    ensures StillOrRight(s, Run(s, schedule), ConsumerSteps(schedule) < if s.cons.Read? then 2 else 1)
    decreases |schedule|
  {
    if schedule != [] {
      var t := Step(s, schedule[0]);
      if schedule[0].ConsumerStep? && s.cons.Release? {
        OverfullRelease(s);
        CalmKeepsInv(t, schedule[1..]);
        HistoriesGrow(t, schedule[1..]);
      } else {
        if schedule[0].ConsumerStep? {
          OverfullConsumer(s);
        } else {
          OverfullProducer(s, schedule[0]);
        }
        OverfullDequeue(t, schedule[1..]);
      }
    }
  }

  lemma {:induction false} ThrewStays<T>(s: State<T>, schedule: seq<Action<T>>)
    requires s.cons.Threw?
    ensures Run(s, schedule).cons.Threw? && Run(s, schedule).delivered == s.delivered
    decreases |schedule|
  {
    if schedule != [] {
      ThrewStays(Step(s, schedule[0]), schedule[1..]);
    }
  }

  /** A dequeue between its two tests throws exactly if `end` is reset before the second one. */
  ghost predicate CheckOutcome<T>(s: State<T>, e: State<T>, schedule: seq<Action<T>>) {
    if ConsumerSteps(schedule) > 0 && (!s.prod.Reset? || ProducerFirst(schedule))
    then e.cons.Threw? && e.delivered == s.delivered
    else StillOrRight(s, e, ConsumerSteps(schedule) < 3)
  }

  lemma {:induction false} OverfullCheck<T>(s: State<T>, schedule: seq<Action<T>>)
    requires Overfull(s) && s.cons.Check? && Calm(s, schedule)
    ensures CheckOutcome(s, Run(s, schedule), schedule)
    decreases |schedule|
  {
    if schedule != [] {
      var t := Step(s, schedule[0]);
      if schedule[0].ConsumerStep? {
        OverfullConsumer(s);
        if t.cons.Threw? {
          ThrewStays(t, schedule[1..]);
        } else {
          OverfullDequeue(t, schedule[1..]);
        }
      } else {
        OverfullProducer(s, schedule[0]);
        OverfullCheck(t, schedule[1..]);
      }
    }
  }

  /**
   * What becomes of the ring once a misled call has published, under every
   * schedule in which no full test is taken: if the consumer was in a dequeue that
   * had passed both its tests, the queue is right from that release on; if it was
   * between its two tests, the dequeue throws exactly if `end` is reset before the
   * second one, and otherwise ends well; in all other places the consumer finds no
   * item at any poll although `max` items are waiting.
   */
  lemma OverfilledCallEnds<T>(s: State<T>, schedule: seq<Action<T>>)
    requires Inv(s) && s.prod.Publish? && s.misled && Calm(Step(s, ProducerStep), schedule)
    ensures var d := Step(s, ProducerStep);
      var e := Run(d, schedule);
      match s.cons
      case Read => StillOrRight(d, e, ConsumerSteps(schedule) < 2)
      case Release(_) => StillOrRight(d, e, ConsumerSteps(schedule) < 1)
      case Check => CheckOutcome(d, e, schedule)
      case _ => Overfull(e) && Away(e) && e.delivered == d.delivered
  {
    MisledPublishOverfills(s);
    var d := Step(s, ProducerStep);
    match s.cons
    case Read => OverfullDequeue(d, schedule);
    case Release(_) => OverfullDequeue(d, schedule);
    case Check => OverfullCheck(d, schedule);
    case _ => OverfullAway(d, schedule);
  }

  /**
   * A full test taken while the ring holds one item too many always lets its call
   * through, without being misled, and the call then writes over the oldest item.
   */
  lemma OverfullTestOverwrites<T>(s: State<T>)
    requires Overfull(s) && s.prod.Test? && s.mem.Max() >= 2
    ensures CanStep(s) && !s.mem.LooksFull()
    ensures var w := Step(Step(s, ProducerStep), ProducerStep);
      && w == s.(mem := w.mem, prod := Publish(s.prod.x), misled := false)
      && w.mem == s.mem.(slots := s.mem.slots[|s.delivered| % s.mem.Max() := s.prod.x])
  {
    DivModUnique(1, s.mem.Max(), 0, 1);
  }

  /** So a consumer that has passed both tests can still take a newer item for the oldest. */
  lemma OverwrittenItemIsTaken<T>(s: State<T>)
    requires Overfull(s) && s.prod.Test? && s.cons.Read? && s.mem.Max() >= 2
    ensures Run(s, [ProducerStep, ProducerStep, ConsumerStep, ConsumerStep]).delivered == s.delivered + [s.prod.x]
  {
    OverfullTestOverwrites(s);
    var w := Step(Step(s, ProducerStep), ProducerStep);
    var acts: seq<Action<T>> := [ProducerStep, ProducerStep, ConsumerStep, ConsumerStep];
    assert acts[1..][1..] == [ConsumerStep, ConsumerStep];
    assert acts[1..][1..][1..] == [ConsumerStep];
    var r := Step(w, ConsumerStep);
    assert r.cons == Release(s.prod.x);
    assert Run(s, acts) == Run(w, acts[1..][1..]) == Run(r, [ConsumerStep]) == Step(r, ConsumerStep);
  }

  /** A test in the window lets the call through, up to the step that goes wrong. */
  lemma WindowLetsThrough<T>(s: State<T>)
    requires Inv(s) && s.prod.Test? && InWindow(s)
    ensures var b := Step(Step(s, ProducerStep), ProducerStep);
      && Inv(b) && b.prod == Publish(s.prod.x) && b.misled
      && b.accepted == s.accepted && b.delivered == s.delivered && b.cons == s.cons && b.cons.Rewind?
  {
    ProducerStepFacts(s);
    ProducerStepFacts(Step(s, ProducerStep));
  }

  ghost function UnsafeEnqueue<T>(): seq<Action<T>> {
    [ProducerStep, ProducerStep, ProducerStep, ProducerStep, ConsumerStep, ConsumerStep]
  }

  /** Between two calls of either thread, with both indices at zero: what a new ring looks like. */
  ghost predicate LooksNew<T>(s: State<T>) {
    s.mem.Usable() && s.mem.start == s.mem.end == 0 && s.prod.Idle? && s.cons.Poll?
  }

  lemma LooksNewIsEmpty<T>(s: State<T>)
    requires LooksNew(s)
    ensures s.mem.LooksEmpty() && s.mem.Count() == 0
  {
    CountIsDistance(0, 0, s.mem.Max());
  }

  /** From an overfilled ring both threads get back to between their calls. */
  lemma OverfullLooksNew<T>(d: State<T>)
    requires Overfull(d) && d.prod.Reset? && d.cons.Rewind?
    ensures var e := Step(Step(Step(d, ProducerStep), ConsumerStep), ConsumerStep);
      LooksNew(e) && e.accepted == d.accepted && e.delivered == d.delivered && e.mem.slots == d.mem.slots
  {
    OverfullProducer(d, ProducerStep);
    var c := Step(d, ProducerStep);
    OverfullConsumer(c);
    OverfullConsumer(Step(c, ConsumerStep));
  }

  /**
   * One schedule that loses items: a call that takes its full test inside the
   * window and runs to its end without interruption is accepted into a full ring,
   * and once the consumer is back at its poll the ring looks like a new one while
   * `max` accepted items are waiting.
   */
  lemma TestInWindowLosesTheRing<T>(s: State<T>)
    requires Inv(s) && s.prod.Test? && InWindow(s)
    ensures var e := Run(s, UnsafeEnqueue());
      && e.accepted == s.accepted + [s.prod.x] && e.delivered == s.delivered
      && Pending(e) == e.mem.Max() && LooksNew(e) && e.mem.Count() == 0
  {
    var a := Step(s, ProducerStep);
    var b := Step(a, ProducerStep);
    WindowLetsThrough(s);
    MisledPublishOverfills(b);
    var d := Step(b, ProducerStep);
    OverfullLooksNew(d);
    UnsafeEnqueueRun(s);
    LooksNewIsEmpty(Run(s, UnsafeEnqueue()));
  }

  lemma UnsafeEnqueueRun<T>(s: State<T>)
    ensures Run(s, UnsafeEnqueue()) ==
      var d := Step(Step(Step(s, ProducerStep), ProducerStep), ProducerStep);
      Step(Step(Step(d, ProducerStep), ConsumerStep), ConsumerStep)
  {
    var acts: seq<Action<T>> := UnsafeEnqueue();
    var d := Step(Step(Step(s, ProducerStep), ProducerStep), ProducerStep);
    var e := Step(Step(d, ProducerStep), ConsumerStep);
    assert acts[1..][1..][1..] == [ProducerStep, ConsumerStep, ConsumerStep];
    assert acts[1..][1..][1..][1..][1..] == [ConsumerStep];
    assert Run(s, acts) == Run(d, acts[1..][1..][1..]) == Run(e, [ConsumerStep]) == Step(e, ConsumerStep);
  }

  // ---------- Lost for good ----------

  /** `e` is `f` after the histories `before` and `gone`; the two threads cannot tell them apart. */
  ghost predicate Continues<T>(e: State<T>, f: State<T>, before: seq<T>, gone: seq<T>) {
    && e.mem == f.mem && e.prod == f.prod && e.cons == f.cons
    && e.accepted == before + f.accepted && e.delivered == gone + f.delivered
  }

  lemma ContinuesStep<T>(e: State<T>, f: State<T>, before: seq<T>, gone: seq<T>, a: Action<T>)
    requires Continues(e, f, before, gone)
    ensures Continues(Step(e, a), Step(f, a), before, gone)
  {
  }

  lemma {:induction false} ContinuesRun<T>(
    e: State<T>, f: State<T>, before: seq<T>, gone: seq<T>, schedule: seq<Action<T>>)
    requires Continues(e, f, before, gone)
    ensures Continues(Run(e, schedule), Run(f, schedule), before, gone)
    decreases |schedule|
  {
    if schedule != [] {
      ContinuesStep(e, f, before, gone, schedule[0]);
      ContinuesRun(Step(e, schedule[0]), Step(f, schedule[0]), before, gone, schedule[1..]);
    }
  }

  /**
   * Whatever happens after a ring has come to look new, it behaves as a new ring
   * does: only what is accepted from then on is delivered, and what was waiting
   * stays undelivered as long as the new ring is a queue.
   */
  lemma WaitingItemsAreLost<T>(e: State<T>, schedule: seq<Action<T>>)
    requires LooksNew(e)
    ensures var f, g := Run(Init(e.mem.slots), schedule), Run(e, schedule);
      && g.accepted == e.accepted + f.accepted && g.delivered == e.delivered + f.delivered
      && (SafeRun(Init(e.mem.slots), schedule) ==> f.delivered <= f.accepted)
  {
    var new' := Init(e.mem.slots);
    ContinuesRun(e, new', e.accepted, e.delivered, schedule);
    InitInv(e.mem.slots);
    if SafeRun(new', schedule) {
      RunKeepsInv(new', schedule);
    }
  }

  // ---------- Reaching the window ----------

  lemma Extend<T>(s: State<T>, schedule: seq<Action<T>>, a: Action<T>)
    requires SafeRun(s, schedule) && SafeStep(Run(s, schedule), a)
    ensures SafeRun(s, schedule + [a]) && Run(s, schedule + [a]) == Step(Run(s, schedule), a)
  {
    RunAppend(s, schedule, [a]);
    assert [a][1..] == [];
  }

  lemma ExtendProducer<T>(s: State<T>, schedule: seq<Action<T>>)
    requires Inv(s) && SafeRun(s, schedule) && SafeStep(Run(s, schedule), ProducerStep)
    ensures var e, f := Run(s, schedule), Run(s, schedule + [ProducerStep]);
      && SafeRun(s, schedule + [ProducerStep]) && ProducerFacts(e, f)
      && (e.prod.Test? ==> (f.prod.Idle? <==> Pending(e) == s.mem.Max() - 1 && !InWindow(e)))
  {
    var e := Run(s, schedule);
    RunKeepsInv(s, schedule);
    MaxIsConstant(s, schedule);
    Extend(s, schedule, ProducerStep);
    ProducerStepFacts(e);
  }

  lemma ExtendConsumer<T>(s: State<T>, schedule: seq<Action<T>>)
    requires Inv(s) && SafeRun(s, schedule)
    ensures var e, f := Run(s, schedule), Run(s, schedule + [ConsumerStep]);
      SafeRun(s, schedule + [ConsumerStep]) && ConsumerFacts(e, f)
  {
    RunKeepsInv(s, schedule);
    ConsumerStepFacts(Run(s, schedule));
    Extend(s, schedule, ConsumerStep);
  }

  lemma ExtendSubmit<T>(s: State<T>, schedule: seq<Action<T>>, x: T)
    requires Inv(s) && SafeRun(s, schedule) && Run(s, schedule).prod.Idle?
    ensures SafeRun(s, schedule + [Submit(x)])
    ensures Run(s, schedule + [Submit(x)]) == Run(s, schedule).(prod := Test(x))
  {
    RunKeepsInv(s, schedule);
    StepKeepsInv(Run(s, schedule), Submit(x));
    Extend(s, schedule, Submit(x));
  }

  lemma RoomMeansNoWindow<T>(s: State<T>, schedule: seq<Action<T>>)
    requires Inv(s) && SafeRun(s, schedule)
    requires Run(s, schedule).prod.Test? && Pending(Run(s, schedule)) < s.mem.Max() - 1
    ensures !InWindow(Run(s, schedule))
  {
    RunKeepsInv(s, schedule);
    MaxIsConstant(s, schedule);
    FullTestIsRightIffOutsideWindow(Run(s, schedule));
  }

  /** An uninterrupted call of `enqueue` that finds room. */
  lemma EnqueueAlone<T>(s: State<T>, schedule: seq<Action<T>>, x: T) returns (longer: seq<Action<T>>)
    requires Inv(s) && SafeRun(s, schedule)
    requires var e := Run(s, schedule); e.prod.Idle? && Pending(e) < s.mem.Max() - 1
    ensures SafeRun(s, longer)
    ensures var e, f := Run(s, schedule), Run(s, longer);
      && f.prod.Idle? && f.cons == e.cons && f.delivered == e.delivered && f.accepted == e.accepted + [x]
  {
    ExtendSubmit(s, schedule, x);
    longer := schedule + [Submit(x)];
    RoomMeansNoWindow(s, longer);
    ExtendProducer(s, longer);
    longer := longer + [ProducerStep];
    ExtendProducer(s, longer);
    longer := longer + [ProducerStep];
    ExtendProducer(s, longer);
    longer := longer + [ProducerStep];
    ExtendProducer(s, longer);
    longer := longer + [ProducerStep];
  }

  /** The consumer alone, from its poll up to the release of one item, and on to its next poll if `whole`. */
  lemma ReleaseOne<T>(s: State<T>, schedule: seq<Action<T>>, whole: bool) returns (longer: seq<Action<T>>)
    requires Inv(s) && SafeRun(s, schedule)
    requires var e := Run(s, schedule); e.cons.Poll? && Pending(e) > 0
    ensures SafeRun(s, longer) && schedule <= longer
    ensures var e, f := Run(s, schedule), Run(s, longer);
      && f.prod == e.prod && f.accepted == e.accepted && |f.delivered| == |e.delivered| + 1 && !f.misled
      && (if whole then f.cons.Poll? else f.cons.Rewind?)
  {
    ExtendConsumer(s, schedule);
    longer := schedule + [ConsumerStep];
    ExtendConsumer(s, longer);
    longer := longer + [ConsumerStep];
    ExtendConsumer(s, longer);
    longer := longer + [ConsumerStep];
    ExtendConsumer(s, longer);
    longer := longer + [ConsumerStep];
    if whole {
      ExtendConsumer(s, longer);
      longer := longer + [ConsumerStep];
      ExtendConsumer(s, longer);
      longer := longer + [ConsumerStep];
    }
  }

  lemma FinishEnqueue<T>(s: State<T>, schedule: seq<Action<T>>, x: T) returns (longer: seq<Action<T>>)
    requires Inv(s) && SafeRun(s, schedule)
    requires Run(s, schedule).prod == Write(x) && !Run(s, schedule).misled
    ensures SafeRun(s, longer) && schedule <= longer
    ensures Run(s, longer).prod.Idle? && Run(s, longer).accepted == Run(s, schedule).accepted + [x]
  {
    ExtendProducer(s, schedule);
    longer := schedule + [ProducerStep];
    ExtendProducer(s, longer);
    longer := longer + [ProducerStep];
    ExtendProducer(s, longer);
    longer := longer + [ProducerStep];
  }

  /** The consumer, from the reset of `start`, releases one more item. */
  lemma ReleaseAnother<T>(s: State<T>, schedule: seq<Action<T>>) returns (longer: seq<Action<T>>)
    requires Inv(s) && SafeRun(s, schedule)
    requires Run(s, schedule).cons.Rewind? && Pending(Run(s, schedule)) > 0
    ensures SafeRun(s, longer) && schedule <= longer
    ensures var e, f := Run(s, schedule), Run(s, longer); f.prod == e.prod && f.accepted == e.accepted && !f.misled
  {
    ExtendConsumer(s, schedule);
    longer := schedule + [ConsumerStep];
    ExtendConsumer(s, longer);
    longer := longer + [ConsumerStep];
    longer := ReleaseOne(s, longer, false);
  }

  lemma WindowFacts<T>(s: State<T>)
    requires Inv(s) && s.prod.Test? && InWindow(s)
    ensures s.cons.Rewind? && Pending(s) == s.mem.Max() - 1
  {
    FullTestIsRightIffOutsideWindow(s);
  }

  /** Another schedule from the same state, in which the queue stays right: an item is released in time. */
  lemma TestInWindowCanBeHarmless<T>(s: State<T>) returns (schedule: seq<Action<T>>)
    requires Inv(s) && s.prod.Test? && InWindow(s) && s.mem.Max() >= 2
    ensures [ProducerStep] <= schedule && SafeRun(s, schedule)
    ensures var e := Run(s, schedule); Inv(e) && e.prod.Idle? && e.accepted == s.accepted + [s.prod.x]
  {
    WindowFacts(s);
    ExtendProducer(s, []);
    schedule := [] + [ProducerStep];
    schedule := ReleaseAnother(s, schedule);
    schedule := FinishEnqueue(s, schedule, s.prod.x);
    RunKeepsInv(s, schedule);
  }

  /** The window is reachable, with the producer about to test, for every ring of at least two slots. */
  lemma WindowIsReachable<T>(slots: seq<T>, x: T) returns (schedule: seq<Action<T>>)
    requires 2 <= |slots| && 2 * |slots| <= SIZE_T
    ensures SafeRun(Init(slots), schedule)
    ensures var s := Run(Init(slots), schedule); Inv(s) && s.prod.Test? && InWindow(s)
  {
    var s, m := Init(slots), |slots|;
    InitInv(slots);
    schedule := [];
    // m items pass through the ring; the consumer stops between increment and reset of the last
    for k := 0 to m
      invariant SafeRun(s, schedule)
      invariant Run(s, schedule).prod.Idle? && |Run(s, schedule).accepted| == |Run(s, schedule).delivered| == k
      invariant if k < m then Run(s, schedule).cons.Poll? else Run(s, schedule).cons.Rewind?
    {
      schedule := EnqueueAlone(s, schedule, x);
      schedule := ReleaseOne(s, schedule, k + 1 < m);
    }
    // the producer meanwhile fills the ring
    for k := 0 to m - 1
      invariant SafeRun(s, schedule)
      invariant Run(s, schedule).prod.Idle? && Run(s, schedule).cons.Rewind?
      invariant |Run(s, schedule).delivered| == m && |Run(s, schedule).accepted| == m + k
    {
      schedule := EnqueueAlone(s, schedule, x);
    }
    ExtendSubmit(s, schedule, x);
    schedule := schedule + [Submit(x)];
    RunKeepsInv(s, schedule);
    MaxIsConstant(s, schedule);
    DivModUnique(m, m, 1, 0);
    DivModUnique(2 * m - 1, m, 1, m - 1);
  }

  /**
   * So the header's claim of thread safety fails for every ring of at least two
   * slots: some schedule has the queue look new while `max` accepted items wait,
   * and no continuation delivers them as long as the new queue works as one.
   */
  lemma SomeScheduleLosesTheRing<T>(slots: seq<T>, x: T) returns (schedule: seq<Action<T>>)
    requires 2 <= |slots| && 2 * |slots| <= SIZE_T
    ensures var e := Run(Init(slots), schedule);
      && LooksNew(e) && e.mem.Count() == 0 && Pending(e) == |slots|
      && forall more :: SafeRun(Init(e.mem.slots), more) ==>
           var f := Run(Init(e.mem.slots), more);
           && Run(e, more).accepted == e.accepted + f.accepted
           && Run(e, more).delivered == e.delivered + f.delivered && f.delivered <= f.accepted
  {
    var safe := WindowIsReachable(slots, x);
    var s := Run(Init(slots), safe);
    MaxIsConstant(Init(slots), safe);
    TestInWindowLosesTheRing(s);
    MaxIsConstant(s, UnsafeEnqueue());
    schedule := safe + UnsafeEnqueue();
    RunAppend(Init(slots), safe, UnsafeEnqueue());
    var e := Run(Init(slots), schedule);
    forall more | SafeRun(Init(e.mem.slots), more)
      ensures var f := Run(Init(e.mem.slots), more);
        && Run(e, more).accepted == e.accepted + f.accepted
        && Run(e, more).delivered == e.delivered + f.delivered && f.delivered <= f.accepted
    {
      WaitingItemsAreLost(e, more);
    }
  }
}
