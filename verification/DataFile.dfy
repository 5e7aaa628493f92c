/**
 * A resource whose value is a cache of a file. Three parties act: the queue
 * thread sets the value (first the value, then the file), the poll thread looks
 * at the file's stamp and later reloads the file, and other programs write or
 * remove the file.
 */
module DataFile {
  import opened Common

  datatype File = Missing | File(content: seq<byte>, stamp: int)

  /** Where `setValue` is: between assigning the value and writing the file it keeps its argument. */
  datatype Writer = Free | Assigned(v: seq<byte>)

  /** Where the poll is: after a stamp newer than the recorded one it will reload. */
  datatype Poller = Idle | Due(stamp: int)

  /**
   * `clock` is the newest stamp the file system has given out. `alive` is false
   * once a step has failed: an exception that ends the thread, or a read past
   * the end of a vector.
   */
  datatype State = State(
    value: seq<byte>, recorded: int, file: File, clock: int, writer: Writer, poller: Poller, alive: bool)

  datatype Event =
    | Assign(v: seq<byte>)
    | WriteFile(tick: nat)
    | External(content: seq<byte>, tick: nat)
    | Remove
    | Check
    | Reload

  /** The locked part of `setValue`: it writes as many bytes of its argument as the value has now. */
  function WriteStep(s: State, tick: nat): State
    requires s.writer.Assigned?
  {
    var v, n := s.writer.v, |s.value|;
    if n > |v| then s.(alive := false)
    else
      var stamp := s.clock + tick;
      s.(file := File(v[..n], stamp), recorded := stamp, clock := stamp, writer := Free)
  }

  /** The locked part of `valueUpdate`: the recorded stamp is the one seen before the lock was taken. */
  function ReloadStep(s: State): State
    requires s.poller.Due?
  {
    if s.file == Missing then s.(alive := false)
    else s.(value := s.file.content, recorded := s.poller.stamp, poller := Idle)
  }

  /** Steps that are not enabled change nothing. */
  function Step(s: State, e: Event): State {
    if !s.alive then s else
      match e
      case Assign(v) => if s.writer.Free? then s.(value := v, writer := Assigned(v)) else s
      case WriteFile(tick) => if s.writer.Assigned? then WriteStep(s, tick) else s
      case External(content, tick) => s.(file := File(content, s.clock + tick), clock := s.clock + tick)
      case Remove => s.(file := Missing)
      case Check =>
        if s.poller.Idle? && s.file != Missing && s.file.stamp > s.recorded then s.(poller := Due(s.file.stamp)) else s
      case Reload => if s.poller.Due? then ReloadStep(s) else s
  }

  function Run(s: State, events: seq<Event>): State {
    if events == [] then s else Step(Run(s, events[..|events| - 1]), events[|events| - 1])
  }

  /** An uninterrupted call of `valueUpdate`. */
  function Poll(s: State): State { Step(Step(s, Check), Reload) }

  /** An uninterrupted call of `setValue`. */
  function SetUninterrupted(s: State, v: seq<byte>, tick: nat): State { Step(Step(s, Assign(v)), WriteFile(tick)) }

  const HOUR: nat := 3600

  /** The end of `attach`: an existing file is read, otherwise the initial value is set and written. */
  function Attach(file: File, initialValue: seq<byte>, clock: int, tick: nat): State {
    var s0 := State([], 0, file, clock, Free, Idle, true);
    if file != Missing then Poll(s0.(recorded := file.stamp - HOUR)) else SetUninterrupted(s0, initialValue, tick)
  }

  // ---------- Coherence ----------

  /** The recorded stamp is never ahead of the file's, and with equal stamps the value is the file's content. */
  predicate Coherent(s: State) {
    s.file != Missing ==> s.recorded <= s.file.stamp && (s.recorded == s.file.stamp ==> s.value == s.file.content)
  }

  /** Nothing has failed, and value and file are coherent whenever no `setValue` is under way. */
  predicate Fine(s: State) { s.alive && (s.writer.Free? ==> Coherent(s)) }

  predicate Inv(s: State) {
    && Fine(s)
    && s.recorded <= s.clock
    && (s.file != Missing ==> s.file.stamp <= s.clock)
    && (s.poller.Due? ==> s.poller.stamp <= s.clock && (s.file != Missing ==> s.poller.stamp <= s.file.stamp))
  }

  /**
   * What goes well: a write of another program outside `setValue` gets a newer
   * stamp than the recorded one, or writes what the value is; a file seen by the
   * check is there for the reload; and what `setValue` finds as the value when it
   * writes the file, which a reload may have replaced, is a prefix of its argument.
   */
  predicate SafeStep(s: State, e: Event) {
    match e
    case External(content, tick) => s.writer.Free? ==> s.clock + tick > s.recorded || content == s.value
    case Reload => s.poller.Due? ==> s.file != Missing
    case WriteFile(_) => s.writer.Assigned? ==> s.value <= s.writer.v
    case _ => true
  }

  predicate SafeRun(s: State, events: seq<Event>) {
    events != [] ==>
      && SafeRun(s, events[..|events| - 1])
      && SafeStep(Run(s, events[..|events| - 1]), events[|events| - 1])
  }

  predicate FineThroughout(s: State, events: seq<Event>) {
    Fine(Run(s, events)) && (events != [] ==> FineThroughout(s, events[..|events| - 1]))
  }

  /** A prefix of the argument has the length of the value exactly if it is the value. */
  lemma WriteStepIffPrefix(s: State, tick: nat)
    requires s.writer.Assigned? && s.alive
    ensures Fine(WriteStep(s, tick)) <==> s.value <= s.writer.v
  {
    var v, n := s.writer.v, |s.value|;
    if n <= |v| {
      assert v[..n] == s.value <==> s.value <= v;
    }
  }

  lemma StepKeepsInvIff(s: State, e: Event)
    requires Inv(s)
    ensures SafeStep(s, e) <==> Fine(Step(s, e))
    ensures SafeStep(s, e) ==> Inv(Step(s, e))
  {
    if e.WriteFile? && s.writer.Assigned? {
      WriteStepIffPrefix(s, e.tick);
    }
  }

  /**
   * Over every run: nothing fails, and value and file are coherent whenever no
   * `setValue` is under way, if and only if every step goes well.
   */
  lemma {:induction false} RunIsCoherent(s: State, events: seq<Event>)
    requires Inv(s)
    ensures SafeRun(s, events) <==> FineThroughout(s, events)
    ensures SafeRun(s, events) ==> Inv(Run(s, events))
  {
    if events != [] {
      var n := |events| - 1;
      RunIsCoherent(s, events[..n]);
      if SafeRun(s, events[..n]) {
        StepKeepsInvIff(Run(s, events[..n]), events[n]);
      }
    }
  }

  lemma AttachIsCoherent(file: File, initialValue: seq<byte>, clock: int, tick: nat)
    requires file != Missing ==> file.stamp <= clock
    ensures var s := Attach(file, initialValue, clock, tick);
      && Inv(s) && s.writer.Free? && s.poller.Idle? && s.file != Missing && s.recorded == s.file.stamp
      && s.value == s.file.content == if file != Missing then file.content else initialValue
  {
    assert initialValue[..|initialValue|] == initialValue;
  }

  // ---------- Where value and file come from ----------

  /** The argument of the last `setValue` that began, or the content the last reload read, whichever was later. */
  function LastValue(s: State, events: seq<Event>): Option<seq<byte>> {
    if events == [] then None else
      var n := |events| - 1;
      var t := Run(s, events[..n]);
      match events[n]
      case Assign(v) => if t.alive && t.writer.Free? then Some(v) else LastValue(s, events[..n])
      case Reload =>
        if t.alive && t.poller.Due? && t.file.File? then Some(t.file.content) else LastValue(s, events[..n])
      case _ => LastValue(s, events[..n])
  }

  /** Nothing but a `setValue` or a reload changes the value, over every run. */
  lemma {:induction false} ValueIsLast(s: State, events: seq<Event>)
    ensures Run(s, events).value == LastValue(s, events).GetOr(s.value)
  {
    if events != [] {
      ValueIsLast(s, events[..|events| - 1]);
    }
  }

  /** What the last `setValue` or other program left, with its stamp. */
  function LastFile(s: State, events: seq<Event>): Option<File> {
    if events == [] then None else
      var n := |events| - 1;
      var t := Run(s, events[..n]);
      if !t.alive then LastFile(s, events[..n])
      else match events[n]
        case External(content, tick) => Some(File(content, t.clock + tick))
        case Remove => Some(Missing)
        case WriteFile(tick) =>
          if t.writer.Assigned? && |t.value| <= |t.writer.v| then Some(File(t.writer.v[..|t.value|], t.clock + tick))
          else LastFile(s, events[..n])
        case _ => LastFile(s, events[..n])
  }

  /** Nothing but a `setValue` or another program changes the file, over every run. */
  lemma {:induction false} FileIsLast(s: State, events: seq<Event>)
    ensures Run(s, events).file == LastFile(s, events).GetOr(s.file)
  {
    if events != [] {
      FileIsLast(s, events[..|events| - 1]);
    }
  }

  /** A poll that finds no file changes nothing. */
  lemma PollOfMissingFile(s: State)
    requires s.file == Missing && s.poller.Idle?
    ensures Poll(s) == s
  {
  }

  lemma {:induction false} DueUntilReload(s: State, events: seq<Event>)
    requires s.poller.Due? && forall e :: e in events ==> !e.Reload?
    ensures Run(s, events).poller == s.poller
  {
    if events != [] {
      assert events[|events| - 1] in events;
      DueUntilReload(s, events[..|events| - 1]);
    }
  }

  /** A reload reads the file as it is then, but records the stamp that its check saw, whatever happened in between. */
  lemma ReloadRecordsCheckedStamp(s: State, between: seq<Event>)
    requires s.alive && s.poller.Idle? && s.file != Missing && s.file.stamp > s.recorded
    requires forall e :: e in between ==> !e.Reload?
    requires var t := Run(Step(s, Check), between); t.alive && t.file != Missing
    ensures var t := Run(Step(s, Check), between);
      Step(t, Reload) == t.(value := t.file.content, recorded := s.file.stamp, poller := Idle)
  {
    DueUntilReload(Step(s, Check), between);
  }

  // ---------- What goes wrong ----------

  /** A write of another program is noticed unless it gets the recorded stamp and changes the content. */
  lemma ExternalWriteIsSeenIff(s: State, content: seq<byte>, tick: nat)
    requires Inv(s) && s.writer.Free?
    ensures Coherent(Step(s, External(content, tick))) <==> s.clock + tick > s.recorded || content == s.value
  {
  }

  /** Remark: the poll thread survives a reload exactly when the file is still there. */
  lemma ReloadSurvivesIff(s: State)
    requires Inv(s) && s.poller.Due?
    ensures Step(s, Reload).alive <==> s.file != Missing
  {
  }

  /** What the last reload of a run read, if there was one. */
  function LastRead(s: State, events: seq<Event>): Option<seq<byte>> {
    if events == [] then None else
      var n := |events| - 1;
      var t := Run(s, events[..n]);
      if t.alive && events[n].Reload? && t.poller.Due? && t.file != Missing then Some(t.file.content)
      else LastRead(s, events[..n])
  }

  /** Between assigning and writing, the value is what the last reload read, or else the argument. */
  lemma {:induction false} ValueInsideSet(s: State, events: seq<Event>)
    requires s.writer.Assigned? && forall e :: e in events ==> !e.WriteFile?
    ensures var t := Run(s, events); t.writer == s.writer && t.value == LastRead(s, events).GetOr(s.value)
  {
    if events != [] {
      var n := |events| - 1;
      assert events[n] in events;
      ValueInsideSet(s, events[..n]);
    }
  }

  /** The state when a `setValue` writes the file, `inside` being what happens after it has assigned the value. */
  function Written(s: State, v: seq<byte>, inside: seq<Event>, tick: nat): State {
    Step(Run(Step(s, Assign(v)), inside), WriteFile(tick))
  }

  /**
   * Whatever happens inside a `setValue`, as long as nothing fails there, it ends
   * coherent exactly if what the last reload inside it read is a prefix of its
   * argument; then value and file are that prefix. If it is no prefix, either the
   * thread reads past the end of its argument, or the file gets the argument cut to
   * that length and the stamps agree on different contents.
   */
  lemma SetValueIsRightIff(s: State, v: seq<byte>, inside: seq<Event>, tick: nat)
    requires s.alive && s.writer.Free? && forall e :: e in inside ==> !e.WriteFile?
    requires Run(Step(s, Assign(v)), inside).alive
    ensures var read, e := LastRead(Step(s, Assign(v)), inside).GetOr(v), Written(s, v, inside, tick);
      && (Fine(e) <==> read <= v)
      && (e.alive <==> |read| <= |v|)
      && (e.alive ==> e.writer.Free? && e.value == read && e.file == File(v[..|read|], e.recorded))
  {
    var t := Step(s, Assign(v));
    ValueInsideSet(t, inside);
    WriteStepIffPrefix(Run(t, inside), tick);
  }

  /** Once the recorded stamp is not behind the file's, polls change nothing, coherent or not. */
  lemma {:induction false} PollsNoticeNothing(s: State, polls: seq<Event>)
    requires s.poller.Idle? && s.file != Missing && s.file.stamp <= s.recorded
    requires forall e :: e in polls ==> e.Check? || e.Reload?
    ensures Run(s, polls) == s
  {
    if polls != [] {
      assert polls[|polls| - 1] in polls;
      PollsNoticeNothing(s, polls[..|polls| - 1]);
    }
  }

  function ReloadInside(content: seq<byte>, v: seq<byte>): seq<Event> {
    [External(content, 1), Check, Assign(v), Reload, WriteFile(1)]
  }

  lemma RunOneMore(s: State, events: seq<Event>, e: Event)
    ensures Run(s, events + [e]) == Step(Run(s, events), e)
  {
    assert (events + [e])[..|events|] == events;
  }

  lemma ReloadInsideRun(s: State, content: seq<byte>, v: seq<byte>)
    ensures Run(s, ReloadInside(content, v)) ==
            Step(Step(Step(Step(Step(s, External(content, 1)), Check), Assign(v)), Reload), WriteFile(1))
  {
    var events := ReloadInside(content, v);
    RunOneMore(s, [], events[0]);
    RunOneMore(s, events[..1], events[1]);
    RunOneMore(s, events[..2], events[2]);
    RunOneMore(s, events[..3], events[3]);
    RunOneMore(s, events[..4], events[4]);
    assert [] + [events[0]] == events[..1] && events[..1] + [events[1]] == events[..2];
    assert events[..2] + [events[2]] == events[..3] && events[..3] + [events[3]] == events[..4];
    assert events[..4] + [events[4]] == events;
  }

  /**
   * From every coherent state between two calls, so also from an attached
   * resource, a run in which a reload lands inside a `setValue` fails or ends with
   * different contents under one stamp, whenever the file's content is no prefix
   * of the new value; no poll repairs that.
   */
  lemma ReloadInsideSetValueLosesCoherence(s: State, content: seq<byte>, v: seq<byte>, polls: seq<Event>)
    requires Inv(s) && s.writer.Free? && s.poller.Idle? && !(content <= v)
    requires forall e :: e in polls ==> e.Check? || e.Reload?
    ensures var e := Run(s, ReloadInside(content, v));
      && !Fine(e) && (e.alive <==> |content| <= |v|)
      && (e.alive ==>
            && e.value == content && e.file == File(v[..|content|], e.recorded) && e.file.content != e.value
            && Run(e, polls) == e)
  {
    ReloadInsideRun(s, content, v);
    var e := Run(s, ReloadInside(content, v));
    if e.alive {
      PollsNoticeNothing(e, polls);
    }
  }

  // ---------- What a poll and a set achieve ----------

  /** From every coherent state an uninterrupted poll brings the value up to date; a second one changes nothing. */
  lemma PollCatchesUp(s: State)
    requires Inv(s) && s.writer.Free? && s.poller.Idle? && s.file != Missing
    ensures var p := Poll(s);
      && p.file == s.file && p.value == s.file.content && p.recorded == s.file.stamp
      && Poll(p) == p
  {
  }

  /** A value set between the check and the reload of a poll is not lost. */
  lemma SetDuringPollIsKept(s: State, v: seq<byte>, tick: nat)
    requires Inv(s) && s.poller.Due? && s.writer.Free?
    ensures var e := Step(SetUninterrupted(s, v, tick), Reload);
      Inv(e) && e.value == v && e.file != Missing && e.file.content == v
  {
    assert v[..|v|] == v;
  }

  /**
   * After a write of another program that is noticed, any later uninterrupted poll
   * makes its content the value, if no one writes in between.
   */
  lemma LastWriteWins(s: State, content: seq<byte>, tick: nat, later: seq<Event>)
    requires Inv(s) && s.writer.Free? && SafeStep(s, External(content, tick))
    requires forall e :: e in later ==> e.Check? || e.Reload?
    requires Run(Step(s, External(content, tick)), later).poller.Idle?
    ensures Poll(Run(Step(s, External(content, tick)), later)).value == content
  {
    var w := Step(s, External(content, tick));
    StepKeepsInvIff(s, External(content, tick));
    PollsKeepFile(w, later);
    PollCatchesUp(Run(w, later));
  }

  lemma {:induction false} PollsKeepFile(s: State, events: seq<Event>)
    requires Inv(s) && s.writer.Free? && s.file != Missing && forall e :: e in events ==> e.Check? || e.Reload?
    ensures var t := Run(s, events); Inv(t) && t.writer.Free? && t.file == s.file
  {
    if events != [] {
      var n := |events| - 1;
      PollsKeepFile(s, events[..n]);
      assert events[n] in events;
      StepKeepsInvIff(Run(s, events[..n]), events[n]);
    }
  }

  // ---------- The object ----------

  /** The file as the file system keeps it. */
  class Disk {
    var file: File
    var clock: int

    constructor (file: File, clock: int)
      ensures this.file == file && this.clock == clock
    {
      this.file, this.clock := file, clock;
    }

    method Write(content: seq<byte>, tick: nat)
      modifies this
      ensures clock == old(clock) + tick && file == File(content, clock)
    {
      clock := clock + tick;
      file := File(content, clock);
    }
  }

  class Resource {
    var value: seq<byte>
    var dataFileWriteTime: int
    const disk: Disk

    /** The state between two calls. */
    function View(): State
      reads this, disk
    {
      State(value, dataFileWriteTime, disk.file, disk.clock, Free, Idle, true)
    }

    constructor (disk: Disk, initialValue: seq<byte>, tick: nat)
      modifies disk
      ensures this.disk == disk
      ensures View() == Attach(old(disk.file), initialValue, old(disk.clock), tick)
      ensures old(disk.file) == Missing ==> value == initialValue && disk.file == File(initialValue, dataFileWriteTime)
      ensures old(disk.file) != Missing ==>
        disk.file == old(disk.file) == File(value, dataFileWriteTime) && disk.clock == old(disk.clock)
    {
      this.disk := disk;
      value, dataFileWriteTime := [], 0;
      new;
      if disk.file != Missing {
        dataFileWriteTime := disk.file.stamp - HOUR;
        ValueUpdate();
      } else {
        SetValue(initialValue, tick);
      }
    }

    method SetValue(v: seq<byte>, tick: nat)
      modifies this, disk
      ensures View() == SetUninterrupted(old(View()), v, tick)
      ensures value == v && disk.file == File(v, dataFileWriteTime)
    {
      value := v;
      assert v[..|value|] == v;
      disk.Write(v[..|value|], tick);
      dataFileWriteTime := disk.file.stamp;
    }

    method ValueUpdate()
      modifies this
      ensures View() == Poll(old(View()))
      ensures disk.file == Missing || disk.file.stamp <= old(dataFileWriteTime) ==>
        value == old(value) && dataFileWriteTime == old(dataFileWriteTime)
      ensures disk.file != Missing && disk.file.stamp > old(dataFileWriteTime) ==>
        disk.file == File(value, dataFileWriteTime)
    {
      if disk.file == Missing {
        return;
      }
      var mtime := disk.file.stamp;
      if mtime <= dataFileWriteTime {
        return;
      }
      value := disk.file.content;
      dataFileWriteTime := mtime;
    }
  }
}
