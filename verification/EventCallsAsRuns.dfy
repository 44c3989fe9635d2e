/** The audio thread's calls as AudioRuntimes describes them, and ScheduleAtFrame, are runs of the
    atomic steps of EventFlow when no other thread comes in between, with the same queue, heap,
    epoch, reservations and counts at their end. */
module EventCallsAsRuns {
  import opened Prelude
  import opened Signals
  import opened Scheduling
  import opened Timeline
  import opened AudioRuntimes
  import opened Runs
  import opened EventFlow

  /** The pending events, each with the epoch of its session. */
  function Marked<C>(queue: Queue<C>, epoch: nat): (marked: Pending)
    ensures |marked| == |queue|
  {
    seq(|queue|, i requires 0 <= i < |queue| => ScheduledEvent(queue[i].target, queue[i].sequence, epoch))
  }

  function AsItem<C>(item: QueuedCommand<C>): Item {
    if item.scheduled then Scheduled(item.target, item.epoch) else Immediate
  }

  function AsItems<C>(items: seq<QueuedCommand<C>>): (queue: seq<Item>)
    ensures |queue| == |items|
  {
    seq(|items|, i requires 0 <= i < |items| => AsItem(items[i]))
  }

  /** The state with this audio side in it. */
  function Carrying<E, C>(s: State, side: Side<E, C>, outstanding: nat): State {
    s.(heap := Marked(side.queue, side.epoch), nextSequence := side.nextSequence, audioEpoch := side.epoch,
       discarded := side.discarded, outstanding := outstanding)
  }

  ghost predicate Carries<E, C>(s: State, side: Side<E, C>) {
    s == Carrying(s, side, s.outstanding)
  }

  lemma MarkedTail<C>(queue: Queue<C>, epoch: nat)
    requires queue != []
    ensures Marked(queue, epoch)[1..] == Marked(queue[1..], epoch)
  {
  }

  lemma {:induction false} MarkedInserted<C>(queue: Queue<C>, event: ScheduledEvent<C>, epoch: nat)
    ensures Marked(Inserted(queue, event), epoch) ==
            Inserted(Marked(queue, epoch), ScheduledEvent(event.target, event.sequence, epoch))
    decreases |queue|
  {
    if queue != [] && queue[0].target <= event.target {
      MarkedInserted(queue[1..], event, epoch);
      MarkedTail(queue, epoch);
      var after := Inserted(queue, event);
      assert after[1..] == Inserted(queue[1..], event);
      MarkedTail(after, epoch);
      assert Marked(after, epoch) == [Marked(queue, epoch)[0]] + Marked(after, epoch)[1..];
    }
  }

  // ---- AdoptEpoch -------------------------------------------------------------------------------

  /** Where the audio thread goes on once a new epoch is adopted. */
  function Resumed(after: Afterwards): AudioPc {
    if after.ThenDrain? then Draining(0) else Judging(after.item, after.pops)
  }

  lemma {:induction false} AdoptEpochIsItsSteps<E, C>(s: State, side: Side<E, C>, epoch: nat, after: Afterwards)
    returns (steps: seq<Step>)
    requires Carries(s, side) && s.audio == Adopting(epoch, after)
    requires side.epoch < epoch && |side.queue| <= s.outstanding
    ensures PROTOCOL.IsRun(s, steps)
    ensures PROTOCOL.After(s, steps) ==
            Carrying(s, Adopted(side, epoch), s.outstanding - |side.queue|).(audio := Resumed(after))
    decreases |side.queue|
  {
    hide System.Takes, System.IsRun, System.After;
    if side.queue == [] {
      var next := AudioTaken(s, AdoptNow);
      steps := [Audio(AdoptNow)];
      TraceIsRun(PROTOCOL, [s, next], steps);
    } else {
      var s1 := AudioTaken(s, PopStale);
      var s2 := AudioTaken(s1, ReleaseStale);
      var s3 := AudioTaken(s2, CountDiscarded);
      var first := [Audio(PopStale), Audio(ReleaseStale), Audio(CountDiscarded)];
      TraceIsRun(PROTOCOL, [s, s1, s2, s3], first);
      MarkedTail(side.queue, side.epoch);
      var fewer := side.(queue := side.queue[1..], discarded := side.discarded + 1);
      var rest := AdoptEpochIsItsSteps(s3, fewer, epoch, after);
      RunThenRun(PROTOCOL, s, first, rest);
      steps := first + rest;
    }
  }

  // ---- TakeCommand ------------------------------------------------------------------------------

  /** Whether a queued command holds a reservation. */
  function Reservation<C>(item: QueuedCommand<C>): nat {
    if item.scheduled then 1 else 0
  }

  /** The steps of one turn of the drain: an immediate command is only taken; a scheduled one brings
      its epoch, and then joins the heap or is discarded. */
  lemma TakeCommandIsItsSteps<E(!new), C(!new)>(
    m: Machine<E, C>, s: State, side: Side<E, C>, item: QueuedCommand<C>, start: nat)
    returns (steps: seq<Step>, outstanding: nat)
    requires Carries(s, side) && s.audio.Draining? && s.audio.pops < s.queueCapacity
    requires s.queue != [] && s.queue[0] == AsItem(item)
    requires |side.queue| + Reservation(item) <= s.outstanding <= s.capacity
    ensures
      var after := Taken(m, side, item, start);
      && outstanding + |side.queue| + Reservation(item) == s.outstanding + |after.queue|
      && PROTOCOL.IsRun(s, steps)
      && PROTOCOL.After(s, steps) ==
         Carrying(s, after, outstanding).(queue := s.queue[1..], audio := Draining(s.audio.pops + 1))
  {
    hide System.Takes, System.IsRun, System.After;
    var s1 := AudioTaken(s, PopItem);
    if !item.scheduled {
      steps, outstanding := [Audio(PopItem)], s.outstanding;
      TraceIsRun(PROTOCOL, [s, s1], steps);
      return;
    }
    var s2 := AudioTaken(s1, CompareEpoch);
    var first := [Audio(PopItem), Audio(CompareEpoch)];
    TraceIsRun(PROTOCOL, [s, s1, s2], first);
    var now := Adopted(side, item.epoch);
    var middle, judged := [], s2;
    if item.epoch > side.epoch {
      middle := AdoptEpochIsItsSteps(s2, side, item.epoch, ThenAdmit(s.queue[0], s.audio.pops + 1));
      judged := PROTOCOL.After(s2, middle);
    } else {
      TraceIsRun(PROTOCOL, [s2], []);
    }
    RunThenRun(PROTOCOL, s, first, middle);
    var last;
    last, outstanding := JudgingIsItsSteps(m, judged, now, item, start);
    RunThenRun(PROTOCOL, s, first + middle, last);
    steps := first + middle + last;
  }

  /** Once its epoch is known not to be newer, a scheduled command is discarded or joins the heap,
      which has room for it. */
  lemma JudgingIsItsSteps<E(!new), C(!new)>(
    m: Machine<E, C>, s: State, side: Side<E, C>, item: QueuedCommand<C>, start: nat)
    returns (steps: seq<Step>, outstanding: nat)
    requires Carries(s, side) && item.scheduled && item.epoch <= side.epoch
    requires s.audio.Judging? && s.audio.item == AsItem(item)
    requires |side.queue| < s.outstanding <= s.capacity
    ensures
      var after := Taken(m, side, item, start);
      && outstanding + |side.queue| + 1 == s.outstanding + |after.queue|
      && PROTOCOL.IsRun(s, steps)
      && PROTOCOL.After(s, steps) == Carrying(s, after, outstanding).(audio := Draining(s.audio.pops))
  {
    hide System.Takes, System.IsRun, System.After;
    if item.epoch < side.epoch {
      var s1 := AudioTaken(s, Reject);
      var s2 := AudioTaken(s1, CountRejected);
      steps, outstanding := [Audio(Reject), Audio(CountRejected)], s.outstanding - 1;
      TraceIsRun(PROTOCOL, [s, s1, s2], steps);
    } else {
      var event := ScheduledEvent(item.target, side.nextSequence, item.command);
      MarkedInserted(side.queue, event, side.epoch);
      InsertedLength(side.queue, event);
      var s1 := AudioTaken(s, PushHeap);
      steps, outstanding := [Audio(PushHeap)], s.outstanding;
      TraceIsRun(PROTOCOL, [s, s1], steps);
    }
  }

  // ---- DrainCommands ----------------------------------------------------------------------------

  lemma {:induction false} DrainIsItsSteps<E(!new), C(!new)>(
    m: Machine<E, C>, s: State, side: Side<E, C>, items: seq<QueuedCommand<C>>, start: nat)
    returns (steps: seq<Step>, outstanding: nat)
    requires Carries(s, side) && s.queue == AsItems(items)
    requires s.audio.Draining? && s.audio.pops + |items| <= s.queueCapacity
    requires |side.queue| + ScheduledIn(items) <= s.outstanding <= s.capacity
    ensures
      var after := Drained(m, side, items, start);
      && outstanding + |side.queue| + ScheduledIn(items) == s.outstanding + |after.queue|
      && PROTOCOL.IsRun(s, steps)
      && PROTOCOL.After(s, steps) == Carrying(s, after, outstanding).(queue := [], audio := Rendering)
    decreases |items|
  {
    hide System.Takes, System.IsRun, System.After, Taken;
    if items == [] {
      var next := AudioTaken(s, StopDraining);
      steps, outstanding := [Audio(StopDraining)], s.outstanding;
      TraceIsRun(PROTOCOL, [s, next], steps);
    } else {
      var first, between := TakeCommandIsItsSteps(m, s, side, items[0], start);
      TakenRoom(m, side, items[0], start);
      var next := PROTOCOL.After(s, first);
      assert s.queue[1..] == AsItems(items[1..]);
      var rest;
      rest, outstanding := DrainIsItsSteps(m, next, Taken(m, side, items[0], start), items[1..], start);
      RunThenRun(PROTOCOL, s, first, rest);
      steps := first + rest;
    }
  }

  /** A command adds at most the event it holds a reservation for. */
  lemma TakenRoom<E(!new), C(!new)>(m: Machine<E, C>, side: Side<E, C>, item: QueuedCommand<C>, start: nat)
    ensures |Taken(m, side, item, start).queue| <= |side.queue| + Reservation(item)
  {
    var now := Adopted(side, item.epoch);
    InsertedLength(now.queue, ScheduledEvent(item.target, now.nextSequence, item.command));
  }

  /** From the start of a callback to the end of its drain. */
  lemma DrainCommandsIsItsSteps<E(!new), C(!new)>(
    m: Machine<E, C>, s: State, side: Side<E, C>, items: seq<QueuedCommand<C>>, start: nat)
    returns (steps: seq<Step>, outstanding: nat)
    requires Carries(s, side) && s.queue == AsItems(items) && |items| <= s.queueCapacity
    requires s.audio == Between && s.active
    requires |side.queue| + ScheduledIn(items) <= s.outstanding <= s.capacity
    ensures
      var after := Drained(m, Adopted(side, s.sessionEpoch), items, start);
      && outstanding + |side.queue| + ScheduledIn(items) == s.outstanding + |after.queue|
      && PROTOCOL.IsRun(s, steps)
      && PROTOCOL.After(s, steps) ==
         Carrying(s, after, outstanding).(queue := [], callbackEpoch := s.sessionEpoch, audio := Rendering)
  {
    hide System.Takes, System.IsRun, System.After, Drained, ScheduledIn;
    var begun := AudioTaken(s, BeginCallback);
    var first := [Audio(BeginCallback)];
    TraceIsRun(PROTOCOL, [s, begun], first);
    var middle, ready := [], begun;
    if s.sessionEpoch > side.epoch {
      middle := AdoptEpochIsItsSteps(begun, side, s.sessionEpoch, ThenDrain);
      ready := PROTOCOL.After(begun, middle);
    } else {
      TraceIsRun(PROTOCOL, [begun], []);
    }
    RunThenRun(PROTOCOL, s, first, middle);
    var last;
    last, outstanding := DrainIsItsSteps(m, ready, Adopted(side, s.sessionEpoch), items, start);
    RunThenRun(PROTOCOL, s, first + middle, last);
    steps := first + middle + last;
  }

  // ---- DispatchDue and the callback ---------------------------------------------------------------

  /** The state once some of the side's events have been executed. */
  function Executed<E, C>(s: State, side: Side<E, C>, queue: Queue<C>): State
    requires |queue| <= |side.queue| <= s.outstanding
  {
    var count := |side.queue| - |queue|;
    Carrying(s, side.(queue := queue), s.outstanding - count).(executed := s.executed + count)
  }

  lemma {:induction false} DispatchDueIsItsSteps<E(!new), C(!new)>(
    m: Machine<E, C>, e: E, s: State, side: Side<E, C>, frame: nat)
    returns (steps: seq<Step>)
    requires Carries(s, side) && s.audio == Rendering && |side.queue| <= s.outstanding
    ensures
      var rest := ApplyDue(m, e, side.queue, frame).1;
      && |rest| <= |side.queue|
      && PROTOCOL.IsRun(s, steps) && PROTOCOL.After(s, steps) == Executed(s, side, rest)
    decreases |side.queue|
  {
    hide System.Takes, System.IsRun, System.After;
    if side.queue != [] && side.queue[0].target <= frame {
      var s1 := AudioTaken(s, PopDue(frame));
      var s2 := AudioTaken(s1, ReleaseExecuted);
      var s3 := AudioTaken(s2, CountExecuted);
      var first := [Audio(PopDue(frame)), Audio(ReleaseExecuted), Audio(CountExecuted)];
      TraceIsRun(PROTOCOL, [s, s1, s2, s3], first);
      MarkedTail(side.queue, side.epoch);
      var fewer := side.(queue := side.queue[1..]);
      var rest := DispatchDueIsItsSteps(m, m.apply(e, side.queue[0].command, frame), s3, fewer, frame);
      RunThenRun(PROTOCOL, s, first, rest);
      steps := first + rest;
    } else {
      steps := [];
      TraceIsRun(PROTOCOL, [s], []);
    }
  }

  /** The reference's dispatches, frame by frame. Those of frames without events take no step. */
  lemma {:induction false} ReferenceIsItsSteps<E(!new), C(!new)>(
    m: Machine<E, C>, e: E, s: State, side: Side<E, C>, frame: nat, n: nat)
    returns (steps: seq<Step>)
    requires Carries(s, side) && s.audio == Rendering && |side.queue| <= s.outstanding
    ensures
      var rest := Reference(m, e, side.queue, frame, n).1;
      && |rest| <= |side.queue|
      && PROTOCOL.IsRun(s, steps) && PROTOCOL.After(s, steps) == Executed(s, side, rest)
    decreases n
  {
    hide System.Takes, System.IsRun, System.After, ApplyDue, Marked;
    if n == 0 {
      steps := [];
      TraceIsRun(PROTOCOL, [s], []);
    } else {
      var (applied, left) := ApplyDue(m, e, side.queue, frame);
      var first := DispatchDueIsItsSteps(m, e, s, side, frame);
      var next := PROTOCOL.After(s, first);
      var rest := ReferenceIsItsSteps(m, m.render(applied, frame, 1).0, next, side.(queue := left), frame + 1, n - 1);
      RunThenRun(PROTOCOL, s, first, rest);
      steps := first + rest;
    }
  }

  lemma RenderBlockIsItsSteps<E(!new), C(!new)>(
    m: Machine<E, C>, limit: nat, e: E, s: State, side: Side<E, C>, start: nat, n: nat)
    returns (steps: seq<Step>)
    requires Carries(s, side) && s.audio == Rendering && |side.queue| <= s.outstanding
    ensures
      var rest := RenderedCallback(m, limit, e, side.queue, start, n).1;
      && |rest| <= |side.queue|
      && PROTOCOL.IsRun(s, steps) && PROTOCOL.After(s, steps) == Executed(s, side, rest)
  {
    hide System.IsRun, System.After, ApplyDue, Reference, Marked;
    if 0 < n <= limit {
      steps := ReferenceIsItsSteps(m, e, s, side, start, n);
    } else {
      steps := DispatchDueIsItsSteps(m, e, s, side, start);
    }
  }

  /** A whole callback with the control thread at rest: its atomic steps end with the side, the
      reservations and the counts that Render leaves. */
  lemma RenderIsItsSteps<E(!new), C(!new)>(
    m: Machine<E, C>, limit: nat, s: State, side: Side<E, C>, items: seq<QueuedCommand<C>>, start: nat, n: nat)
    returns (steps: seq<Step>)
    requires Carries(s, side) && s.queue == AsItems(items) && |items| <= s.queueCapacity
    requires s.audio == Between && s.active
    requires s.outstanding == |side.queue| + ScheduledIn(items) <= s.capacity
    ensures
      var ready := Drained(m, Adopted(side, s.sessionEpoch), items, start);
      var (engine, rest, _) := RenderedCallback(m, limit, ready.engine, ready.queue, start, n);
      && |rest| <= |ready.queue|
      && PROTOCOL.IsRun(s, steps)
      && PROTOCOL.After(s, steps) ==
         Carrying(s, ready.(engine := engine, queue := rest), |rest|)
           .(queue := [], callbackEpoch := s.sessionEpoch, executed := s.executed + |ready.queue| - |rest|)
  {
    hide System.Takes, System.IsRun, System.After, Drained, RenderedCallback, ScheduledIn, Marked;
    var first, outstanding := DrainCommandsIsItsSteps(m, s, side, items, start);
    var ready := Drained(m, Adopted(side, s.sessionEpoch), items, start);
    var s1 := PROTOCOL.After(s, first);
    var middle := RenderBlockIsItsSteps(m, limit, ready.engine, s1, ready, start, n);
    RunThenRun(PROTOCOL, s, first, middle);
    var s2 := PROTOCOL.After(s, first + middle);
    var s3 := AudioTaken(s2, EndCallback);
    TraceIsRun(PROTOCOL, [s2, s3], [Audio(EndCallback)]);
    RunThenRun(PROTOCOL, s, first + middle, [Audio(EndCallback)]);
    steps := first + middle + [Audio(EndCallback)];
  }

  // ---- ScheduleAtFrame --------------------------------------------------------------------------

  /** Scheduling takes a reservation and a place in the queue, or nothing. */
  lemma ScheduleAtFrameIsItsSteps(s: State, target: nat) returns (steps: seq<Step>)
    requires s.control == Idle
    ensures PROTOCOL.IsRun(s, steps)
    ensures PROTOCOL.After(s, steps) ==
            if s.outstanding >= s.capacity || |s.queue| >= s.queueCapacity then s
            else s.(outstanding := s.outstanding + 1, queue := s.queue + [Scheduled(target, s.sessionEpoch)],
                    accepted := s.accepted + 1)
  {
    hide System.Takes, System.IsRun, System.After;
    var s1 := ControlTaken(s, Reserve);
    if s.outstanding >= s.capacity {
      var s2 := ControlTaken(s1, GiveUp);
      steps := [Control(Reserve), Control(GiveUp)];
      TraceIsRun(PROTOCOL, [s, s1, s2], steps);
      return;
    }
    var s2 := ControlTaken(s1, CompareExchange(target));
    var s3 := ControlTaken(s2, LoadEpoch);
    var s4 := ControlTaken(s3, PushItem);
    var last := if |s.queue| < s.queueCapacity then CountAccepted else ReleaseRefused;
    var s5 := ControlTaken(s4, last);
    steps := [Control(Reserve), Control(CompareExchange(target)), Control(LoadEpoch), Control(PushItem), Control(last)];
    TraceIsRun(PROTOCOL, [s, s1, s2, s3, s4, s5], steps);
  }
}
