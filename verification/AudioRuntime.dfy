/** The device callback (src/lavanda/runtime/audio_runtime.cc:479-556): adopt the session's epoch,
    drain the command queue, render the block, advance the clock. This is the audio thread's side
    with the control thread at rest; EventFlow has the interleavings. */
module AudioRuntimes {
  import opened Prelude
  import opened Signals
  import opened Blocks
  import opened Ramps
  import opened Scheduling
  import opened SpscQueue
  import opened Timeline

  datatype QueuedCommand<+C> = QueuedCommand(command: C, target: nat, scheduled: bool, epoch: nat)

  datatype ScheduleResult = Accepted | CapacityExhausted | QueueFull

  // ---- On values ----------------------------------------------------------------------------------

  /** The audio thread's state, as the queue of commands sees it. */
  datatype Side<E, C> = Side(engine: E, queue: Queue<C>, nextSequence: nat, epoch: nat, discarded: nat)

  /** A newer epoch empties the heap. */
  function Adopted<E, C>(s: Side<E, C>, epoch: nat): Side<E, C> {
    if epoch <= s.epoch then s else s.(queue := [], epoch := epoch, discarded := s.discarded + |s.queue|)
  }

  /** One queued command: applied now, put in the heap, or of a session that is over. */
  function Taken<E(!new), C(!new)>(m: Machine<E, C>, s: Side<E, C>, item: QueuedCommand<C>, start: nat): Side<E, C> {
    if !item.scheduled then s.(engine := m.apply(s.engine, item.command, start))
    else
      var now := Adopted(s, item.epoch);
      if item.epoch < now.epoch then now.(discarded := now.discarded + 1)
      else now.(queue := Inserted(now.queue, ScheduledEvent(item.target, now.nextSequence, item.command)),
                nextSequence := now.nextSequence + 1)
  }

  function Drained<E(!new), C(!new)>(m: Machine<E, C>, s: Side<E, C>, items: seq<QueuedCommand<C>>, start: nat)
    : Side<E, C>
    decreases |items|
  {
    if items == [] then s else Drained(m, Taken(m, s, items[0], start), items[1..], start)
  }

  /** The immediate commands among the items, in order, each with the frame it acts on. */
  function Immediates<C>(items: seq<QueuedCommand<C>>, frame: nat): seq<(C, nat)>
    decreases |items|
  {
    if items == [] then []
    else (if items[0].scheduled then [] else [(items[0].command, frame)]) + Immediates(items[1..], frame)
  }

  /** A drain applies exactly the immediate commands, in order, at the frame it is given. */
  lemma {:induction false} DrainIsLogged<E(!new), C(!new)>(
    m: Machine<E, C>, s: Side<(E, seq<(C, nat)>), C>, items: seq<QueuedCommand<C>>, start: nat)
    ensures Drained(Logged(m), s, items, start).engine.1 == s.engine.1 + Immediates(items, start)
    decreases |items|
  {
    hide Taken, Logged;
    if items == [] {
      assert s.engine.1 + [] == s.engine.1;
    } else {
      hide Drained, Immediates;
      DrainedNext(Logged(m), s, items, start);
      DrainIsLogged(m, Taken(Logged(m), s, items[0], start), items[1..], start);
      TakenIsLogged(m, s, items[0], start);
      var log, first := s.engine.1, if items[0].scheduled then [] else [(items[0].command, start)];
      assert (log + first) + Immediates(items[1..], start) == log + (first + Immediates(items[1..], start));
    }
  }

  lemma DrainedNext<E(!new), C(!new)>(m: Machine<E, C>, s: Side<E, C>, items: seq<QueuedCommand<C>>, start: nat)
    requires items != []
    ensures Drained(m, s, items, start) == Drained(m, Taken(m, s, items[0], start), items[1..], start)
    ensures Immediates(items, start) ==
            (if items[0].scheduled then [] else [(items[0].command, start)]) + Immediates(items[1..], start)
  {
  }

  lemma TakenIsLogged<E(!new), C(!new)>(
    m: Machine<E, C>, s: Side<(E, seq<(C, nat)>), C>, item: QueuedCommand<C>, start: nat)
    ensures Taken(Logged(m), s, item, start).engine.1 ==
            s.engine.1 + if item.scheduled then [] else [(item.command, start)]
  {
  }

  /** The frames whose events a callback dispatches: its own, or only the first if it is empty or
      beyond the block limit. */
  function Span(limit: nat, n: nat): nat {
    if 0 < n <= limit then n else 1
  }

  /** A callback executes exactly the events of its span, in order, each on its frame or on the first. */
  lemma CallbackIsLogged<E(!new), C(!new)>(
    m: Machine<E, C>, limit: nat, e: E, log: seq<(C, nat)>, queue: Queue<C>, start: nat, n: nat)
    requires InOrder(queue)
    ensures RenderedCallback(Logged(m), limit, (e, log), queue, start, n).0.1 ==
            log + Schedule(queue, start, start + Span(limit, n))
  {
    hide Reference, InOrder, ApplyDue, Schedule;
    if 0 < n <= limit {
      EventsActOnTheirFrames(m, e, log, queue, start, n);
    } else {
      ApplyDueIsLogged(m, e, log, queue, start);
    }
  }

  ghost function ScheduledIn<C>(items: seq<QueuedCommand<C>>): nat
    decreases |items|
  {
    if items == [] then 0 else ScheduledIn(items[1..]) + if items[0].scheduled then 1 else 0
  }

  lemma {:induction false} ScheduledInAppend<C>(items: seq<QueuedCommand<C>>, item: QueuedCommand<C>)
    ensures ScheduledIn(items + [item]) == ScheduledIn(items) + if item.scheduled then 1 else 0
    decreases |items|
  {
    if items == [] {
      assert (items + [item])[1..] == [];
    } else {
      assert (items + [item])[1..] == items[1..] + [item];
      ScheduledInAppend(items[1..], item);
    }
  }

  ghost predicate Representable<C>(queue: Queue<C>) {
    forall i :: 0 <= i < |queue| ==> queue[i].target <= MAX_FRAME
  }

  ghost predicate ItemsRepresentable<C>(items: seq<QueuedCommand<C>>) {
    forall i :: 0 <= i < |items| ==> items[i].target <= MAX_FRAME
  }

  lemma InsertedRepresentable<C>(queue: Queue<C>, event: ScheduledEvent<C>)
    requires Representable(queue) && event.target <= MAX_FRAME
    ensures Representable(Inserted(queue, event))
  {
    InsertedContents(queue, event);
    var after := Inserted(queue, event);
    forall i | 0 <= i < |after| ensures after[i].target <= MAX_FRAME {
      assert after[i] in after;
    }
  }

  lemma NextRepresentable<C>(queue: Queue<C>)
    requires Representable(queue)
    ensures queue != [] ==> queue[0].target <= MAX_FRAME && Representable(queue[1..])
  {
  }

  lemma {:induction false} ApplyingKeepsTargets<E(!new), C(!new)>(m: Machine<E, C>, e: E, queue: Queue<C>, frame: nat)
    requires Representable(queue)
    ensures Representable(ApplyDue(m, e, queue, frame).1)
    decreases |queue|
  {
    if queue != [] && queue[0].target <= frame {
      ApplyingKeepsTargets(m, m.apply(e, queue[0].command, frame), queue[1..], frame);
    }
  }

  lemma {:induction false} RenderingKeepsTargets<E(!new), C(!new)>(
    m: Machine<E, C>, e: E, queue: Queue<C>, start: nat, n: nat)
    requires Representable(queue)
    ensures Representable(RenderedBlock(m, e, queue, start, n).1)
    decreases n
  {
    hide Representable, ApplyDue;
    ApplyingKeepsTargets(m, e, queue, start);
    if n > 0 {
      var (applied, rest) := ApplyDue(m, e, queue, start);
      var next := m.render(applied, start, 1).0;
      if n > 1 {
        RenderingKeepsTargets(m, next, rest, start + 1, n - 1);
      } else {
        NoFramesNoChange(m, next, rest, start + 1);
      }
    }
  }

  lemma CallbackKeepsTargets<E(!new), C(!new)>(
    m: Machine<E, C>, limit: nat, e: E, queue: Queue<C>, start: nat, n: nat)
    requires Representable(queue)
    ensures Representable(RenderedCallback(m, limit, e, queue, start, n).1)
  {
    hide Representable, ApplyDue, RenderedBlock;
    RenderingKeepsTargets(m, e, queue, start, n);
    ApplyingKeepsTargets(m, e, queue, start);
  }

  // ---- The runtime ------------------------------------------------------------------------------

  class AudioRuntime<E(!new), C(!new)> {
    const timeline: Runtime<E, C>
    const commands: CommandQueue<QueuedCommand<C>>
    var outstanding: nat
    var audioEpoch: nat
    var discarded: nat
    var clock: nat
    var active: bool

    ghost predicate Valid()
      reads this, timeline, timeline.scheduler, timeline.scheduler.heap, commands, commands.buffer
    {
      && timeline.Valid() && commands.Valid()
      && (commands.buffer as object) != (timeline.scheduler.heap as object)
      && (commands as object) !in {timeline as object, timeline.scheduler as object}
      && Representable(timeline.scheduler.queue) && ItemsRepresentable(commands.items)
      && outstanding == |timeline.scheduler.queue| + ScheduledIn(commands.items)
      && outstanding <= timeline.scheduler.heap.Length
    }

    ghost function State(): Side<E, C>
      reads this, timeline, timeline.scheduler
    {
      Side(timeline.engine, timeline.scheduler.queue, timeline.scheduler.nextSequence, audioEpoch, discarded)
    }

    constructor (timeline: Runtime<E, C>, commands: CommandQueue<QueuedCommand<C>>)
      requires timeline.Valid() && commands.Valid() && timeline.scheduler.queue == [] && commands.items == []
      requires (commands.buffer as object) != (timeline.scheduler.heap as object)
      requires (commands as object) !in {timeline as object, timeline.scheduler as object}
      ensures Valid() && this.timeline == timeline && this.commands == commands && clock == 0 && !active
    {
      this.timeline, this.commands := timeline, commands;
      outstanding, audioEpoch, discarded, clock, active := 0, 0, 0, 0, false;
    }

    /** The control thread's side: a valid command for a frame takes a reservation and a place in the
        queue, or neither. */
    method ScheduleAtFrame(command: C, target: nat, sessionEpoch: nat) returns (result: ScheduleResult)
      requires Valid() && target <= MAX_FRAME
      modifies this`outstanding, commands`head, commands`items, commands.buffer
      ensures Valid() && State() == old(State())
      ensures result ==
              if old(outstanding) == timeline.scheduler.heap.Length then CapacityExhausted
              else if |old(commands.items)| == commands.buffer.Length then QueueFull
              else Accepted
      ensures result.Accepted? ==>
                && commands.items == old(commands.items) + [QueuedCommand(command, target, true, sessionEpoch)]
                && outstanding == old(outstanding) + 1
      ensures !result.Accepted? ==> commands.items == old(commands.items) && outstanding == old(outstanding)
    {
      hide InOrder, AllBelow, IsHeap, Machine.Splittable;
      if outstanding >= timeline.scheduler.heap.Length {
        return CapacityExhausted;
      }
      var item := QueuedCommand(command, target, true, sessionEpoch);
      ScheduledInAppend(commands.items, item);
      outstanding := outstanding + 1;
      var ok := commands.TryPush(item);
      if !ok {
        outstanding := outstanding - 1;
        return QueueFull;
      }
      return Accepted;
    }

    /** A new epoch discards everything scheduled before it and returns its reservations. */
    method AdoptEpoch(epoch: nat)
      requires timeline.Valid() && Representable(timeline.scheduler.queue) && |timeline.scheduler.queue| <= outstanding
      modifies this`outstanding, this`audioEpoch, this`discarded
      modifies timeline.scheduler`size, timeline.scheduler`queue, timeline.scheduler.heap
      ensures timeline.Valid() && State() == Adopted(old(State()), epoch)
      ensures outstanding + |old(timeline.scheduler.queue)| == old(outstanding) + |timeline.scheduler.queue|
    {
      hide Machine.Splittable, Representable, EventScheduler.Valid;
      if epoch <= audioEpoch {
        return;
      }
      NextRepresentable(timeline.scheduler.queue);
      ghost var before := timeline.scheduler.queue;
      var stale := timeline.scheduler.PopDue(MAX_FRAME);
      while stale.Some?
        invariant timeline.Valid() && Representable(timeline.scheduler.queue)
        invariant timeline.engine == old(timeline.engine) && audioEpoch == old(audioEpoch)
        invariant timeline.scheduler.nextSequence == old(timeline.scheduler.nextSequence)
        invariant stale.None? ==> timeline.scheduler.queue == []
        invariant outstanding + |before| == old(outstanding) + |timeline.scheduler.queue| + if stale.Some? then 1 else 0
        invariant discarded + |timeline.scheduler.queue| + (if stale.Some? then 1 else 0) == old(discarded) + |before|
        decreases stale.Some?, |timeline.scheduler.queue|
      {
        outstanding := outstanding - 1;
        discarded := discarded + 1;
        NextRepresentable(timeline.scheduler.queue);
        stale := timeline.scheduler.PopDue(MAX_FRAME);
      }
      audioEpoch := epoch;
    }

    /** One item off the queue. The heap always has room: the item holds a reservation. */
    method TakeCommand(item: QueuedCommand<C>, start: nat)
      requires timeline.Valid() && Representable(timeline.scheduler.queue) && item.target <= MAX_FRAME
      requires |timeline.scheduler.queue| + (if item.scheduled then 1 else 0) <= outstanding
      requires outstanding <= timeline.scheduler.heap.Length
      modifies this`outstanding, this`audioEpoch, this`discarded, timeline`engine
      modifies timeline.scheduler, timeline.scheduler.heap
      ensures timeline.Valid() && Representable(timeline.scheduler.queue)
      ensures State() == Taken(timeline.machine, old(State()), item, start)
      ensures !item.scheduled ==>
                && timeline.engine == timeline.machine.apply(old(timeline.engine), item.command, start)
                && timeline.scheduler.queue == old(timeline.scheduler.queue) && audioEpoch == old(audioEpoch)
                && discarded == old(discarded) && outstanding == old(outstanding)
      ensures item.scheduled ==> timeline.engine == old(timeline.engine) && audioEpoch == Max(old(audioEpoch), item.epoch)
      ensures item.scheduled && item.epoch < old(audioEpoch) ==>
                timeline.scheduler.queue == old(timeline.scheduler.queue) && discarded == old(discarded) + 1
      ensures item.scheduled && item.epoch >= old(audioEpoch) ==>
                var event := ScheduledEvent(item.target, old(timeline.scheduler.nextSequence), item.command);
                if item.epoch == old(audioEpoch) then
                  timeline.scheduler.queue == Inserted(old(timeline.scheduler.queue), event)
                  && discarded == old(discarded)
                else
                  timeline.scheduler.queue == [event]
                  && discarded == old(discarded) + |old(timeline.scheduler.queue)|
      ensures outstanding + |old(timeline.scheduler.queue)| + (if item.scheduled then 1 else 0) ==
              old(outstanding) + |timeline.scheduler.queue|
      ensures outstanding <= old(outstanding)
    {
      hide Representable, Machine.Splittable, EventScheduler.Valid;
      if item.scheduled {
        TakeScheduled(item);
      } else {
        AppliedIsValid(timeline.machine, timeline.maxFramesPerBlock, timeline.engine, item.command, start);
        timeline.engine := timeline.machine.apply(timeline.engine, item.command, start);
      }
    }

    /** A scheduled item brings its epoch, and then joins the heap or is discarded. */
    method TakeScheduled(item: QueuedCommand<C>)
      requires timeline.Valid() && Representable(timeline.scheduler.queue) && item.target <= MAX_FRAME
      requires item.scheduled && |timeline.scheduler.queue| < outstanding <= timeline.scheduler.heap.Length
      modifies this`outstanding, this`audioEpoch, this`discarded
      modifies timeline.scheduler, timeline.scheduler.heap
      ensures timeline.Valid() && Representable(timeline.scheduler.queue)
      ensures timeline.engine == old(timeline.engine) && audioEpoch == Max(old(audioEpoch), item.epoch)
      ensures item.epoch < old(audioEpoch) ==>
                && timeline.scheduler.queue == old(timeline.scheduler.queue) && discarded == old(discarded) + 1
                && timeline.scheduler.nextSequence == old(timeline.scheduler.nextSequence)
      ensures item.epoch >= old(audioEpoch) ==>
                var event := ScheduledEvent(item.target, old(timeline.scheduler.nextSequence), item.command);
                && timeline.scheduler.nextSequence == old(timeline.scheduler.nextSequence) + 1
                && if item.epoch == old(audioEpoch) then
                     timeline.scheduler.queue == Inserted(old(timeline.scheduler.queue), event)
                     && discarded == old(discarded)
                   else
                     timeline.scheduler.queue == [event]
                     && discarded == old(discarded) + |old(timeline.scheduler.queue)|
      ensures outstanding + |old(timeline.scheduler.queue)| + 1 == old(outstanding) + |timeline.scheduler.queue|
      ensures outstanding <= old(outstanding)
    {
      hide Representable, Machine.Splittable, EventScheduler.Valid;
      AdoptEpoch(item.epoch);
      if item.epoch < audioEpoch {
        outstanding := outstanding - 1;
        discarded := discarded + 1;
        return;
      }
      ghost var event := ScheduledEvent(item.target, timeline.scheduler.nextSequence, item.command);
      InsertedLength(timeline.scheduler.queue, event);
      InsertedRepresentable(timeline.scheduler.queue, event);
      var ok := timeline.scheduler.Push(item.target, item.command);
      assert ok;
    }

    /** One turn of the drain; false when the queue is found empty. */
    method TakeNext(start: nat) returns (more: bool)
      requires Valid()
      modifies this`outstanding, this`audioEpoch, this`discarded, timeline`engine
      modifies timeline.scheduler, timeline.scheduler.heap, commands`tail, commands`items
      ensures Valid() && more == (old(commands.items) != [])
      ensures more ==>
                && commands.items == old(commands.items)[1..]
                && State() == Taken(timeline.machine, old(State()), old(commands.items)[0], start)
      ensures !more ==> commands.items == [] && State() == old(State())
    {
      hide InOrder, AllBelow, IsHeap, Taken, Machine.Splittable;
      ghost var items := commands.items;
      var item := commands.TryPop();
      if item.None? {
        return false;
      }
      assert items[0].target <= MAX_FRAME;
      TakeCommand(item.value, start);
      return true;
    }

    /** Up to capacity pops, which is everything that was queued. */
    method DrainCommands(start: nat, sessionEpoch: nat)
      requires Valid()
      modifies this`outstanding, this`audioEpoch, this`discarded, timeline`engine
      modifies timeline.scheduler, timeline.scheduler.heap, commands`tail, commands`items
      ensures Valid() && commands.items == []
      ensures State() == Drained(timeline.machine, Adopted(old(State()), sessionEpoch), old(commands.items), start)
    {
      hide Representable, ItemsRepresentable, ScheduledIn, InOrder, AllBelow, IsHeap, Taken, Adopted, Machine.Splittable;
      AdoptAll(sessionEpoch);
      ghost var goal := Drained(timeline.machine, State(), commands.items, start);
      for i := 0 to commands.buffer.Length
        invariant Valid() && |commands.items| <= commands.buffer.Length - i
        invariant Drained(timeline.machine, State(), commands.items, start) == goal
      {
        var more := TakeNext(start);
        if !more {
          break;
        }
      }
    }

    method AdoptAll(sessionEpoch: nat)
      requires Valid()
      modifies this`outstanding, this`audioEpoch, this`discarded
      modifies timeline.scheduler`size, timeline.scheduler`queue, timeline.scheduler.heap
      ensures Valid() && State() == Adopted(old(State()), sessionEpoch)
    {
      hide InOrder, AllBelow, IsHeap, Machine.Splittable;
      AdoptEpoch(sessionEpoch);
    }

    /** The callback. Inactive, it only clears the output. */
    method Render(output: AudioBufferView, sessionEpoch: nat)
      requires Valid() && output.offset + output.frameCount <= output.data.Length
      requires output.data as object != timeline.scheduler.heap as object
      requires output.data as object != commands.buffer as object
      modifies this, timeline, timeline.scheduler, timeline.scheduler.heap, commands`tail, commands`items, output.data
      ensures Valid()
      ensures !old(active) ==>
                && output.Content() == Zeros(output.frameCount, output.channels)
                && State() == old(State()) && clock == old(clock) && commands.items == old(commands.items)
      ensures old(active) ==>
                var s := Drained(timeline.machine, Adopted(old(State()), sessionEpoch), old(commands.items), old(clock));
                && clock == old(clock) + output.frameCount && commands.items == []
                && audioEpoch == s.epoch && discarded == s.discarded
                && (timeline.engine, timeline.scheduler.queue, output.Content()) ==
                   RenderedCallback(timeline.machine, timeline.maxFramesPerBlock, s.engine, s.queue, old(clock),
                                    output.frameCount)
    {
      if !active {
        Clear(output);
        return;
      }
      RenderActive(output, sessionEpoch);
    }

    method RenderActive(output: AudioBufferView, sessionEpoch: nat)
      requires Valid() && output.offset + output.frameCount <= output.data.Length
      requires output.data as object != timeline.scheduler.heap as object
      requires output.data as object != commands.buffer as object
      modifies this, timeline, timeline.scheduler, timeline.scheduler.heap, commands`tail, commands`items, output.data
      ensures Valid()
      ensures
        var s := Drained(timeline.machine, Adopted(old(State()), sessionEpoch), old(commands.items), old(clock));
        && clock == old(clock) + output.frameCount && commands.items == []
        && audioEpoch == s.epoch && discarded == s.discarded
        && (timeline.engine, timeline.scheduler.queue, output.Content()) ==
           RenderedCallback(timeline.machine, timeline.maxFramesPerBlock, s.engine, s.queue, old(clock),
                            output.frameCount)
    {
      hide InOrder, AllBelow, IsHeap, Machine.Splittable, Drained, RenderedCallback, Representable, ItemsRepresentable;
      hide Adopted, ScheduledIn, SameElsewhere, EventScheduler.Valid, CommandQueue.Valid, Runtime.Valid;
      DrainCommands(clock, sessionEpoch);
      RenderQueued(output);
      clock := clock + output.frameCount;
    }

    /** RenderBlock, and the reservations of what it executed. */
    method RenderQueued(output: AudioBufferView)
      requires Valid() && commands.items == [] && output.offset + output.frameCount <= output.data.Length
      requires output.data as object != timeline.scheduler.heap as object
      requires output.data as object != commands.buffer as object
      modifies this`outstanding, timeline, timeline.scheduler`size, timeline.scheduler`queue, timeline.scheduler.heap
      modifies output.data
      ensures Valid() && commands.items == []
      ensures (timeline.engine, timeline.scheduler.queue, output.Content()) ==
              RenderedCallback(timeline.machine, timeline.maxFramesPerBlock, old(timeline.engine),
                               old(timeline.scheduler.queue), clock, output.frameCount)
    {
      hide InOrder, AllBelow, IsHeap, Machine.Splittable, RenderedCallback, Representable, ItemsRepresentable;
      hide SameElsewhere;
      CallbackKeepsTargets(timeline.machine, timeline.maxFramesPerBlock, timeline.engine, timeline.scheduler.queue,
                           clock, output.frameCount);
      var before := timeline.executed;
      timeline.RenderBlock(output, clock);
      outstanding := outstanding - (timeline.executed - before);
      timeline.scheduler.SizeIsLength();
    }
  }

  /** Over a whole drain the log grows by exactly the immediate commands of the queue. */
  method DrainLogged<E(!new), C(!new)>(
    runtime: AudioRuntime<(E, seq<(C, nat)>), C>, ghost m: Machine<E, C>, start: nat, sessionEpoch: nat)
    requires runtime.Valid() && runtime.timeline.machine == Logged(m)
    modifies runtime`outstanding, runtime`audioEpoch, runtime`discarded, runtime.timeline`engine
    modifies runtime.timeline.scheduler, runtime.timeline.scheduler.heap
    modifies runtime.commands`tail, runtime.commands`items
    ensures runtime.Valid() && runtime.commands.items == []
    ensures runtime.timeline.engine.1 ==
            old(runtime.timeline.engine.1) + Immediates(old(runtime.commands.items), start)
  {
    hide AudioRuntime.Valid, Drained, Immediates, Logged;
    ghost var s, items := runtime.State(), runtime.commands.items;
    runtime.DrainCommands(start, sessionEpoch);
    DrainIsLogged(m, Adopted(s, sessionEpoch), items, start);
  }

  /** Over a whole callback it grows by the immediate commands, at the callback's first frame, and then
      by the events of its span, each on its own frame. */
  method RenderLogged<E(!new), C(!new)>(
    runtime: AudioRuntime<(E, seq<(C, nat)>), C>, ghost m: Machine<E, C>, output: AudioBufferView, sessionEpoch: nat)
    requires runtime.Valid() && runtime.active && runtime.timeline.machine == Logged(m)
    requires output.offset + output.frameCount <= output.data.Length
    requires output.data as object != runtime.timeline.scheduler.heap as object
    requires output.data as object != runtime.commands.buffer as object
    modifies runtime, runtime.timeline, runtime.timeline.scheduler, runtime.timeline.scheduler.heap
    modifies runtime.commands`tail, runtime.commands`items, output.data
    ensures runtime.Valid()
    ensures
      var drained := Drained(Logged(m), Adopted(old(runtime.State()), sessionEpoch), old(runtime.commands.items),
                             old(runtime.clock));
      var span := Span(runtime.timeline.maxFramesPerBlock, output.frameCount);
      runtime.timeline.engine.1 ==
      old(runtime.timeline.engine.1) + Immediates(old(runtime.commands.items), old(runtime.clock))
      + Schedule(drained.queue, old(runtime.clock), old(runtime.clock) + span)
  {
    hide Drained, Immediates, Logged, RenderedCallback, Schedule, Span;
    ghost var s, items, clock := runtime.State(), runtime.commands.items, runtime.clock;
    SideInOrder(runtime);
    runtime.Render(output, sessionEpoch);
    DrainIsLogged(m, Adopted(s, sessionEpoch), items, clock);
    ghost var drained := Drained(Logged(m), Adopted(s, sessionEpoch), items, clock);
    DrainKeepsOrder(Logged(m), Adopted(s, sessionEpoch), items, clock);
    CallbackIsLogged(m, runtime.timeline.maxFramesPerBlock, drained.engine.0, drained.engine.1, drained.queue, clock,
                     output.frameCount);
  }

  lemma SideInOrder<E(!new), C(!new)>(runtime: AudioRuntime<E, C>)
    requires runtime.Valid()
    ensures InOrder(runtime.timeline.scheduler.queue)
    ensures AllBelow(runtime.timeline.scheduler.queue, runtime.timeline.scheduler.nextSequence)
  {
    hide InOrder, AllBelow;
  }

  lemma {:induction false} DrainKeepsOrder<E(!new), C(!new)>(
    m: Machine<E, C>, s: Side<E, C>, items: seq<QueuedCommand<C>>, start: nat)
    requires InOrder(s.queue) && AllBelow(s.queue, s.nextSequence)
    ensures InOrder(Drained(m, s, items, start).queue)
    decreases |items|
  {
    if items != [] {
      TakingKeepsOrder(m, s, items[0], start);
      DrainKeepsOrder(m, Taken(m, s, items[0], start), items[1..], start);
    }
  }

  lemma TakingKeepsOrder<E(!new), C(!new)>(m: Machine<E, C>, s: Side<E, C>, item: QueuedCommand<C>, start: nat)
    requires InOrder(s.queue) && AllBelow(s.queue, s.nextSequence)
    ensures
      var after := Taken(m, s, item, start);
      InOrder(after.queue) && AllBelow(after.queue, after.nextSequence)
  {
    hide InOrder, AllBelow;
    NothingInOrder<C>(s.nextSequence);
    var now := Adopted(s, item.epoch);
    var event := ScheduledEvent(item.target, now.nextSequence, item.command);
    InsertedInOrder(now.queue, event);
    InsertedBelow(now.queue, event);
  }

  lemma NothingInOrder<C>(sequence: nat)
    ensures InOrder<C>([]) && AllBelow<C>([], sequence)
  {
  }
}
