/** Scheduled events between the two threads: reservations, the command queue, the event heap and
    session epochs, interleaved at the granularity of their atomic operations
    (src/lavanda/runtime/audio_runtime.cc:246-331, src/lavanda/runtime/audio_runtime.cc:502-556,
    src/lavanda/runtime/event_scheduler.cc:25-87). The command queue appears as the bounded FIFO
    that SpscQueue proves it to be, the heap as the queue in execution order that Scheduling proves
    it to be. Epochs and counters are unbounded. */
module EventFlow {
  import opened Prelude
  import opened Scheduling
  import opened Runs

  /** A queued command: an immediate one, or a scheduled one with its session epoch. */
  datatype Item = Immediate | Scheduled(target: nat, epoch: nat)

  /** Heap events carry the epoch they were stamped with; the program keeps only the command. */
  type Pending = seq<ScheduledEvent<nat>>

  datatype ControlPc =
    | Idle
    | Reserving(current: nat)        // TryReserve has read outstanding
    | Reserved(target: nat)
    | Stamped(target: nat, epoch: nat)
    | PushRefused                    // about to give the reservation back
    | Pushed                         // about to count the event as accepted

  /** What the audio thread does once a new epoch is adopted. */
  datatype Afterwards = ThenDrain | ThenAdmit(item: Item, pops: nat)

  datatype AudioPc =
    | Between
    | Adopting(epoch: nat, after: Afterwards)
    | StaleTaken(epoch: nat, after: Afterwards)      // popped, not released
    | StaleReleased(epoch: nat, after: Afterwards)   // released, not counted
    | Draining(pops: nat)
    | Admitting(item: Item, pops: nat)
    | Judging(item: Item, pops: nat)                 // its epoch is not newer than the audio thread's
    | RejectReleased(pops: nat)
    | PushFailed(pops: nat)
    | DropReleased(pops: nat)
    | Rendering
    | Executing(event: ScheduledEvent<nat>)          // popped, not released
    | ExecutedReleased

  datatype State = State(
    capacity: nat, outstanding: nat,
    queueCapacity: nat, queue: seq<Item>,
    heap: Pending, nextSequence: nat,
    sessionEpoch: nat, audioEpoch: nat, callbackEpoch: nat,
    active: bool, control: ControlPc, audio: AudioPc,
    accepted: nat, executed: nat, discarded: nat, dropped: nat)

  datatype ControlStep =
    | Reserve | RetryReserve | GiveUp | CompareExchange(target: nat)
    | LoadEpoch | PushItem | ReleaseRefused | CountAccepted
    | SubmitImmediate | Shutdown | SetActive(active: bool)

  datatype AudioStep =
    | BeginCallback | PopStale | ReleaseStale | CountDiscarded | AdoptNow
    | PopItem | StopDraining | CompareEpoch
    | Reject | CountRejected | PushHeap | ReleaseDropped | CountDropped
    | PopDue(frame: nat) | ReleaseExecuted | CountExecuted | EndCallback

  datatype Step = Control(control: ControlStep) | Audio(audio: AudioStep)

  predicate Start(s: State) {
    && s.outstanding == 0 && s.queue == [] && s.heap == []
    && s.audioEpoch == s.sessionEpoch == s.callbackEpoch
    && s.control == Idle && s.audio == Between
    && s.accepted == s.executed == s.discarded == s.dropped == 0
  }

  predicate ControlEnabled(s: State, step: ControlStep) {
    match step
    case Reserve => s.control == Idle
    case RetryReserve => s.control.Reserving? && s.control.current < s.capacity
    case GiveUp => s.control.Reserving? && s.control.current >= s.capacity
    case CompareExchange(_) =>
      s.control.Reserving? && s.control.current < s.capacity && s.outstanding == s.control.current
    case LoadEpoch => s.control.Reserved?
    case PushItem => s.control.Stamped?
    case ReleaseRefused => s.control == PushRefused
    case CountAccepted => s.control == Pushed
    case SubmitImmediate => s.control == Idle && |s.queue| < s.queueCapacity
    case Shutdown => s.control == Idle
    case SetActive(_) => s.control == Idle
  }

  /** Releasing a reservation is a fetch_sub: it wraps below zero, which Counted rules out. */
  function ControlNext(s: State, step: ControlStep): State
    requires ControlEnabled(s, step)
  {
    match step
    case Reserve => s.(control := Reserving(s.outstanding))
    case RetryReserve => s.(control := Reserving(s.outstanding))
    case GiveUp => s.(control := Idle)
    case CompareExchange(target) => s.(outstanding := s.outstanding + 1, control := Reserved(target))
    case LoadEpoch => s.(control := Stamped(s.control.target, s.sessionEpoch))
    case PushItem =>
      if |s.queue| < s.queueCapacity
      then s.(queue := s.queue + [Scheduled(s.control.target, s.control.epoch)], control := Pushed)
      else s.(control := PushRefused)
    case ReleaseRefused => s.(outstanding := Released(s.outstanding), control := Idle)
    case CountAccepted => s.(accepted := s.accepted + 1, control := Idle)
    case SubmitImmediate => s.(queue := s.queue + [Immediate])
    case Shutdown => s.(sessionEpoch := s.sessionEpoch + 1, active := false)
    case SetActive(active) => s.(active := active)
  }

  const COUNTER_LIMIT: nat := 0x1_0000_0000_0000_0000

  function Released(outstanding: nat): nat {
    if outstanding == 0 then COUNTER_LIMIT - 1 else outstanding - 1
  }

  predicate AudioEnabled(s: State, step: AudioStep) {
    match step
    case BeginCallback => s.audio == Between && s.active
    case PopStale => s.audio.Adopting? && s.heap != []
    case ReleaseStale => s.audio.StaleTaken?
    case CountDiscarded => s.audio.StaleReleased?
    case AdoptNow => s.audio.Adopting? && s.heap == []
    case PopItem => s.audio.Draining? && s.audio.pops < s.queueCapacity && s.queue != []
    case StopDraining => s.audio.Draining? && (s.audio.pops == s.queueCapacity || s.queue == [])
    case CompareEpoch => s.audio.Admitting? && s.audio.item.Scheduled?
    case Reject => s.audio.Judging? && s.audio.item.Scheduled? && s.audio.item.epoch < s.audioEpoch
    case CountRejected => s.audio.RejectReleased?
    case PushHeap => s.audio.Judging? && s.audio.item.Scheduled? && s.audio.item.epoch >= s.audioEpoch
    case ReleaseDropped => s.audio.PushFailed?
    case CountDropped => s.audio.DropReleased?
    case PopDue(frame) => s.audio == Rendering && s.heap != [] && s.heap[0].target <= frame
    case ReleaseExecuted => s.audio.Executing?
    case CountExecuted => s.audio == ExecutedReleased
    case EndCallback => s.audio == Rendering
  }

  function AudioNext(s: State, step: AudioStep): State
    requires AudioEnabled(s, step)
  {
    match step
    case BeginCallback =>
      s.(callbackEpoch := s.sessionEpoch,
         audio := if s.sessionEpoch <= s.audioEpoch then Draining(0) else Adopting(s.sessionEpoch, ThenDrain))
    case PopStale => s.(heap := s.heap[1..], audio := StaleTaken(s.audio.epoch, s.audio.after))
    case ReleaseStale =>
      s.(outstanding := Released(s.outstanding), audio := StaleReleased(s.audio.epoch, s.audio.after))
    case CountDiscarded => s.(discarded := s.discarded + 1, audio := Adopting(s.audio.epoch, s.audio.after))
    case AdoptNow =>
      s.(audioEpoch := s.audio.epoch,
         audio := if s.audio.after.ThenDrain? then Draining(0) else Judging(s.audio.after.item, s.audio.after.pops))
    case PopItem =>
      s.(queue := s.queue[1..],
         audio := if s.queue[0].Immediate? then Draining(s.audio.pops + 1) else Admitting(s.queue[0], s.audio.pops + 1))
    case StopDraining => s.(audio := Rendering)
    case CompareEpoch =>
      s.(audio := if s.audio.item.epoch <= s.audioEpoch then Judging(s.audio.item, s.audio.pops)
                  else Adopting(s.audio.item.epoch, ThenAdmit(s.audio.item, s.audio.pops)))
    case Reject => s.(outstanding := Released(s.outstanding), audio := RejectReleased(s.audio.pops))
    case CountRejected => s.(discarded := s.discarded + 1, audio := Draining(s.audio.pops))
    case PushHeap =>
      if |s.heap| < s.capacity
      then s.(heap := Inserted(s.heap, ScheduledEvent(s.audio.item.target, s.nextSequence, s.audio.item.epoch)),
              nextSequence := s.nextSequence + 1, audio := Draining(s.audio.pops))
      else s.(audio := PushFailed(s.audio.pops))
    case ReleaseDropped => s.(outstanding := Released(s.outstanding), audio := DropReleased(s.audio.pops))
    case CountDropped => s.(dropped := s.dropped + 1, audio := Draining(s.audio.pops))
    case PopDue(_) => s.(heap := s.heap[1..], audio := Executing(s.heap[0]))
    case ReleaseExecuted => s.(outstanding := Released(s.outstanding), audio := ExecutedReleased)
    case CountExecuted => s.(executed := s.executed + 1, audio := Rendering)
    case EndCallback => s.(audio := Between)
  }

  predicate Enabled(s: State, step: Step) {
    match step
    case Control(x) => ControlEnabled(s, x)
    case Audio(x) => AudioEnabled(s, x)
  }

  function Next(s: State, step: Step): State
    requires Enabled(s, step)
  {
    match step
    case Control(x) => ControlNext(s, x)
    case Audio(x) => AudioNext(s, x)
  }

  const PROTOCOL: System<State, Step> :=
    System((s, step) => Enabled(s, step), (s, step) => if Enabled(s, step) then Next(s, step) else s)

  // ---- Conservation -----------------------------------------------------------------------------

  ghost function QueuedEvents(queue: seq<Item>): nat {
    if queue == [] then 0 else QueuedEvents(queue[..|queue| - 1]) + if queue[|queue| - 1].Scheduled? then 1 else 0
  }

  /** Reservations the control thread holds for an event it has not pushed. */
  function ControlReserved(control: ControlPc): nat {
    match control
    case Reserved(_) => 1
    case Stamped(_, _) => 1
    case PushRefused => 1
    case _ => 0
  }

  /** Events pushed but not yet counted as accepted. */
  function ControlUncounted(control: ControlPc): nat {
    if control == Pushed then 1 else 0
  }

  function HeldItem(after: Afterwards): nat {
    if after.ThenAdmit? then 1 else 0
  }

  /** Events in the audio thread's hands whose reservation it has not released. */
  function AudioReserved(audio: AudioPc): nat {
    match audio
    case Adopting(_, after) => HeldItem(after)
    case StaleTaken(_, after) => HeldItem(after) + 1
    case StaleReleased(_, after) => HeldItem(after)
    case Admitting(_, _) => 1
    case Judging(_, _) => 1
    case PushFailed(_) => 1
    case Executing(_) => 1
    case _ => 0
  }

  /** Events whose reservation is released but which are not counted yet. */
  function AudioUncounted(audio: AudioPc): nat {
    match audio
    case StaleReleased(_, _) => 1
    case RejectReleased(_) => 1
    case DropReleased(_) => 1
    case ExecutedReleased => 1
    case _ => 0
  }

  /** Every reservation is held by exactly one event somewhere, and every accepted event is
      somewhere. */
  ghost predicate Counted(s: State) {
    && s.outstanding == ControlReserved(s.control) + QueuedEvents(s.queue) + |s.heap| + AudioReserved(s.audio)
    && s.outstanding <= s.capacity
    && s.accepted + ControlUncounted(s.control) ==
       s.executed + s.discarded + s.dropped + QueuedEvents(s.queue) + |s.heap| + AudioReserved(s.audio)
       + AudioUncounted(s.audio)
    && !s.audio.PushFailed? && !s.audio.DropReleased? && s.dropped == 0
  }

  lemma QueuedAppend(queue: seq<Item>, item: Item)
    ensures QueuedEvents(queue + [item]) == QueuedEvents(queue) + if item.Scheduled? then 1 else 0
  {
    assert (queue + [item])[..|queue|] == queue;
  }

  lemma {:induction false} QueuedTail(queue: seq<Item>)
    requires queue != []
    ensures QueuedEvents(queue) == QueuedEvents(queue[1..]) + if queue[0].Scheduled? then 1 else 0
  {
    if |queue| > 1 {
      QueuedTail(queue[..|queue| - 1]);
      assert queue[..|queue| - 1][1..] == queue[1..][..|queue| - 2];
    }
  }

  lemma ControlKeepsCount(s: State, step: ControlStep)
    requires Counted(s) && ControlEnabled(s, step)
    ensures Counted(ControlNext(s, step))
  {
    hide QueuedEvents;
    match step
    case PushItem => QueuedAppend(s.queue, Scheduled(s.control.target, s.control.epoch));
    case SubmitImmediate => QueuedAppend(s.queue, Immediate);
    case _ =>
  }

  lemma AudioKeepsCount(s: State, step: AudioStep)
    requires Counted(s) && AudioEnabled(s, step)
    ensures Counted(AudioNext(s, step))
  {
    hide QueuedEvents, Inserted;
    match step
    case PopItem => QueuedTail(s.queue);
    case PushHeap => InsertedLength(s.heap, ScheduledEvent(s.audio.item.target, s.nextSequence, s.audio.item.epoch));
    case _ =>
  }

  lemma RunKeepsCount(s: State, steps: seq<Step>)
    requires Counted(s) && PROTOCOL.IsRun(s, steps)
    ensures Counted(PROTOCOL.After(s, steps))
  {
    hide Counted;
    forall t, step | Counted(t) && Enabled(t, step) ensures Counted(PROTOCOL.next(t, step)) {
      match step {
        case Control(x) => ControlKeepsCount(t, x);
        case Audio(x) => AudioKeepsCount(t, x);
      }
    }
    RunKeeps(PROTOCOL, (t: State) => Counted(t), s, steps);
  }

  /** However the threads interleave: no event is lost or counted twice, reservations stay within
      capacity, the heap has room for every event that reaches it, and nothing is dropped. */
  lemma EventsAreConserved(s: State, steps: seq<Step>)
    requires Start(s) && PROTOCOL.IsRun(s, steps)
    ensures
      var end := PROTOCOL.After(s, steps);
      && end.accepted + ControlUncounted(end.control) + ControlReserved(end.control) ==
         end.executed + end.discarded + end.dropped + end.outstanding + AudioUncounted(end.audio)
      && |end.heap| + QueuedEvents(end.queue) <= end.outstanding <= end.capacity
      && (end.audio.Judging? ==> |end.heap| < end.capacity)
      && end.dropped == 0
  {
    RunKeepsCount(s, steps);
    hide System.IsRun, System.After;
  }

  // ---- Sessions ---------------------------------------------------------------------------------

  /** Epochs of scheduled items never go down along the queue, and none is beyond limit. */
  ghost predicate EpochsRise(queue: seq<Item>, limit: nat) {
    && (forall i :: 0 <= i < |queue| && queue[i].Scheduled? ==> queue[i].epoch <= limit)
    && (forall i, j :: 0 <= i < j < |queue| && queue[i].Scheduled? && queue[j].Scheduled? ==>
          queue[i].epoch <= queue[j].epoch)
  }

  /** How far the control thread's stamps have come. */
  function NextStamp(s: State): nat {
    if s.control.Stamped? then s.control.epoch else s.sessionEpoch
  }

  /** The item the audio thread holds is a scheduled one of a session that has begun. */
  predicate ItemFits(s: State, item: Item) {
    item.Scheduled? && item.epoch <= s.sessionEpoch
  }

  ghost predicate AudioForm(s: State) {
    match s.audio
    case Adopting(e, after) => s.audioEpoch < e <= s.sessionEpoch && AfterFits(s, e, after)
    case StaleTaken(e, after) => s.audioEpoch < e <= s.sessionEpoch && AfterFits(s, e, after)
    case StaleReleased(e, after) => s.audioEpoch < e <= s.sessionEpoch && AfterFits(s, e, after)
    case Admitting(item, _) => ItemFits(s, item) && s.callbackEpoch <= s.audioEpoch
    case Judging(item, _) => ItemFits(s, item) && item.epoch <= s.audioEpoch && s.callbackEpoch <= s.audioEpoch
    case Executing(event) => event.command == s.audioEpoch && s.callbackEpoch <= s.audioEpoch
    case Between => true
    case _ => s.callbackEpoch <= s.audioEpoch
  }

  ghost predicate AfterFits(s: State, epoch: nat, after: Afterwards) {
    match after
    case ThenDrain => s.callbackEpoch <= epoch
    case ThenAdmit(item, _) => ItemFits(s, item) && item.epoch == epoch && s.callbackEpoch <= s.audioEpoch
  }

  ghost predicate AllOfEpoch(heap: Pending, epoch: nat) {
    forall i :: 0 <= i < |heap| ==> heap[i].command == epoch
  }

  ghost predicate SessionForm(s: State) {
    && AllOfEpoch(s.heap, s.audioEpoch)
    && s.audioEpoch <= s.sessionEpoch && NextStamp(s) == s.sessionEpoch
    && EpochsRise(s.queue, s.sessionEpoch)
    && AudioForm(s)
  }

  lemma ControlKeepsSessions(s: State, step: ControlStep)
    requires SessionForm(s) && ControlEnabled(s, step)
    ensures SessionForm(ControlNext(s, step))
  {
    hide AllOfEpoch, AudioForm;
    ControlKeepsAudioForm(s, step);
  }

  lemma ControlKeepsAudioForm(s: State, step: ControlStep)
    requires AudioForm(s) && ControlEnabled(s, step)
    ensures AudioForm(ControlNext(s, step))
  {
    hide Released;
  }

  lemma AudioKeepsHeapEpochs(s: State, step: AudioStep)
    requires SessionForm(s) && AudioEnabled(s, step)
    ensures AllOfEpoch(AudioNext(s, step).heap, AudioNext(s, step).audioEpoch)
  {
    hide EpochsRise, Inserted;
    if step.PushHeap? {
      var event := ScheduledEvent(s.audio.item.target, s.nextSequence, s.audio.item.epoch);
      InsertedContents(s.heap, event);
      var next := AudioNext(s, step);
      forall i | 0 <= i < |next.heap| ensures next.heap[i].command == next.audioEpoch {
        assert next.heap[i] in next.heap;
      }
    }
  }

  lemma AudioKeepsSessions(s: State, step: AudioStep)
    requires SessionForm(s) && AudioEnabled(s, step)
    ensures SessionForm(AudioNext(s, step))
  {
    AudioKeepsHeapEpochs(s, step);
    AudioKeepsForm(s, step);
    hide AllOfEpoch, AudioForm, Inserted, Released;
  }

  lemma AudioKeepsForm(s: State, step: AudioStep)
    requires SessionForm(s) && AudioEnabled(s, step)
    ensures AudioForm(AudioNext(s, step))
  {
    hide Inserted, Released;
  }

  lemma RunKeepsSessions(s: State, steps: seq<Step>)
    requires SessionForm(s) && PROTOCOL.IsRun(s, steps)
    ensures SessionForm(PROTOCOL.After(s, steps))
  {
    hide SessionForm;
    forall t, step | SessionForm(t) && Enabled(t, step) ensures SessionForm(PROTOCOL.next(t, step)) {
      match step {
        case Control(x) => ControlKeepsSessions(t, x);
        case Audio(x) => AudioKeepsSessions(t, x);
      }
    }
    RunKeeps(PROTOCOL, (t: State) => SessionForm(t), s, steps);
  }

  /** Every event in the heap was scheduled in the session the audio thread is in. */
  lemma HeapIsOfOneSession(s: State, steps: seq<Step>)
    requires Start(s) && PROTOCOL.IsRun(s, steps)
    ensures
      var end := PROTOCOL.After(s, steps);
      && AllOfEpoch(end.heap, end.audioEpoch)
      && end.audioEpoch <= end.sessionEpoch && EpochsRise(end.queue, end.sessionEpoch)
  {
    RunKeepsSessions(s, steps);
  }

  /** A callback only executes events of the session it began in or a later one: once Shutdown has
      moved the epoch, no callback that begins afterwards executes an event scheduled before. */
  lemma NoEventOutlivesItsSession(s: State, steps: seq<Step>)
    requires Start(s) && PROTOCOL.IsRun(s, steps) && PROTOCOL.After(s, steps).audio.Executing?
    ensures
      var end := PROTOCOL.After(s, steps);
      end.callbackEpoch <= end.audio.event.command <= end.sessionEpoch
  {
    RunKeepsSessions(s, steps);
  }

  /** Everything on its way carries the current epoch. */
  ghost predicate OneEpoch(s: State) {
    && s.audioEpoch == s.sessionEpoch && s.discarded == 0
    && (forall i :: 0 <= i < |s.queue| && s.queue[i].Scheduled? ==> s.queue[i].epoch == s.sessionEpoch)
    && (s.audio.Admitting? || s.audio.Judging? ==> s.audio.item.Scheduled? && s.audio.item.epoch == s.sessionEpoch)
    && !s.audio.RejectReleased?
  }

  lemma ControlKeepsOneEpoch(s: State, step: ControlStep)
    requires SessionForm(s) && OneEpoch(s) && ControlEnabled(s, step) && step != Shutdown
    ensures OneEpoch(ControlNext(s, step))
  {
    hide EpochsRise, AllOfEpoch;
  }

  lemma AudioKeepsOneEpoch(s: State, step: AudioStep)
    requires SessionForm(s) && OneEpoch(s) && AudioEnabled(s, step)
    ensures OneEpoch(AudioNext(s, step))
  {
    hide EpochsRise, AllOfEpoch, Inserted;
  }

  lemma RunKeepsOneEpoch(s: State, steps: seq<Step>)
    requires SessionForm(s) && OneEpoch(s) && PROTOCOL.IsRun(s, steps) && Control(Shutdown) !in steps
    ensures OneEpoch(PROTOCOL.After(s, steps))
  {
    hide SessionForm, OneEpoch;
    forall t, step | SessionForm(t) && OneEpoch(t) && Enabled(t, step) && step != Control(Shutdown)
      ensures SessionForm(PROTOCOL.next(t, step)) && OneEpoch(PROTOCOL.next(t, step))
    {
      match step {
        case Control(x) =>
          ControlKeepsSessions(t, x);
          ControlKeepsOneEpoch(t, x);
        case Audio(x) =>
          AudioKeepsSessions(t, x);
          AudioKeepsOneEpoch(t, x);
      }
    }
    RunKeeps(PROTOCOL, (t: State) => SessionForm(t) && OneEpoch(t), s, steps);
  }

  /** Stop and Start lose nothing: without Shutdown no event is discarded, so every accepted event
      has been executed or still waits. */
  lemma StopAndStartLoseNothing(s: State, steps: seq<Step>)
    requires Start(s) && PROTOCOL.IsRun(s, steps) && Control(Shutdown) !in steps
    ensures
      var end := PROTOCOL.After(s, steps);
      && end.discarded == 0
      && end.accepted + ControlUncounted(end.control) ==
         end.executed + QueuedEvents(end.queue) + |end.heap| + AudioReserved(end.audio) + AudioUncounted(end.audio)
  {
    hide System.IsRun, System.After;
    RunKeepsOneEpoch(s, steps);
    RunKeepsCount(s, steps);
  }

  // ---- The steps get somewhere --------------------------------------------------------------------

  lemma ControlTaken(s: State, step: ControlStep) returns (next: State)
    requires ControlEnabled(s, step)
    ensures next == ControlNext(s, step) && PROTOCOL.Takes(s, Control(step), next)
  {
    hide ControlEnabled, ControlNext;
    next := ControlNext(s, step);
  }

  lemma AudioTaken(s: State, step: AudioStep) returns (next: State)
    requires AudioEnabled(s, step)
    ensures next == AudioNext(s, step) && PROTOCOL.Takes(s, Audio(step), next)
  {
    hide AudioEnabled, AudioNext;
    next := AudioNext(s, step);
  }

  lemma AnEventIsScheduled(s: State, target: nat) returns (steps: seq<Step>, next: State)
    requires s.control == Idle && s.outstanding == 0 < s.capacity && s.queue == [] && s.queueCapacity > 0
    ensures PROTOCOL.IsRun(s, steps) && PROTOCOL.After(s, steps) == next
    ensures next == s.(outstanding := 1, queue := [Scheduled(target, s.sessionEpoch)], control := Pushed)
  {
    hide System.Takes;
    steps := [Control(Reserve), Control(CompareExchange(target)), Control(LoadEpoch), Control(PushItem)];
    var s1 := ControlTaken(s, Reserve);
    var s2 := ControlTaken(s1, CompareExchange(target));
    var s3 := ControlTaken(s2, LoadEpoch);
    next := ControlTaken(s3, PushItem);
    TraceIsRun(PROTOCOL, [s, s1, s2, s3, next], steps);
  }

  lemma AnEventIsDrained(s: State, item: Item) returns (steps: seq<Step>, next: State)
    requires s.audio == Between && s.active && s.heap == [] && s.queue == [item] && item.Scheduled?
    requires s.capacity > 0 && s.queueCapacity > 0 && item.epoch == s.audioEpoch == s.sessionEpoch
    ensures PROTOCOL.IsRun(s, steps) && PROTOCOL.After(s, steps) == next
    ensures next == s.(queue := [], heap := [ScheduledEvent(item.target, s.nextSequence, item.epoch)],
                       nextSequence := s.nextSequence + 1, callbackEpoch := s.sessionEpoch, audio := Rendering)
  {
    hide System.Takes;
    steps := [Audio(BeginCallback), Audio(PopItem), Audio(CompareEpoch), Audio(PushHeap), Audio(StopDraining)];
    var s1 := AudioTaken(s, BeginCallback);
    var s2 := AudioTaken(s1, PopItem);
    var s3 := AudioTaken(s2, CompareEpoch);
    var s4 := AudioTaken(s3, PushHeap);
    next := AudioTaken(s4, StopDraining);
    TraceIsRun(PROTOCOL, [s, s1, s2, s3, s4, next], steps);
  }

  lemma AnEventIsExecuted(s: State, frame: nat) returns (steps: seq<Step>, next: State)
    requires s.audio == Rendering && |s.heap| == 1 && s.heap[0].target <= frame && s.outstanding > 0
    ensures PROTOCOL.IsRun(s, steps) && PROTOCOL.After(s, steps) == next
    ensures next == s.(heap := [], outstanding := s.outstanding - 1, executed := s.executed + 1, audio := Between)
  {
    hide System.Takes;
    steps := [Audio(PopDue(frame)), Audio(ReleaseExecuted), Audio(CountExecuted), Audio(EndCallback)];
    var s1 := AudioTaken(s, PopDue(frame));
    var s2 := AudioTaken(s1, ReleaseExecuted);
    var s3 := AudioTaken(s2, CountExecuted);
    next := AudioTaken(s3, EndCallback);
    TraceIsRun(PROTOCOL, [s, s1, s2, s3, next], steps);
  }

  lemma AnEventIsCounted(s: State) returns (next: State)
    requires s.control == Pushed
    ensures PROTOCOL.IsRun(s, [Control(CountAccepted)]) && PROTOCOL.After(s, [Control(CountAccepted)]) == next
    ensures next == s.(accepted := s.accepted + 1, control := Idle)
  {
    hide System.Takes;
    next := ControlTaken(s, CountAccepted);
    TraceIsRun(PROTOCOL, [s, next], [Control(CountAccepted)]);
  }

  /** From any start, an event can be scheduled, drained into the heap and executed when due, all
      before the control thread has counted it. */
  lemma AnEventRunsItsCourse(s: State, target: nat, frame: nat) returns (steps: seq<Step>)
    requires Start(s) && s.active && s.capacity > 0 && s.queueCapacity > 0 && target <= frame
    ensures PROTOCOL.IsRun(s, steps)
    ensures PROTOCOL.After(s, steps) == s.(accepted := 1, executed := 1, nextSequence := s.nextSequence + 1)
  {
    hide System.IsRun, System.After;
    var first, s1 := AnEventIsScheduled(s, target);
    var second, s2 := AnEventIsDrained(s1, Scheduled(target, s.sessionEpoch));
    var third, s3 := AnEventIsExecuted(s2, frame);
    var _ := AnEventIsCounted(s3);
    var last := [Control(CountAccepted)];
    RunThenRun(PROTOCOL, s2, third, last);
    RunThenRun(PROTOCOL, s1, second, third + last);
    RunThenRun(PROTOCOL, s, first, second + (third + last));
    steps := first + (second + (third + last));
  }
}
