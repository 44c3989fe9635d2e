/** Frame-exact rendering (src/lavanda/runtime/audio_runtime.cc:502-593): a callback is rendered in
    segments split at event frames, and the theorem that callback boundaries do not matter. */
module Timeline {
  import opened Prelude
  import opened Signals
  import opened Scheduling

  /** What the timeline drives: the states it can be in, applying a command at a frame, and
      rendering some frames from a frame on. */
  datatype Machine<!E(!new), !C(!new)> = Machine(
    valid: E -> bool, apply: (E, C, nat) -> E, render: (E, nat, nat) -> (E, Block))
  {
    /** Commands and rendering keep the state valid, rendering yields one output frame per frame,
        and within the block limit rendering in two goes is rendering in one. */
    ghost predicate Splittable(limit: nat) {
      && (forall e: E, c: C, frame: nat {:trigger apply(e, c, frame)} :: valid(e) ==> valid(apply(e, c, frame)))
      && (forall e: E, start: nat, n: nat {:trigger render(e, start, n)} :: valid(e) ==>
            valid(render(e, start, n).0) && |render(e, start, n).1| == n)
      && (forall e: E, start: nat, n: nat, k: nat {:trigger RenderTwice(e, start, n, k)} ::
            valid(e) && 0 < n && 0 < k && n + k <= limit ==> render(e, start, n + k) == RenderTwice(e, start, n, k))
    }

    ghost function RenderTwice(e: E, start: nat, n: nat, k: nat): (E, Block) {
      var (middle, first) := render(e, start, n);
      var (end, second) := render(middle, start + n, k);
      (end, first + second)
    }
  }

  type Queue<C> = seq<ScheduledEvent<C>>

  /** DispatchDue on values: every event due by frame is applied at frame, in order. */
  function ApplyDue<E(!new), C(!new)>(m: Machine<E, C>, e: E, queue: Queue<C>, frame: nat): (r: (E, Queue<C>))
    ensures NoneDue(r.1, frame)
    decreases |queue|
  {
    if queue != [] && queue[0].target <= frame
    then ApplyDue(m, m.apply(e, queue[0].command, frame), queue[1..], frame)
    else (e, queue)
  }

  /** The reference: at each frame, apply that frame's events, then render one frame. */
  ghost function Reference<E(!new), C(!new)>(m: Machine<E, C>, e: E, queue: Queue<C>, frame: nat, n: nat)
    : (E, Queue<C>, Block)
    decreases n
  {
    if n == 0 then (e, queue, [])
    else
      var (applied, rest) := ApplyDue(m, e, queue, frame);
      var (next, block) := m.render(applied, frame, 1);
      var (end, left, blocks) := Reference(m, next, rest, frame + 1, n - 1);
      (end, left, block + blocks)
  }

  lemma AppliedIsValid<E(!new), C(!new)>(m: Machine<E, C>, limit: nat, e: E, c: C, frame: nat)
    requires m.Splittable(limit) && m.valid(e)
    ensures m.valid(m.apply(e, c, frame))
  {
  }

  lemma {:induction false} ApplyDueKeepsValid<E(!new), C(!new)>(
    m: Machine<E, C>, limit: nat, e: E, queue: Queue<C>, frame: nat)
    requires m.Splittable(limit) && m.valid(e)
    ensures m.valid(ApplyDue(m, e, queue, frame).0)
    decreases |queue|
  {
    if queue != [] && queue[0].target <= frame {
      ApplyDueKeepsValid(m, limit, m.apply(e, queue[0].command, frame), queue[1..], frame);
    }
  }

  lemma {:induction false} ReferenceKeepsValid<E(!new), C(!new)>(
    m: Machine<E, C>, limit: nat, e: E, queue: Queue<C>, frame: nat, n: nat)
    requires m.Splittable(limit) && m.valid(e)
    ensures m.valid(Reference(m, e, queue, frame, n).0)
    decreases n
  {
    if n > 0 {
      ApplyDueKeepsValid(m, limit, e, queue, frame);
      var (applied, rest) := ApplyDue(m, e, queue, frame);
      assert m.valid(m.render(applied, frame, 1).0);
      ReferenceKeepsValid(m, limit, m.render(applied, frame, 1).0, rest, frame + 1, n - 1);
    }
  }

  lemma {:induction false} ReferenceComposes<E(!new), C(!new)>(
    m: Machine<E, C>, e: E, queue: Queue<C>, frame: nat, n: nat, k: nat)
    ensures
      var (e1, q1, b1) := Reference(m, e, queue, frame, n);
      var (e2, q2, b2) := Reference(m, e1, q1, frame + n, k);
      Reference(m, e, queue, frame, n + k) == (e2, q2, b1 + b2)
    decreases n
  {
    if n == 0 {
      var (e2, q2, b2) := Reference(m, e, queue, frame, k);
      assert [] + b2 == b2;
    } else {
      var (applied, rest) := ApplyDue(m, e, queue, frame);
      var (next, block) := m.render(applied, frame, 1);
      ReferenceComposes(m, next, rest, frame + 1, n - 1, k);
      var (e1, q1, b1) := Reference(m, next, rest, frame + 1, n - 1);
      var (e2, q2, b2) := Reference(m, e1, q1, frame + n, k);
      assert block + (b1 + b2) == (block + b1) + b2;
    }
  }

  /** Applying what is due twice at one frame is applying it once. */
  lemma ApplyDueSettles<E(!new), C(!new)>(m: Machine<E, C>, e: E, queue: Queue<C>, frame: nat)
    ensures
      var (applied, rest) := ApplyDue(m, e, queue, frame);
      ApplyDue(m, applied, rest, frame) == (applied, rest)
  {
  }

  lemma ReferenceAfterDispatch<E(!new), C(!new)>(m: Machine<E, C>, e: E, queue: Queue<C>, frame: nat, n: nat)
    requires n > 0
    ensures
      var (applied, rest) := ApplyDue(m, e, queue, frame);
      Reference(m, applied, rest, frame, n) == Reference(m, e, queue, frame, n)
  {
    ApplyDueSettles(m, e, queue, frame);
  }

  /** Between events the reference just renders: one segment equals its frames one by one. */
  lemma {:induction false} QuietSegment<E(!new), C(!new)>(
    m: Machine<E, C>, limit: nat, e: E, queue: Queue<C>, frame: nat, n: nat)
    requires m.Splittable(limit) && m.valid(e) && 0 < n <= limit
    requires queue == [] || queue[0].target >= frame + n
    ensures
      var (end, block) := m.render(e, frame, n);
      Reference(m, e, queue, frame, n) == (end, queue, block)
    decreases n
  {
    var (next, block) := m.render(e, frame, 1);
    if n > 1 {
      assert m.render(e, frame, 1 + (n - 1)) == m.RenderTwice(e, frame, 1, n - 1);
      assert m.valid(m.render(e, frame, 1).0);
      QuietSegment(m, limit, next, queue, frame + 1, n - 1);
    } else {
      assert Reference(m, next, queue, frame + 1, 0) == (next, queue, []);
      assert block + [] == block;
    }
  }

  // ---- The block renderer ---------------------------------------------------------------------

  /** What rendering one callback of an ordinary size does. */
  ghost function RenderedBlock<E(!new), C(!new)>(m: Machine<E, C>, e: E, queue: Queue<C>, start: nat, total: nat)
    : (E, Queue<C>, Block)
  {
    if total == 0 then
      var (applied, rest) := ApplyDue(m, e, queue, start);
      (applied, rest, [])
    else Reference(m, e, queue, start, total)
  }

  /** RenderBlock: a callback of an ordinary size follows the frame-by-frame reference; one beyond the
      limit is rendered whole after what is due at its start, so that events inside it run late. */
  ghost function RenderedCallback<E(!new), C(!new)>(
    m: Machine<E, C>, limit: nat, e: E, queue: Queue<C>, start: nat, n: nat): (E, Queue<C>, Block)
  {
    if n <= limit then RenderedBlock(m, e, queue, start, n)
    else
      var (applied, rest) := ApplyDue(m, e, queue, start);
      var (after, block) := m.render(applied, start, n);
      (after, rest, block)
  }

  /** Partway through a block: rendered frames are out, and everything due at the cursor has been
      applied, except at the very end. */
  ghost predicate AtCursor<E(!new), C(!new)>(
    m: Machine<E, C>, e0: E, q0: Queue<C>, start: nat, total: nat, rendered: nat, e: E, queue: Queue<C>, out: Block)
  {
    var (er, qr, b) := Reference(m, e0, q0, start, rendered);
    && out == b
    && (e, queue) == if rendered < total || total == 0 then ApplyDue(m, er, qr, start + rendered) else (er, qr)
  }

  lemma CursorIsValid<E(!new), C(!new)>(
    m: Machine<E, C>, limit: nat, e0: E, q0: Queue<C>, start: nat, total: nat, rendered: nat, e: E, queue: Queue<C>,
    out: Block)
    requires m.Splittable(limit) && m.valid(e0) && AtCursor(m, e0, q0, start, total, rendered, e, queue, out)
    ensures m.valid(e)
  {
    ReferenceKeepsValid(m, limit, e0, q0, start, rendered);
    var (er, qr, _) := Reference(m, e0, q0, start, rendered);
    ApplyDueKeepsValid(m, limit, er, qr, start + rendered);
  }

  /** One turn of the segment loop. */
  lemma SegmentStep<E(!new), C(!new)>(
    m: Machine<E, C>, e0: E, q0: Queue<C>, start: nat, total: nat, rendered: nat, e: E, queue: Queue<C>, out: Block,
    segment: nat, limit: nat)
    requires m.Splittable(limit) && m.valid(e0) && total <= limit
    requires AtCursor(m, e0, q0, start, total, rendered, e, queue, out)
    requires 0 < segment && rendered + segment <= total
    requires queue == [] || queue[0].target >= start + rendered + segment
    ensures
      var (next, block) := m.render(e, start + rendered, segment);
      var (settled, left) :=
        if rendered + segment < total then ApplyDue(m, next, queue, start + rendered + segment) else (next, queue);
      AtCursor(m, e0, q0, start, total, rendered + segment, settled, left, out + block)
  {
    CursorIsValid(m, limit, e0, q0, start, total, rendered, e, queue, out);
    var (er, qr, b) := Reference(m, e0, q0, start, rendered);
    ReferenceComposes(m, e0, q0, start, rendered, segment);
    ReferenceAfterDispatch(m, er, qr, start + rendered, segment);
    QuietSegment(m, limit, e, queue, start + rendered, segment);
  }

  /** RenderBlock's loop on values: segments end at the next event's frame or with the callback. */
  ghost function Segments<E(!new), C(!new)>(
    m: Machine<E, C>, e: E, queue: Queue<C>, start: nat, rendered: nat, total: nat): (E, Queue<C>, Block)
    requires rendered <= total && (rendered < total ==> NoneDue(queue, start + rendered))
    decreases total - rendered
  {
    if rendered == total then (e, queue, [])
    else
      var segment := SegmentLength(queue, start + rendered, total - rendered);
      var reached := rendered + segment;
      var (next, block) := m.render(e, start + rendered, segment);
      var (settled, left) := if reached < total then ApplyDue(m, next, queue, start + reached) else (next, queue);
      var (end, pending, rest) := Segments(m, settled, left, start, reached, total);
      (end, pending, block + rest)
  }

  function SegmentLength<C>(queue: Queue<C>, cursor: nat, remaining: nat): (n: nat)
    requires remaining > 0 && NoneDue(queue, cursor)
    ensures 0 < n <= remaining && (queue == [] || queue[0].target >= cursor + n)
  {
    if queue != [] && queue[0].target - cursor < remaining then queue[0].target - cursor else remaining
  }

  ghost function SegmentedBlock<E(!new), C(!new)>(m: Machine<E, C>, e: E, queue: Queue<C>, start: nat, total: nat)
    : (E, Queue<C>, Block)
  {
    var (applied, rest) := ApplyDue(m, e, queue, start);
    Segments(m, applied, rest, start, 0, total)
  }

  lemma {:induction false} SegmentsFollowReference<E(!new), C(!new)>(
    m: Machine<E, C>, limit: nat, e0: E, q0: Queue<C>, start: nat, total: nat, rendered: nat,
    e: E, queue: Queue<C>, out: Block)
    requires m.Splittable(limit) && m.valid(e0) && rendered <= total <= limit
    requires AtCursor(m, e0, q0, start, total, rendered, e, queue, out)
    requires rendered < total ==> NoneDue(queue, start + rendered)
    ensures
      var (end, pending, rest) := Segments(m, e, queue, start, rendered, total);
      (end, pending, out + rest) == RenderedBlock(m, e0, q0, start, total)
    decreases total - rendered
  {
    hide ApplyDue, Reference;
    if rendered == total {
      assert out + [] == out;
      AtTheEnd(m, e0, q0, start, total, e, queue, out);
    } else {
      var segment := SegmentLength(queue, start + rendered, total - rendered);
      var reached := rendered + segment;
      var (next, block) := m.render(e, start + rendered, segment);
      var (settled, left) := if reached < total then ApplyDue(m, next, queue, start + reached) else (next, queue);
      SegmentStep(m, e0, q0, start, total, rendered, e, queue, out, segment, limit);
      SegmentsFollowReference(m, limit, e0, q0, start, total, reached, settled, left, out + block);
      var rest := Segments(m, settled, left, start, reached, total).2;
      assert out + (block + rest) == (out + block) + rest;
    }
  }

  lemma CursorStarts<E(!new), C(!new)>(m: Machine<E, C>, e0: E, q0: Queue<C>, start: nat, total: nat)
    ensures
      var (applied, rest) := ApplyDue(m, e0, q0, start);
      AtCursor(m, e0, q0, start, total, 0, applied, rest, [])
  {
  }

  lemma AtTheEnd<E(!new), C(!new)>(
    m: Machine<E, C>, e0: E, q0: Queue<C>, start: nat, total: nat, e: E, queue: Queue<C>, out: Block)
    requires AtCursor(m, e0, q0, start, total, total, e, queue, out)
    ensures (e, queue, out) == RenderedBlock(m, e0, q0, start, total)
  {
  }

  /** A callback of an ordinary size, cut at its events, does what the frame-by-frame reference
      does. */
  lemma SegmentedBlockIsReference<E(!new), C(!new)>(
    m: Machine<E, C>, limit: nat, e: E, queue: Queue<C>, start: nat, total: nat)
    requires m.Splittable(limit) && m.valid(e) && total <= limit
    ensures SegmentedBlock(m, e, queue, start, total) == RenderedBlock(m, e, queue, start, total)
  {
    var (applied, rest) := ApplyDue(m, e, queue, start);
    SegmentsFollowReference(m, limit, e, queue, start, total, 0, applied, rest, []);
    var block := Segments(m, applied, rest, start, 0, total).2;
    assert [] + block == block;
  }

  class Runtime<E(!new), C(!new)> {
    const machine: Machine<E, C>
    const maxFramesPerBlock: nat
    const scheduler: EventScheduler<C>
    var engine: E
    var executed: nat

    ghost predicate Valid()
      reads this, scheduler, scheduler.heap
    {
      machine.Splittable(maxFramesPerBlock) && machine.valid(engine) && scheduler.Valid()
    }

    constructor (machine: Machine<E, C>, engine: E, maxFramesPerBlock: nat, scheduler: EventScheduler<C>)
      requires machine.Splittable(maxFramesPerBlock) && machine.valid(engine) && scheduler.Valid()
      ensures Valid() && this.machine == machine && this.engine == engine
      ensures this.maxFramesPerBlock == maxFramesPerBlock && this.scheduler == scheduler
    {
      this.machine, this.engine := machine, engine;
      this.maxFramesPerBlock, this.scheduler := maxFramesPerBlock, scheduler;
      executed := 0;
    }

    /** Applies what is due, in order, and leaves every pending target beyond frame. */
    method DispatchDue(frame: nat)
      requires Valid()
      modifies this`engine, this`executed, scheduler`size, scheduler`queue, scheduler.heap
      ensures Valid()
      ensures (engine, scheduler.queue) == ApplyDue(machine, old(engine), old(scheduler.queue), frame)
      ensures executed == old(executed) + |old(scheduler.queue)| - |scheduler.queue|
      ensures NoneDue(scheduler.queue, frame)
    {
      hide Machine.Splittable, InOrder, AllBelow, IsHeap;
      var event := scheduler.PopDue(frame);
      while event.Some?
        invariant Valid()
        invariant event.Some? ==>
                    ApplyDue(machine, old(engine), old(scheduler.queue), frame) ==
                    ApplyDue(machine, engine, [event.value] + scheduler.queue, frame) && event.value.target <= frame
        invariant event.None? ==>
                    ApplyDue(machine, old(engine), old(scheduler.queue), frame) == (engine, scheduler.queue)
        invariant executed == old(executed) + |old(scheduler.queue)| - |scheduler.queue| - if event.Some? then 1 else 0
        decreases event.Some?, |scheduler.queue|
      {
        AppliedIsValid(machine, maxFramesPerBlock, engine, event.value.command, frame);
        engine := machine.apply(engine, event.value.command, frame);
        executed := executed + 1;
        event := scheduler.PopDue(frame);
      }
    }

    /** Renders into the view, overwriting it. */
    method RenderSegment(output: AudioBufferView, start: nat)
      requires Valid() && output.offset + output.frameCount <= output.data.Length
      modifies this`engine, output.data
      ensures machine.valid(engine)
      ensures (engine, output.Content()) == machine.render(old(engine), start, output.frameCount)
      ensures SameElsewhere(output, old(output.data[..]), output.data[..])
    {
      var result := machine.render(engine, start, output.frameCount);
      engine := result.0;
      var block := result.1;
      assert |block| == output.frameCount;
      for f := 0 to output.frameCount
        invariant engine == result.0 && machine.valid(engine)
        invariant forall g :: 0 <= g < f ==> output.data[output.offset + g] == block[g]
        invariant forall g :: 0 <= g < output.data.Length && !(output.offset <= g < output.offset + f) ==>
                    output.data[g] == old(output.data[g])
      {
        output.data[output.offset + f] := block[f];
      }
      assert output.Content() == block;
    }

    /** Renders a callback in segments cut at event frames. A callback of an ordinary size does what
        the frame-by-frame reference does; one beyond the limit is rendered whole after dispatching
        what is due at its start. */
    method RenderBlock(output: AudioBufferView, start: nat)
      requires Valid() && output.offset + output.frameCount <= output.data.Length
      requires output.data as object != scheduler.heap as object
      modifies this`engine, this`executed, scheduler`size, scheduler`queue, scheduler.heap, output.data
      ensures Valid()
      ensures (engine, scheduler.queue, output.Content()) ==
              RenderedCallback(machine, maxFramesPerBlock, old(engine), old(scheduler.queue), start, output.frameCount)
      ensures output.frameCount > maxFramesPerBlock ==>
                var (applied, rest) := ApplyDue(machine, old(engine), old(scheduler.queue), start);
                && (engine, output.Content()) == machine.render(applied, start, output.frameCount)
                && scheduler.queue == rest
      ensures SameElsewhere(output, old(output.data[..]), output.data[..])
      ensures executed == old(executed) + |old(scheduler.queue)| - |scheduler.queue|
    {
      hide InOrder, AllBelow, IsHeap, ApplyDue, AtCursor, RenderedBlock, Machine.Splittable, SameElsewhere;
      DispatchDue(start);
      if output.frameCount > maxFramesPerBlock {
        RenderSegment(output, start);
      } else {
        CursorStarts(machine, old(engine), old(scheduler.queue), start, output.frameCount);
        RenderSegments(output, start, old(engine), old(scheduler.queue));
      }
    }

    /** The segment loop, once what is due at the start has been dispatched. */
    method RenderSegments(output: AudioBufferView, start: nat, ghost e0: E, ghost q0: Queue<C>)
      requires Valid() && output.offset + output.frameCount <= output.data.Length
      requires output.data as object != scheduler.heap as object
      requires machine.valid(e0) && output.frameCount <= maxFramesPerBlock && NoneDue(scheduler.queue, start)
      requires AtCursor(machine, e0, q0, start, output.frameCount, 0, engine, scheduler.queue, [])
      modifies this`engine, this`executed, scheduler`size, scheduler`queue, scheduler.heap, output.data
      ensures Valid()
      ensures (engine, scheduler.queue, output.Content()) == RenderedBlock(machine, e0, q0, start, output.frameCount)
      ensures SameElsewhere(output, old(output.data[..]), output.data[..])
      ensures executed == old(executed) + |old(scheduler.queue)| - |scheduler.queue|
    {
      hide EventScheduler.Valid, ApplyDue, AtCursor, RenderedBlock, Machine.Splittable;
      var total := output.frameCount;
      var rendered: nat := 0;
      assert output.data[output.offset..output.offset + rendered] == [];
      while rendered < total
        invariant Valid() && rendered <= total
        invariant AtCursor(machine, e0, q0, start, total, rendered, engine, scheduler.queue,
                           output.data[output.offset..output.offset + rendered])
        invariant rendered < total ==> NoneDue(scheduler.queue, start + rendered)
        invariant SameElsewhere(output, old(output.data[..]), output.data[..])
        invariant executed == old(executed) + |old(scheduler.queue)| - |scheduler.queue|
      {
        rendered := RenderNext(output, start, rendered, e0, q0);
        if rendered < total {
          DispatchDue(start + rendered);
        }
      }
      AtTheEnd(machine, e0, q0, start, total, engine, scheduler.queue, output.Content());
    }

    /** One turn of the segment loop: up to the next event, or to the end of the callback. */
    method RenderNext(output: AudioBufferView, start: nat, rendered: nat, ghost e0: E, ghost q0: Queue<C>)
      returns (reached: nat)
      requires Valid() && output.offset + output.frameCount <= output.data.Length
      requires output.data as object != scheduler.heap as object
      requires machine.valid(e0)
      requires rendered < output.frameCount <= maxFramesPerBlock && NoneDue(scheduler.queue, start + rendered)
      requires AtCursor(machine, e0, q0, start, output.frameCount, rendered, engine, scheduler.queue,
                        output.data[output.offset..output.offset + rendered])
      modifies this`engine, output.data
      ensures Valid() && rendered < reached <= output.frameCount
      ensures
        var (settled, left) :=
          if reached < output.frameCount
          then ApplyDue(machine, engine, scheduler.queue, start + reached) else (engine, scheduler.queue);
        AtCursor(machine, e0, q0, start, output.frameCount, reached, settled, left,
                 output.data[output.offset..output.offset + reached])
      ensures SameElsewhere(output, old(output.data[..]), output.data[..])
    {
      hide InOrder, AllBelow, IsHeap, AtCursor, ApplyDue;
      var cursor := start + rendered;
      var segment: nat := output.frameCount - rendered;
      var next := scheduler.PeekNextTarget();
      if next.Some? {
        var untilEvent: nat := next.value - cursor;
        if untilEvent < segment {
          segment := untilEvent;
        }
      }
      ghost var out := output.data[output.offset..output.offset + rendered];
      SegmentStep(machine, e0, q0, start, output.frameCount, rendered, engine, scheduler.queue, out, segment,
                  maxFramesPerBlock);
      RenderBehind(output, rendered, segment, cursor);
      reached := rendered + segment;
    }

    /** Renders a segment behind the frames already in the output. */
    method RenderBehind(output: AudioBufferView, rendered: nat, segment: nat, cursor: nat)
      requires Valid() && output.offset + output.frameCount <= output.data.Length
      requires 0 < segment && rendered + segment <= output.frameCount
      requires output.data as object != scheduler.heap as object
      modifies this`engine, output.data
      ensures machine.valid(engine)
      ensures
        var (next, block) := machine.render(old(engine), cursor, segment);
        && engine == next
        && output.data[output.offset..output.offset + rendered + segment] ==
           old(output.data[output.offset..output.offset + rendered]) + block
      ensures SameElsewhere(output, old(output.data[..]), output.data[..])
    {
      hide InOrder, AllBelow, IsHeap, Machine.Splittable, SameElsewhere;
      ghost var before := output.data[..];
      var view := output.SubView(rendered, segment);
      RenderSegment(view, cursor);
      BehindTheOthers(output, rendered, view, before, output.data[..]);
      assert view.Content() == output.data[..][view.offset..view.offset + segment];
      assert output.data[..][output.offset..output.offset + rendered + segment] ==
             output.data[output.offset..output.offset + rendered + segment];
    }
  }

  /** What is written to a later part of a view goes behind the frames already there. */
  lemma BehindTheOthers(output: AudioBufferView, rendered: nat, view: AudioBufferView, before: Block, after: Block)
    requires output.offset + output.frameCount <= |before| && SameElsewhere(view, before, after)
    requires rendered + view.frameCount <= output.frameCount && view.offset == output.offset + rendered
    ensures |after| == |before| && SameElsewhere(output, before, after)
    ensures
      var o := output.offset;
      after[o..o + rendered + view.frameCount] ==
      before[o..o + rendered] + after[view.offset..view.offset + view.frameCount]
  {
    var o := output.offset;
    assert after[o..o + rendered] == before[o..o + rendered];
  }

  ghost predicate NoneDue<C>(queue: Queue<C>, frame: nat) {
    queue == [] || queue[0].target > frame
  }

  // ---- Callback boundaries do not matter --------------------------------------------------------

  ghost function Total(sizes: seq<nat>): nat {
    if sizes == [] then 0 else sizes[0] + Total(sizes[1..])
  }

  /** A run of callbacks: their samples one after the other. */
  ghost function Callbacks<E(!new), C(!new)>(m: Machine<E, C>, e: E, queue: Queue<C>, start: nat, sizes: seq<nat>)
    : (E, Queue<C>, Block)
    decreases |sizes|
  {
    if sizes == [] then (e, queue, [])
    else
      var (next, rest, first) := SegmentedBlock(m, e, queue, start, sizes[0]);
      var (end, left, others) := Callbacks(m, next, rest, start + sizes[0], sizes[1..]);
      (end, left, first + others)
  }

  /** The state once everything due at a frame has been applied. */
  ghost function Settled<E(!new), C(!new)>(m: Machine<E, C>, r: (E, Queue<C>, Block), frame: nat): (E, Queue<C>) {
    ApplyDue(m, r.0, r.1, frame)
  }

  /** A run of callbacks gives the samples of the frame-by-frame reference, and its state, up to
      the events due exactly at the end, which an empty last callback has applied already. */
  lemma {:induction false} CallbacksFollowReference<E(!new), C(!new)>(
    m: Machine<E, C>, limit: nat, e: E, queue: Queue<C>, start: nat, sizes: seq<nat>)
    requires m.Splittable(limit) && m.valid(e) && forall i :: 0 <= i < |sizes| ==> sizes[i] <= limit
    ensures m.valid(Callbacks(m, e, queue, start, sizes).0)
    ensures
      var run := Callbacks(m, e, queue, start, sizes);
      var reference := Reference(m, e, queue, start, Total(sizes));
      && run.2 == reference.2
      && Settled(m, run, start + Total(sizes)) == Settled(m, reference, start + Total(sizes))
      && (sizes != [] && sizes[|sizes| - 1] > 0 ==> run == reference)
    decreases |sizes|
  {
    hide Machine.Splittable, SegmentedBlock, RenderedBlock, Reference, ApplyDue;
    if sizes == [] {
      NoFramesNoChange(m, e, queue, start);
    } else {
      var n := sizes[0];
      SegmentedBlockIsReference(m, limit, e, queue, start, n);
      BlockKeepsValid(m, limit, e, queue, start, n);
      var (next, rest, first) := RenderedBlock(m, e, queue, start, n);
      CallbacksFollowReference(m, limit, next, rest, start + n, sizes[1..]);
      BlockThenReference(m, e, queue, start, n, Total(sizes[1..]));
      if |sizes| == 1 {
        NoFramesNoChange(m, next, rest, start + n);
        assert first + [] == first;
      }
      if Total(sizes[1..]) == 0 {
        NothingRendered(sizes[1..]);
      }
    }
  }

  lemma BlockKeepsValid<E(!new), C(!new)>(m: Machine<E, C>, limit: nat, e: E, queue: Queue<C>, start: nat, n: nat)
    requires m.Splittable(limit) && m.valid(e)
    ensures m.valid(RenderedBlock(m, e, queue, start, n).0)
  {
    hide Machine.Splittable;
    ApplyDueKeepsValid(m, limit, e, queue, start);
    ReferenceKeepsValid(m, limit, e, queue, start, n);
  }

  lemma NoFramesNoChange<E(!new), C(!new)>(m: Machine<E, C>, e: E, queue: Queue<C>, start: nat)
    ensures Reference(m, e, queue, start, 0) == (e, queue, [])
  {
  }

  /** A callback and then the reference is the reference, up to what is due at the very end. */
  lemma BlockThenReference<E(!new), C(!new)>(m: Machine<E, C>, e: E, queue: Queue<C>, start: nat, n: nat, k: nat)
    ensures
      var (next, rest, first) := RenderedBlock(m, e, queue, start, n);
      var after, whole := Reference(m, next, rest, start + n, k), Reference(m, e, queue, start, n + k);
      && first + after.2 == whole.2
      && (n + k > 0 ==> (after.0, after.1) == (whole.0, whole.1))
      && Settled(m, after, start + n + k) == Settled(m, whole, start + n + k)
  {
    ReferenceComposes(m, e, queue, start, n, k);
    if n == 0 {
      ApplyDueSettles(m, e, queue, start);
      var after := Reference(m, RenderedBlock(m, e, queue, start, 0).0, RenderedBlock(m, e, queue, start, 0).1, start, k);
      assert [] + after.2 == after.2;
      if k > 0 {
        ReferenceAfterDispatch(m, e, queue, start, k);
      }
    }
  }

  lemma {:induction false} NothingRendered(sizes: seq<nat>)
    requires Total(sizes) == 0
    ensures sizes != [] ==> sizes[|sizes| - 1] == 0
  {
    if |sizes| > 1 {
      NothingRendered(sizes[1..]);
    }
  }

  /** Two ways to cut the same frames into callbacks give the same samples and the same state. */
  lemma CallbackSizesDoNotMatter<E(!new), C(!new)>(
    m: Machine<E, C>, limit: nat, e: E, queue: Queue<C>, start: nat, sizes: seq<nat>, others: seq<nat>)
    requires m.Splittable(limit) && m.valid(e) && Total(sizes) == Total(others)
    requires forall i :: 0 <= i < |sizes| ==> sizes[i] <= limit
    requires forall i :: 0 <= i < |others| ==> others[i] <= limit
    ensures
      var run := Callbacks(m, e, queue, start, sizes);
      var other := Callbacks(m, e, queue, start, others);
      && run.2 == other.2
      && Settled(m, run, start + Total(sizes)) == Settled(m, other, start + Total(sizes))
  {
    hide Callbacks, Reference, ApplyDue, Machine.Splittable;
    CallbacksFollowReference(m, limit, e, queue, start, sizes);
    CallbacksFollowReference(m, limit, e, queue, start, others);
  }

  // ---- When events act ---------------------------------------------------------------------

  /** The same machine with a record of every event applied and the frame it was applied at. */
  function Logged<E(!new), C(!new)>(m: Machine<E, C>): Machine<(E, seq<(C, nat)>), C> {
    Machine(
      (s: (E, seq<(C, nat)>)) => m.valid(s.0),
      (s: (E, seq<(C, nat)>), c: C, frame: nat) => (m.apply(s.0, c, frame), s.1 + [(c, frame)]),
      (s: (E, seq<(C, nat)>), start: nat, n: nat) =>
        var r := m.render(s.0, start, n); ((r.0, s.1), r.1))
  }

  lemma LoggedSplits<E(!new), C(!new)>(m: Machine<E, C>, limit: nat)
    requires m.Splittable(limit)
    ensures Logged(m).Splittable(limit)
  {
    var l := Logged(m);
    forall s: (E, seq<(C, nat)>), c: C, frame: nat | l.valid(s) ensures l.valid(l.apply(s, c, frame)) {
      assert m.valid(m.apply(s.0, c, frame));
    }
    forall s: (E, seq<(C, nat)>), start: nat, n: nat | l.valid(s)
      ensures l.valid(l.render(s, start, n).0) && |l.render(s, start, n).1| == n
    {
      assert |m.render(s.0, start, n).1| == n;
    }
    forall s: (E, seq<(C, nat)>), start: nat, n: nat, k: nat | l.valid(s) && 0 < n && 0 < k && n + k <= limit
      ensures l.render(s, start, n + k) == l.RenderTwice(s, start, n, k)
    {
      assert m.render(s.0, start, n + k) == m.RenderTwice(s.0, start, n, k);
    }
  }

  /** How many events at the front of the queue have a target below frame. */
  function DueBefore<C>(queue: Queue<C>, frame: nat): (n: nat)
    ensures n <= |queue|
  {
    if queue != [] && queue[0].target < frame then 1 + DueBefore(queue[1..], frame) else 0
  }

  /** In execution order, those are all the events with a target below frame. */
  lemma {:induction false} DueBeforeIsExact<C>(queue: Queue<C>, frame: nat, i: nat)
    requires InOrder(queue) && i < |queue|
    ensures queue[i].target < frame <==> i < DueBefore(queue, frame)
  {
    if i == 0 {
    } else {
      TailInOrder(queue);
      assert queue[1..][i - 1] == queue[i];
      if queue[0].target < frame {
        DueBeforeIsExact(queue[1..], frame, i - 1);
      }
    }
  }

  /** The events below frame, each at its own target, or at start if it was already late. */
  function Schedule<C>(queue: Queue<C>, start: nat, frame: nat): seq<(C, nat)> {
    seq(DueBefore(queue, frame), i requires 0 <= i < DueBefore(queue, frame) =>
      (queue[i].command, Max(queue[i].target, start)))
  }

  lemma {:induction false} ApplyDueIsLogged<E(!new), C(!new)>(
    m: Machine<E, C>, e: E, log: seq<(C, nat)>, queue: Queue<C>, frame: nat)
    ensures
      var ((_, after), rest) := ApplyDue(Logged(m), (e, log), queue, frame);
      && after == log + Schedule(queue, frame, frame + 1)
      && rest == queue[DueBefore(queue, frame + 1)..]
    decreases |queue|
  {
    if queue != [] && queue[0].target <= frame {
      var c := queue[0].command;
      ApplyDueIsLogged(m, m.apply(e, c, frame), log + [(c, frame)], queue[1..], frame);
      assert log + Schedule(queue, frame, frame + 1) == log + [(c, frame)] + Schedule(queue[1..], frame, frame + 1);
    } else {
      assert log == log + Schedule(queue, frame, frame + 1);
    }
  }

  lemma {:induction false} DueBeforeSplits<C>(queue: Queue<C>, frame: nat, later: nat)
    requires frame <= later
    ensures DueBefore(queue, frame) <= DueBefore(queue, later)
    ensures DueBefore(queue[DueBefore(queue, frame)..], later) == DueBefore(queue, later) - DueBefore(queue, frame)
    decreases |queue|
  {
    if queue != [] && queue[0].target < frame {
      DueBeforeSplits(queue[1..], frame, later);
      assert queue[DueBefore(queue, frame)..] == queue[1..][DueBefore(queue[1..], frame)..];
    } else {
      assert queue[0..] == queue;
    }
  }

  /** Every event acts exactly once, in execution order, at its target frame, or at the first
      rendered frame if it came too late; nothing acts early and what lies beyond the rendered
      frames stays queued. */
  lemma {:induction false} EventsActOnTheirFrames<E(!new), C(!new)>(
    m: Machine<E, C>, e: E, log: seq<(C, nat)>, queue: Queue<C>, start: nat, n: nat)
    requires InOrder(queue) && n > 0
    ensures
      var r := Reference(Logged(m), (e, log), queue, start, n);
      r.0.1 == log + Schedule(queue, start, start + n) && r.1 == queue[DueBefore(queue, start + n)..]
    decreases n
  {
    hide InOrder, Schedule, DueBefore, ApplyDue, Reference, Logged;
    var next, after, rest := LoggedFrame(m, e, log, queue, start, n);
    if n > 1 {
      SuffixInOrder(queue, DueBefore(queue, start + 1));
      EventsActOnTheirFrames(m, next, after, rest, start + 1, n - 1);
      assert start + 1 + (n - 1) == start + n;
      LogGrows(log, after, queue, rest, start, start + n);
    } else {
      NoFramesNoChange(Logged(m), (next, after), rest, start + 1);
    }
  }

  /** The first frame of a logged run: its events join the log. */
  lemma LoggedFrame<E(!new), C(!new)>(
    m: Machine<E, C>, e: E, log: seq<(C, nat)>, queue: Queue<C>, start: nat, n: nat)
    returns (next: E, after: seq<(C, nat)>, rest: Queue<C>)
    requires n > 0
    ensures after == log + Schedule(queue, start, start + 1) && rest == queue[DueBefore(queue, start + 1)..]
    ensures
      var whole := Reference(Logged(m), (e, log), queue, start, n);
      var later := Reference(Logged(m), (next, after), rest, start + 1, n - 1);
      whole.0 == later.0 && whole.1 == later.1
  {
    hide ApplyDue, Schedule, DueBefore;
    var (applied, left) := ApplyDue(Logged(m), (e, log), queue, start);
    ApplyDueIsLogged(m, e, log, queue, start);
    next, after, rest := m.render(applied.0, start, 1).0, applied.1, left;
  }

  /** The same over a run of callbacks cut at its events: each event acts once, on time. */
  lemma CallbacksActOnTime<E(!new), C(!new)>(
    m: Machine<E, C>, limit: nat, e: E, queue: Queue<C>, start: nat, sizes: seq<nat>)
    requires m.Splittable(limit) && m.valid(e) && InOrder(queue)
    requires sizes != [] && sizes[|sizes| - 1] > 0 && forall i :: 0 <= i < |sizes| ==> sizes[i] <= limit
    ensures
      var run := Callbacks(Logged(m), (e, []), queue, start, sizes);
      && run.0.1 == Schedule(queue, start, start + Total(sizes))
      && run.1 == queue[DueBefore(queue, start + Total(sizes))..]
  {
    hide Callbacks, Reference, Machine.Splittable, InOrder, Schedule, DueBefore;
    LoggedSplits(m, limit);
    CallbacksFollowReference(Logged(m), limit, (e, []), queue, start, sizes);
    SomethingRendered(sizes);
    EventsActOnTheirFrames(m, e, [], queue, start, Total(sizes));
    var schedule := Schedule(queue, start, start + Total(sizes));
    assert [] + schedule == schedule;
  }

  lemma {:induction false} SomethingRendered(sizes: seq<nat>)
    requires sizes != [] && sizes[|sizes| - 1] > 0
    ensures Total(sizes) > 0
  {
    if |sizes| > 1 {
      SomethingRendered(sizes[1..]);
    }
  }

  lemma ScheduleSplits<C>(queue: Queue<C>, start: nat, end: nat)
    requires InOrder(queue) && start < end
    ensures
      var rest := queue[DueBefore(queue, start + 1)..];
      && Schedule(queue, start, start + 1) + Schedule(rest, start + 1, end) == Schedule(queue, start, end)
      && rest[DueBefore(rest, end)..] == queue[DueBefore(queue, end)..]
  {
    var due := DueBefore(queue, start + 1);
    DueBeforeSplits(queue, start + 1, end);
    forall i | due <= i < |queue| ensures queue[i].target >= start + 1 {
      DueBeforeIsExact(queue, start + 1, i);
    }
  }

  /** A frame's events in the log, and then those of the frames behind it. */
  lemma LogGrows<C>(log: seq<(C, nat)>, after: seq<(C, nat)>, queue: Queue<C>, rest: Queue<C>, start: nat, end: nat)
    requires InOrder(queue) && start < end
    requires after == log + Schedule(queue, start, start + 1) && rest == queue[DueBefore(queue, start + 1)..]
    ensures after + Schedule(rest, start + 1, end) == log + Schedule(queue, start, end)
    ensures rest[DueBefore(rest, end)..] == queue[DueBefore(queue, end)..]
  {
    hide InOrder, Schedule, DueBefore;
    ScheduleSplits(queue, start, end);
    var a, b := Schedule(queue, start, start + 1), Schedule(rest, start + 1, end);
    assert (log + a) + b == log + (a + b);
  }

  lemma SuffixInOrder<C>(queue: Queue<C>, k: nat)
    requires InOrder(queue) && k <= |queue|
    ensures InOrder(queue[k..])
  {
  }
}
