/** RenderBlock over the engine itself (src/lavanda/runtime/audio_runtime.cc:547-626): commands leave
    the event heap and change voices, buses, tone and graph in place, and the segments between them
    are rendered in place into the output. The whole does what the frame-by-frame reference does. */
module EngineRuntimes {
  import opened Prelude
  import opened Signals
  import opened Scheduling
  import opened Timeline
  import opened Engine
  import SegmentRenderer

  class EngineRuntime {
    const segments: SegmentRenderer.Segments
    const scheduler: EventScheduler<EngineCommand>
    var executed: nat
    /** Everything rendering may change besides the output. */
    ghost const parts: set<object>
    /** What the program is to do. */
    ghost const machine: Machine<EngineState, EngineCommand>

    ghost predicate Valid()
      reads this, parts, scheduler, scheduler.heap
    {
      && parts == PartsOf(segments) && segments.Valid() && scheduler.Valid()
      && machine == EngineMachine(segments.rig)
      && {this, scheduler, scheduler.heap} !! parts
    }

    static ghost function PartsOf(segments: SegmentRenderer.Segments): set<object> {
      {segments, segments.mixer} + segments.mixer.Buffers()
      + (if segments.plan == null then {} else {segments.plan.states, segments.plan.buffers})
    }

    /** The output is a view of the engine's width, apart from what the engine works on. */
    ghost predicate CanRenderTo(output: AudioBufferView)
      reads this, output.data
    {
      && output.Valid() && output.channels == segments.rig.width
      && (output.data as object) !in parts && (output.data as object) != scheduler.heap
    }

    ghost function State(): EngineState
      requires Valid()
      reads this, parts, scheduler, scheduler.heap
    {
      segments.State()
    }

    static lemma RigFits(segments: SegmentRenderer.Segments)
      requires segments.Valid()
      ensures segments.rig.Fits()
    {
    }

    /** The facts about the segments that rendering builds on. */
    lemma SegmentsFit()
      requires Valid()
      ensures segments.rig.Fits() && segments.mixer.maxFrames == segments.rig.maxFrames
      ensures machine.valid(State()) && machine.Splittable(segments.rig.maxFrames)
    {
      hide Rig.Fits, Renderable;
      segments.StateIsRenderable();
      EngineSplits(segments.rig);
    }

    constructor (segments: SegmentRenderer.Segments, scheduler: EventScheduler<EngineCommand>)
      requires segments.Valid() && scheduler.Valid() && {scheduler, scheduler.heap} !! PartsOf(segments)
      ensures Valid() && this.segments == segments && this.scheduler == scheduler && executed == 0
    {
      hide SegmentRenderer.Segments.Valid, EventScheduler.Valid, Rig.Fits;
      RigFits(segments);
      this.segments, this.scheduler, executed := segments, scheduler, 0;
      parts, machine := PartsOf(segments), EngineMachine(segments.rig);
    }

    method Apply(c: EngineCommand, frame: nat)
      requires Valid()
      modifies parts
      ensures Valid() && State() == machine.apply(old(State()), c, frame)
    {
      hide SegmentRenderer.Segments.Valid, SegmentRenderer.Segments.State, Engine.ApplyCommand;
      hide EventScheduler.Valid;
      segments.ApplyCommand(c, frame);
    }

    method RenderPart(view: AudioBufferView, cursor: nat)
      requires Valid() && CanRenderTo(view)
      modifies parts, view.data
      ensures Valid() && CanRenderTo(view) && SameElsewhere(view, old(view.data[..]), view.data[..])
      ensures (State(), view.Content()) == machine.render(old(State()), cursor, view.frameCount)
    {
      hide SegmentRenderer.Segments.Valid, SegmentRenderer.Segments.State, RenderedSegment;
      hide EventScheduler.Valid;
      segments.RenderSegment(view, cursor);
    }

    /** Applies what is due, in order, and leaves every pending target beyond frame. */
    method DispatchDue(frame: nat)
      requires Valid()
      modifies this`executed, parts, scheduler`size, scheduler`queue, scheduler.heap
      ensures Valid()
      ensures (State(), scheduler.queue) == ApplyDue(machine, old(State()), old(scheduler.queue), frame)
      ensures NoneDue(scheduler.queue, frame)
      ensures executed == old(executed) + |old(scheduler.queue)| - |scheduler.queue|
    {
      hide SegmentRenderer.Segments.Valid, SegmentRenderer.Segments.State, InOrder, AllBelow, IsHeap;
      hide PartsOf, EngineMachine, EventScheduler.Valid;
      var event := scheduler.PopDue(frame);
      while event.Some?
        invariant Valid()
        invariant event.Some? ==>
                    ApplyDue(machine, old(State()), old(scheduler.queue), frame) ==
                    ApplyDue(machine, State(), [event.value] + scheduler.queue, frame) && event.value.target <= frame
        invariant event.None? ==>
                    ApplyDue(machine, old(State()), old(scheduler.queue), frame) == (State(), scheduler.queue)
        invariant executed == old(executed) + |old(scheduler.queue)| - |scheduler.queue| - if event.Some? then 1 else 0
        decreases event.Some?, |scheduler.queue|
      {
        Apply(event.value.command, frame);
        executed := executed + 1;
        event := scheduler.PopDue(frame);
      }
    }

    /** The whole callback. */
    method RenderBlock(output: AudioBufferView, start: nat)
      requires Valid() && CanRenderTo(output)
      modifies this`executed, parts, scheduler`size, scheduler`queue, scheduler.heap, output.data
      ensures Valid() && CanRenderTo(output)
      ensures (State(), scheduler.queue, output.Content()) ==
              RenderedCallback(machine, segments.rig.maxFrames, old(State()), old(scheduler.queue), start,
                               output.frameCount)
      ensures executed == old(executed) + |old(scheduler.queue)| - |scheduler.queue|
    {
      hide SegmentRenderer.Segments.Valid, SegmentRenderer.Segments.State, InOrder, AllBelow, IsHeap;
      hide PartsOf, EngineMachine, ApplyDue, AtCursor, RenderedBlock;
      SegmentsFit();
      DispatchDue(start);
      if output.frameCount > segments.mixer.maxFrames {
        RenderPart(output, start);
      } else {
        CursorStarts(machine, old(State()), old(scheduler.queue), start, output.frameCount);
        RenderSegments(output, start, old(State()), old(scheduler.queue));
      }
    }

    /** The segment loop, once what is due at the start has been dispatched. */
    method RenderSegments(output: AudioBufferView, start: nat, ghost e0: EngineState, ghost q0: Queue<EngineCommand>)
      requires Valid() && CanRenderTo(output)
      requires machine.valid(e0) && output.frameCount <= segments.rig.maxFrames && NoneDue(scheduler.queue, start)
      requires AtCursor(machine, e0, q0, start, output.frameCount, 0, State(), scheduler.queue, [])
      modifies this`executed, parts, scheduler`size, scheduler`queue, scheduler.heap, output.data
      ensures Valid() && CanRenderTo(output)
      ensures (State(), scheduler.queue, output.Content()) == RenderedBlock(machine, e0, q0, start, output.frameCount)
      ensures executed == old(executed) + |old(scheduler.queue)| - |scheduler.queue|
    {
      hide SegmentRenderer.Segments.Valid, SegmentRenderer.Segments.State, InOrder, AllBelow, IsHeap;
      hide PartsOf, EngineMachine, ApplyDue, AtCursor, RenderedBlock;
      var total := output.frameCount;
      var rendered: nat := 0;
      assert output.data[output.offset..output.offset + rendered] == [];
      while rendered < total
        invariant Valid() && CanRenderTo(output) && rendered <= total
        invariant AtCursor(machine, e0, q0, start, total, rendered, State(), scheduler.queue,
                           output.data[output.offset..output.offset + rendered])
        invariant rendered < total ==> NoneDue(scheduler.queue, start + rendered)
        invariant executed == old(executed) + |old(scheduler.queue)| - |scheduler.queue|
      {
        rendered := RenderNext(output, start, rendered, e0, q0);
        if rendered < total {
          DispatchDue(start + rendered);
        }
      }
      AtTheEnd(machine, e0, q0, start, total, State(), scheduler.queue, output.Content());
    }

    /** One turn of the segment loop: up to the next event, or to the end of the callback. */
    method RenderNext(output: AudioBufferView, start: nat, rendered: nat, ghost e0: EngineState,
                      ghost q0: Queue<EngineCommand>)
      returns (reached: nat)
      requires Valid() && CanRenderTo(output) && machine.valid(e0)
      requires rendered < output.frameCount <= segments.rig.maxFrames && NoneDue(scheduler.queue, start + rendered)
      requires AtCursor(machine, e0, q0, start, output.frameCount, rendered, State(), scheduler.queue,
                        output.data[output.offset..output.offset + rendered])
      modifies parts, output.data
      ensures Valid() && CanRenderTo(output) && rendered < reached <= output.frameCount
      ensures
        var (settled, left) :=
          if reached < output.frameCount
          then ApplyDue(machine, State(), scheduler.queue, start + reached) else (State(), scheduler.queue);
        AtCursor(machine, e0, q0, start, output.frameCount, reached, settled, left,
                 output.data[output.offset..output.offset + reached])
    {
      hide SegmentRenderer.Segments.Valid, SegmentRenderer.Segments.State, InOrder, AllBelow, IsHeap;
      hide PartsOf, EngineMachine, ApplyDue, AtCursor;
      var cursor := start + rendered;
      var segment: nat := output.frameCount - rendered;
      var next := scheduler.PeekNextTarget();
      if next.Some? {
        var untilEvent: nat := next.value - cursor;
        if untilEvent < segment {
          segment := untilEvent;
        }
      }
      ghost var out := output.data[output.offset..output.offset + rendered];
      SegmentsFit();
      SegmentStep(machine, e0, q0, start, output.frameCount, rendered, State(), scheduler.queue, out, segment,
                  segments.rig.maxFrames);
      RenderBehind(output, rendered, segment, cursor);
      reached := rendered + segment;
    }

    /** Renders a segment behind the frames already in the output. */
    method RenderBehind(output: AudioBufferView, rendered: nat, segment: nat, cursor: nat)
      requires Valid() && CanRenderTo(output) && 0 < segment && rendered + segment <= output.frameCount
      modifies parts, output.data
      ensures Valid() && CanRenderTo(output)
      ensures
        var (next, block) := machine.render(old(State()), cursor, segment);
        && State() == next
        && output.data[output.offset..output.offset + rendered + segment] ==
           old(output.data[output.offset..output.offset + rendered]) + block
    {
      hide SegmentRenderer.Segments.Valid, SegmentRenderer.Segments.State, InOrder, AllBelow, IsHeap;
      hide PartsOf, EngineMachine;
      hide EventScheduler.Valid;
      ghost var before := output.data[..];
      var view := output.SubView(rendered, segment);
      RenderPart(view, cursor);
      BehindTheOthers(output, rendered, view, before, output.data[..]);
      assert view.Content() == output.data[..][view.offset..view.offset + segment];
      assert output.data[..][output.offset..output.offset + rendered + segment] ==
             output.data[output.offset..output.offset + rendered + segment];
      forall f | output.offset <= f < output.offset + output.frameCount ensures |output.data[f]| == output.channels {
        assert output.data[..][f] == output.data[f];
      }
    }
  }
}
