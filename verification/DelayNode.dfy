/** The delay line (src/lavanda/graph/nodes/delay_node.cc): a ring per channel, written and read once
    per frame. */
module DelayLines {
  import opened Prelude
  import opened Signals
  import opened Blocks
  import opened MixerMath
  import opened GraphSplitting
  import opened StreamNodes

  predicate IsLine(s: NodeState, max: nat) {
    s.DelayLine? && |s.cells| == max && s.writeIndex < max && s.delay <= max
  }

  /** One frame: write it, read the frame delay cells back, move on. */
  function DelayFrame(channels: nat, max: nat, s: NodeState, ins: seq<Frame>): (NodeState, Frame)
    requires 0 < max
  {
    if |ins| == 0 || !IsLine(s, max) then (s, Silence(channels))
    else
      var cells := s.cells[s.writeIndex := Channels(ins[0], channels)];
      var read := Cell(s.writeIndex + max - s.delay, max);
      (DelayLine(cells, Cell(s.writeIndex + 1, max), s.delay), Channels(cells[read], channels))
  }

  function DelayStep(channels: nat, max: nat): FrameStep
    requires 0 < max
  {
    (s, ins) => DelayFrame(channels, max, s, ins)
  }

  function SilentLine(channels: nat, max: nat, delay: nat): NodeState {
    DelayLine(Zeros(max, channels), 0, delay)
  }

  // ---- The ring remembers the last max frames -----------------------------------------------------

  lemma CellOfSum(a: nat, b: nat, max: nat)
    requires max > 0
    ensures Cell(Cell(a, max) + b, max) == Cell(a + b, max)
  {
    var q := a / max;
    assert a + b == (a % max + b) + max * q;
    WholeLapsBack(a % max + b, q, max);
  }

  lemma WholeLapsBack(n: nat, laps: nat, max: nat)
    requires max > 0
    ensures (n + max * laps) % max == n % max
  {
    var d := n / max + laps;
    assert n + max * laps == max * d + n % max;
    ModIsUnique(n + max * laps, d, n % max, max);
  }

  lemma ModIsUnique(n: nat, q: nat, r: nat, max: nat)
    requires n == max * q + r && r < max
    ensures n % max == r
  {
    var laps := n / max - q;
    assert max * laps == r - n % max;
    WholeLaps(max, laps);
  }

  lemma CellOfLap(a: nat, max: nat)
    requires max > 0
    ensures Cell(a + max, max) == Cell(a, max)
  {
    WholeLapsBack(a, 1, max);
  }

  lemma CellOfSmall(a: nat, max: nat)
    requires a < max
    ensures Cell(a, max) == a
  {
  }

  /** past ends with the max frames the ring holds, oldest first from the write position. */
  ghost predicate Remembers(s: NodeState, base: nat, past: seq<Frame>, max: nat) {
    && max > 0 && IsLine(s, max) && |past| >= max
    && s.writeIndex == Cell(base + |past|, max)
    && forall i :: |past| - max <= i < |past| ==> s.cells[Cell(base + i, max)] == past[i]
  }

  /** Any line remembers its cells in the order they were written. */
  lemma LineRemembers(s: NodeState, max: nat)
    requires IsLine(s, max)
    ensures Remembers(s, s.writeIndex, s.cells[s.writeIndex..] + s.cells[..s.writeIndex], max)
  {
    hide Cell;
    var w, past := s.writeIndex, s.cells[s.writeIndex..] + s.cells[..s.writeIndex];
    forall i | 0 <= i < |past| ensures s.cells[Cell(w + i, max)] == past[i] {
      if w + i >= max {
        CellOfLap(w + i - max, max);
        CellOfSmall(w + i - max, max);
      } else {
        CellOfSmall(w + i, max);
      }
    }
    CellOfLap(w, max);
    CellOfSmall(w, max);
  }

  lemma DelayFrameRemembers(channels: nat, max: nat, s: NodeState, base: nat, past: seq<Frame>, ins: seq<Frame>)
    requires Remembers(s, base, past, max) && |ins| > 0
    ensures
      var (after, frame) := DelayFrame(channels, max, s, ins);
      var longer := past + [Channels(ins[0], channels)];
      && Remembers(after, base, longer, max) && after.delay == s.delay
      && frame == Channels(longer[if s.delay < max then |past| - s.delay else |past|], channels)
  {
    hide Cell;
    var (after, frame) := DelayFrame(channels, max, s, ins);
    var longer := past + [Channels(ins[0], channels)];
    var n := base + |past|;
    CellOfSum(n, 1, max);
    forall i | |longer| - max <= i < |longer| ensures after.cells[Cell(base + i, max)] == longer[i] {
      if i < |past| {
        DifferentCells(base + i, n, max);
      }
    }
    CellOfSum(n, max - s.delay, max);
    if s.delay < max {
      CellOfLap(n - s.delay, max);
      assert Cell(n + (max - s.delay), max) == Cell(base + (|past| - s.delay), max);
    }
  }

  /** The line over a block: delay frames back in everything it has seen, under whatever delays, or
      no delay at all when the delay is the full length of the ring. */
  lemma {:induction false} DelayReadsHistory(channels: nat, max: nat, s: NodeState, base: nat,
                                             past: seq<Frame>, input: Block, n: nat)
    requires 0 < max && Remembers(s, base, past, max) && n <= |input| && HasWidth(input, channels)
    ensures
      var (after, block) := Streamed(DelayStep(channels, max), s, [input], n);
      && Remembers(after, base, past + input[..n], max) && after.delay == s.delay
      && forall j :: 0 <= j < n ==>
           block[j] == Channels((past + input)[if s.delay < max then |past| + j - s.delay else |past| + j], channels)
    decreases n
  {
    hide Cell, Remembers, DelayFrame;
    RemembersLength(s, base, past, max);
    if n == 0 {
      assert past + input[..0] == past;
    } else {
      DelayReadsHistory(channels, max, s, base, past, input, n - 1);
      var before := Streamed(DelayStep(channels, max), s, [input], n - 1).0;
      var seen := past + input[..n - 1];
      assert FrameInputs([input], n - 1) == [input[n - 1]];
      DelayFrameRemembers(channels, max, before, base, seen, [input[n - 1]]);
      assert Channels(input[n - 1], channels) == input[n - 1];
      assert seen + [input[n - 1]] == past + input[..n];
    }
  }

  lemma RemembersLength(s: NodeState, base: nat, past: seq<Frame>, max: nat)
    requires Remembers(s, base, past, max)
    ensures s.DelayLine? && |past| >= max >= s.delay
  {
  }

  lemma LineWidth(channels: nat, max: nat, s: NodeState)
    requires 0 < max
    ensures StepWidth(DelayStep(channels, max), channels) && Idle(DelayStep(channels, max), s, [], channels)
  {
  }

  // ---- What the node is for ---------------------------------------------------------------------

  /** What a line of so many frames leaves of a block, from silence, in an output view that held
      was: its own channels, at most two, over the others as they were. */
  ghost function LeftByLine(channels: nat, max: nat, delay: nat, input: Block, was: Block): (left: Block)
    requires 0 < max && |was| == |input| && HasWidth(was, channels)
    ensures |left| == |input|
  {
    var line := SilentLine(Working(channels), max, delay);
    var own := Streamed(DelayStep(Working(channels), max), line, [input], |input|).1;
    OwnWidth(Working(channels), max, line, input);
    Overlaid(was, own)
  }

  lemma OwnWidth(channels: nat, max: nat, s: NodeState, input: Block)
    requires 0 < max
    ensures HasWidth(Streamed(DelayStep(channels, max), s, [input], |input|).1, channels)
  {
    StreamedWidth(DelayStep(channels, max), s, [input], |input|, channels);
  }

  /** From silence, every frame comes out delay frames later, whatever the output view held. */
  ghost predicate DelaysExactly(channels: nat, max: nat, delay: nat)
    requires 0 < max
  {
    forall input: Block, was: Block {:trigger LeftByLine(channels, max, delay, input, was)} ::
      HasWidth(input, channels) && HasWidth(was, channels) && |was| == |input| ==>
        DelaysBlock(channels, delay, input, LeftByLine(channels, max, delay, input, was))
  }

  ghost predicate DelaysBlock(channels: nat, delay: nat, input: Block, left: Block)
    requires |left| == |input|
  {
    forall j :: 0 <= j < |input| ==> left[j] == if j < delay then Silence(channels) else input[j - delay]
  }

  /** The node delays by exactly the set number of frames if and only if that is less than its
      maximum and it has at most two channels: at the maximum it reads the cell it has just written
      and does not delay at all, and a third channel keeps what the view held. */
  lemma DelayIsExactBelowMaximum(channels: nat, max: nat, delay: nat)
    requires 0 < max && delay <= max && 0 < channels
    ensures DelaysExactly(channels, max, delay) <==> delay < max && channels <= MAX_CHANNELS
  {
    hide DelaysBlock, LeftByLine;
    if channels > MAX_CHANNELS {
      ThirdChannelIsKept(channels, max, delay);
    } else if delay < max {
      forall input: Block, was: Block | HasWidth(input, channels) && HasWidth(was, channels) && |was| == |input|
        ensures DelaysBlock(channels, delay, input, LeftByLine(channels, max, delay, input, was))
      {
        BelowMaximum(channels, max, delay, input, was);
      }
    } else {
      AtMaximum(channels, max);
    }
  }

  /** Up to two channels nothing of the view is left. */
  lemma LineFillsView(channels: nat, max: nat, delay: nat, input: Block, was: Block)
    requires 0 < max && channels <= MAX_CHANNELS && |was| == |input| && HasWidth(was, channels)
    ensures LeftByLine(channels, max, delay, input, was) ==
            Streamed(DelayStep(channels, max), SilentLine(channels, max, delay), [input], |input|).1
  {
    hide Overlaid, DelayFrame, Streamed;
    var line := SilentLine(channels, max, delay);
    OwnWidth(channels, max, line, input);
    OverlayIsWhole(was, Streamed(DelayStep(channels, max), line, [input], |input|).1, channels);
  }

  lemma BelowMaximum(channels: nat, max: nat, delay: nat, input: Block, was: Block)
    requires delay < max && channels <= MAX_CHANNELS
    requires HasWidth(input, channels) && HasWidth(was, channels) && |was| == |input|
    ensures DelaysBlock(channels, delay, input, LeftByLine(channels, max, delay, input, was))
  {
    hide Cell, Streamed, Remembers, DelayFrame, LeftByLine;
    LineFillsView(channels, max, delay, input, was);
    var s := SilentLine(channels, max, delay);
    LineRemembers(s, max);
    var past := s.cells[0..] + s.cells[..0];
    assert past == s.cells;
    DelayReadsHistory(channels, max, s, 0, past, input, |input|);
    var block := LeftByLine(channels, max, delay, input, was);
    forall j | 0 <= j < |input| ensures block[j] == if j < delay then Silence(channels) else input[j - delay] {
      var k := |past| + j - delay;
      assert (past + input)[k] == if j < delay then Silence(channels) else input[j - delay];
      assert Channels((past + input)[k], channels) == (past + input)[k];
    }
  }

  lemma AtMaximum(channels: nat, max: nat)
    requires 0 < max && 0 < channels <= MAX_CHANNELS
    ensures !DelaysExactly(channels, max, max)
  {
    hide Cell, Remembers, LeftByLine;
    var pulse, was := seq(channels, _ => 1.0), [Silence(channels)];
    LineFillsView(channels, max, max, [pulse], was);
    var s := SilentLine(channels, max, max);
    LineRemembers(s, max);
    var past := s.cells[0..] + s.cells[..0];
    DelayReadsHistory(channels, max, s, 0, past, [pulse], 1);
    var left := LeftByLine(channels, max, max, [pulse], was);
    assert left[0] == Channels(pulse, channels) == pulse;
    assert pulse[0] != Silence(channels)[0];
    assert !DelaysBlock(channels, max, [pulse], left);
  }

  /** A silent input does not silence a third channel that was loud. */
  lemma ThirdChannelIsKept(channels: nat, max: nat, delay: nat)
    requires 0 < max && channels > MAX_CHANNELS
    ensures !DelaysExactly(channels, max, delay)
  {
    hide DelayFrame, Streamed;
    var input, was := [Silence(channels)], [seq(channels, _ => 1.0)];
    var left := LeftByLine(channels, max, delay, input, was);
    OwnWidth(Working(channels), max, SilentLine(Working(channels), max, delay), input);
    assert left[0][MAX_CHANNELS] == was[0][MAX_CHANNELS] == 1.0;
    assert (if 0 < delay then Silence(channels) else input[0])[MAX_CHANNELS] == 0.0;
    assert !DelaysBlock(channels, delay, input, left);
  }

  /** The node as the graph compiler sees it. Its delay is part of its state. */
  function DelayAudioNode(channels: nat, max: nat, delay: nat): AudioNode
    requires 0 < max && 0 < channels <= MAX_CHANNELS
  {
    StreamNode(channels, channels, 1, None, SilentLine(channels, max, delay), _ => SilentLine(channels, max, delay),
               _ => DelayStep(channels, max))
  }

  lemma DelayNodesSplit(channels: nat, max: nat, delay: nat)
    requires 0 < max && 0 < channels <= MAX_CHANNELS
    ensures DelayAudioNode(channels, max, delay).WellBehaved() && Splits(DelayAudioNode(channels, max, delay))
  {
    StreamNodesSplit(channels, channels, 1, None, SilentLine(channels, max, delay),
                     _ => SilentLine(channels, max, delay), _ => DelayStep(channels, max));
  }

  // ---- The node -----------------------------------------------------------------------------------

  class DelayNode {
    const channels: nat
    const max: nat
    var delay: nat
    var writeIndex: nat
    /** One ring per channel, for the first two channels. */
    const buffer: array2<real>
    /** The same rings, frame by frame. */
    ghost var cells: Block

    ghost predicate Valid()
      reads this, buffer
    {
      && 0 < max && delay <= max && writeIndex < max
      && buffer.Length0 == MAX_CHANNELS && buffer.Length1 == max
      && |cells| == max && HasWidth(cells, Working(channels))
      && forall c, w :: 0 <= c < Working(channels) && 0 <= w < max ==> cells[w][c] == buffer[c, w]
    }

    ghost function State(): NodeState
      reads this
    {
      DelayLine(cells, writeIndex, delay)
    }

    constructor (channels: nat, max: nat)
      ensures Valid() && fresh(buffer) && this.channels == channels && this.max == Max(max, 1)
      ensures State() == SilentLine(Working(channels), Max(max, 1), 0)
    {
      this.channels, this.max := channels, Max(max, 1);
      delay, writeIndex, cells := 0, 0, Zeros(Max(max, 1), Working(channels));
      buffer := new real[MAX_CHANNELS, Max(max, 1)]((_, _) => 0.0);
    }

    method SetDelayFrames(frames: nat)
      requires Valid()
      modifies this`delay
      ensures Valid() && delay == Min(frames, max)
    {
      delay := Min(frames, max);
    }

    /** One frame through every channel's ring. */
    method ProcessFrame(x: Frame) returns (frame: Frame)
      requires Valid() && |x| == channels
      modifies this`cells, this`writeIndex, buffer
      ensures Valid() && |frame| == Working(channels)
      ensures (State(), frame) == DelayFrame(Working(channels), max, old(State()), [x])
    {
      var read := (writeIndex + max - delay) % max;
      assert read == Cell(writeIndex + max - delay, max);
      frame := [];
      for c := 0 to Working(channels)
        invariant |frame| == c && delay == old(delay) && writeIndex == old(writeIndex) && cells == old(cells)
        invariant forall d :: 0 <= d < c ==> buffer[d, writeIndex] == x[d] && frame[d] == buffer[d, read]
        invariant forall d, w :: 0 <= d < MAX_CHANNELS && 0 <= w < max && (d >= c || w != writeIndex) ==>
                    buffer[d, w] == old(buffer[d, w])
      {
        buffer[c, writeIndex] := x[c];
        frame := frame + [buffer[c, read]];
      }
      assert Channels(x, Working(channels)) == x[..Working(channels)];
      cells := cells[writeIndex := x[..Working(channels)]];
      writeIndex := (writeIndex + 1) % max;
      assert frame == Channels(cells[read], Working(channels));
    }

    /** Without input, or with an empty output, the output is cleared and the ring stands still;
        otherwise the first two channels are the line's and the others keep what they held. */
    method Process(input: Option<AudioBufferView>, output: AudioBufferView)
      requires Valid() && output.Valid() && output.channels == channels
      requires input.Some? ==>
                 input.value.Valid() && input.value.channels == channels && input.value.frameCount == output.frameCount &&
                 input.value.data != output.data
      modifies this`cells, this`writeIndex, buffer, output.data
      ensures Valid()
      ensures input.None? || output.Empty() ==>
                State() == old(State()) && output.Content() == Zeros(output.frameCount, channels)
      ensures input.Some? && !output.Empty() ==>
                var after :=
                  Streamed(DelayStep(Working(channels), max), old(State()), [old(input.value.Content())],
                           output.frameCount);
                && State() == after.0 && LeavesOver(old(output.Content()), output.Content(), after.1)
      ensures input.Some? && !output.Empty() && old(State()) == SilentLine(Working(channels), max, delay) ==>
                var block, was := old(input.value.Content()), old(output.Content());
                output.Content() == LeftByLine(channels, max, delay, block, was)
      ensures 0 < channels <= MAX_CHANNELS ==>
                (State(), output.Content()) ==
                Streamed(DelayStep(channels, max), old(State()),
                         if input.Some? then [old(input.value.Content())] else [], output.frameCount)
    {
      hide DelayFrame;
      ghost var s, was := State(), output.Content();
      ghost var block := if input.Some? then Some(input.value.Content()) else None;
      if input.None? || output.Empty() {
        Clear(output);
      } else {
        ProcessFrames(input.value, output);
      }
      if 0 < channels <= MAX_CHANNELS {
        LineWidth(channels, max, s);
        ProcessIsTheStep(DelayStep(channels, max), s, block, was, output.Content(), State(),
                         input.None? || output.Empty(), channels);
      }
    }

    method ProcessFrames(input: AudioBufferView, output: AudioBufferView)
      requires Valid() && input.Valid() && input.channels == channels && input.frameCount == output.frameCount
      requires output.Valid() && output.channels == channels && input.data != output.data
      modifies this`cells, this`writeIndex, buffer, output.data
      ensures Valid()
      ensures
        var after :=
          Streamed(DelayStep(Working(channels), max), old(State()), [old(input.Content())], output.frameCount);
        State() == after.0 && LeavesOver(old(output.Content()), output.Content(), after.1)
    {
      hide DelayFrame, FrameInputs, OverlaidSoFar;
      ghost var block, step, s := input.Content(), DelayStep(Working(channels), max), State();
      ghost var was, own := output.Content(), [];
      NothingOverlaid(was);
      for f := 0 to output.frameCount
        invariant Valid() && delay == old(delay) && output.Valid() && input.Content() == block
        invariant (State(), own) == Streamed(step, s, [block], f)
        invariant OverlaidSoFar(was, output.Content(), own, f)
      {
        OnlyInput(block, f);
        StillThere(was, output.Content(), own, f);
        assert block[f] == input.data[input.offset + f] && output.Content()[f] == output.data[output.offset + f];
        var frame := ProcessFrame(input.data[input.offset + f]);
        OverlayGrows(was, output.Content(), own, f, frame);
        SetFrame(output, f, frame + output.data[output.offset + f][|frame|..]);
        own := own + [frame];
      }
      OverlayEnds(was, output.Content(), own);
    }
  }
}
