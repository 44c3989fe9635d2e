/** Gain ramps (src/lavanda/runtime/gain_ramp.h). Gains are exact reals, frames are 64-bit. */
module Ramps {
  import opened Prelude

  const MAX_FRAME: nat := 0xFFFF_FFFF_FFFF_FFFF

  function Progress(part: nat, whole: nat): real
    requires whole > 0
  {
    part as real / whole as real
  }

  function Blend(from: real, to: real, progress: real): real {
    from + Times(to - from, progress)
  }

  /** Multiplication under a name, so that proofs can keep it folded. */
  function Times(x: real, y: real): real {
    x * y
  }

  /** What a ramp holds: it goes from startValue at startFrame to target at endFrame. */
  datatype Ramp = Ramp(startValue: real, target: real, startFrame: nat, endFrame: nat)
  {
    predicate IsConstantFrom(frame: nat) {
      frame >= endFrame
    }

    function ValueAt(frame: nat): real {
      if frame >= endFrame then target
      else if frame <= startFrame then startValue
      else Blend(startValue, target, Progress(frame - startFrame, endFrame - startFrame))
    }

    function Started(now: nat, goal: real, duration: nat): Ramp {
      if duration == 0 then Steady(goal)
      else Ramp(ValueAt(now), goal, now, if now > MAX_FRAME - duration then MAX_FRAME else now + duration)
    }
  }

  function Steady(gain: real): Ramp {
    Ramp(gain, gain, 0, 0)
  }

  predicate Within(x: real, low: real, high: real) {
    low <= x <= high
  }

  /** The object the mixer keeps: Set and Start change it in place. */
  class GainRamp {
    var startValue: real
    var target: real
    var startFrame: nat
    var endFrame: nat

    function Value(): Ramp
      reads this
    {
      Ramp(startValue, target, startFrame, endFrame)
    }

    constructor (gain: real)
      ensures Value() == Steady(gain)
    {
      startValue, target, startFrame, endFrame := gain, gain, 0, 0;
    }

    method Set(gain: real)
      modifies this
      ensures Value() == Steady(gain)
    {
      startValue := gain;
      target := gain;
      startFrame := 0;
      endFrame := 0;
    }

    /** From the present value, in even steps, to the goal; over early only where frame numbers run
        out, and at once without a duration. */
    method Start(now: nat, goal: real, duration: nat)
      modifies this
      ensures Value() == old(Value()).Started(now, goal, duration)
      ensures duration == 0 ==> forall frame :: Value().ValueAt(frame) == goal
      ensures 0 < duration && now + duration <= MAX_FRAME ==>
                && (forall frame :: now <= frame <= now + duration ==>
                      (Value().ValueAt(frame) - old(Value()).ValueAt(now)) * duration as real ==
                      (goal - old(Value()).ValueAt(now)) * (frame - now) as real)
                && forall frame :: frame >= now + duration ==> Value().ValueAt(frame) == goal
    {
      if 0 < duration && now + duration <= MAX_FRAME {
        StartedMovesSteadily(Value(), now, goal, duration);
      }
      if duration == 0 {
        Set(goal);
        return;
      }
      startValue := Value().ValueAt(now);
      target := goal;
      startFrame := now;
      endFrame := if MAX_FRAME - now < duration then MAX_FRAME else now + duration;
    }
  }

  // ---- Bounds ---------------------------------------------------------------------------------

  lemma BlendIsBetween(a: real, b: real, t: real)
    requires 0.0 <= t <= 1.0
    ensures a <= b ==> a <= Blend(a, b, t) <= b
    ensures b <= a ==> b <= Blend(a, b, t) <= a
  {
    hide Times;
    if a <= b {
      TimesPart(b - a, t);
    }
    if b <= a {
      TimesPart(a - b, t);
      TimesNegated(a - b, t);
      assert b - a == -(a - b);
    }
  }

  lemma TimesPart(d: real, t: real)
    requires 0.0 <= d && 0.0 <= t <= 1.0
    ensures 0.0 <= Times(d, t) <= d
  {
    var rest := 1.0 - t;
    assert d * t >= 0.0 && d * rest >= 0.0;
    assert d == d * t + d * rest;
  }

  lemma TimesNegated(d: real, t: real)
    ensures Times(-d, t) == -Times(d, t)
  {
  }

  lemma TimesMoves(d: real, t: real, u: real)
    requires t <= u
    ensures d >= 0.0 ==> Times(d, t) <= Times(d, u)
    ensures d <= 0.0 ==> Times(d, t) >= Times(d, u)
  {
    var e := u - t;
    assert d * u == d * t + d * e;
    assert d >= 0.0 ==> d * e >= 0.0;
    assert d <= 0.0 ==> d * e <= 0.0;
  }

  lemma BlendMoves(a: real, b: real, t: real, u: real)
    requires t <= u
    ensures a <= b ==> Blend(a, b, t) <= Blend(a, b, u)
    ensures b <= a ==> Blend(a, b, t) >= Blend(a, b, u)
  {
    hide Times;
    TimesMoves(b - a, t, u);
  }

  lemma ProgressGrows(part: nat, more: nat, whole: nat)
    requires 0 < whole && part <= more <= whole
    ensures 0.0 <= Progress(part, whole) <= Progress(more, whole) <= 1.0
  {
    DivisionOrder(0.0, part as real, whole as real);
    DivisionOrder(part as real, more as real, whole as real);
    DivisionOrder(more as real, whole as real, whole as real);
  }

  lemma DivisionOrder(a: real, b: real, w: real)
    requires w > 0.0 && a <= b
    ensures a / w <= b / w
  {
    var x, y := a / w, b / w;
    assert x * w == a && y * w == b;
    assert (y - x) * w == b - a;
  }

  /** A ramp never leaves the span between its start and its target. */
  lemma ValueStaysBetween(r: Ramp, frame: nat, low: real, high: real)
    requires Within(r.startValue, low, high) && Within(r.target, low, high)
    ensures Within(r.ValueAt(frame), low, high)
  {
    hide Blend, Progress;
    if r.startFrame < frame < r.endFrame {
      ProgressGrows(frame - r.startFrame, frame - r.startFrame, r.endFrame - r.startFrame);
      BlendIsBetween(r.startValue, r.target, Progress(frame - r.startFrame, r.endFrame - r.startFrame));
    }
  }

  /** A ramp moves steadily: later values lie between earlier ones and the target. */
  lemma ValueApproaches(r: Ramp, earlier: nat, later: nat)
    requires earlier <= later
    ensures r.startValue <= r.target ==> r.ValueAt(earlier) <= r.ValueAt(later) <= r.target
    ensures r.target <= r.startValue ==> r.target <= r.ValueAt(later) <= r.ValueAt(earlier)
  {
    hide Blend, Progress;
    var low, high := if r.startValue <= r.target then r.startValue else r.target,
                     if r.startValue <= r.target then r.target else r.startValue;
    ValueStaysBetween(r, earlier, low, high);
    ValueStaysBetween(r, later, low, high);
    if r.startFrame < earlier && later < r.endFrame {
      var e, l, whole := earlier - r.startFrame, later - r.startFrame, r.endFrame - r.startFrame;
      ProgressGrows(e, l, whole);
      BlendMoves(r.startValue, r.target, Progress(e, whole), Progress(l, whole));
    }
  }

  /** Between its ends a ramp has gone as much of the way as of the time. */
  lemma ValueIsLinear(r: Ramp, frame: nat)
    requires r.startFrame <= frame <= r.endFrame && r.startFrame < r.endFrame
    ensures (r.ValueAt(frame) - r.startValue) * (r.endFrame - r.startFrame) as real ==
            (r.target - r.startValue) * (frame - r.startFrame) as real
  {
    var part, whole := (frame - r.startFrame) as real, (r.endFrame - r.startFrame) as real;
    PartOfTheWay(r.target - r.startValue, part, whole);
  }

  lemma PartOfTheWay(d: real, part: real, whole: real)
    requires whole > 0.0
    ensures Times(d, part / whole) * whole == d * part
  {
    var t := part / whole;
    assert t * whole == part;
    assert (d * t) * whole == d * (t * whole);
  }

  /** A ramp started with a duration that fits is after k frames at k / duration of the way. */
  lemma StartedMovesSteadily(r: Ramp, now: nat, goal: real, duration: nat)
    requires 0 < duration && now + duration <= MAX_FRAME
    ensures
      var started := r.Started(now, goal, duration);
      forall frame :: now <= frame <= now + duration ==>
        (started.ValueAt(frame) - r.ValueAt(now)) * duration as real == (goal - r.ValueAt(now)) * (frame - now) as real
  {
    var started := r.Started(now, goal, duration);
    forall frame | now <= frame <= now + duration
      ensures
        (started.ValueAt(frame) - r.ValueAt(now)) * duration as real == (goal - r.ValueAt(now)) * (frame - now) as real
    {
      ValueIsLinear(started, frame);
    }
  }

  /** Restarting is continuous, except at the last representable frame or with no duration, where
      the gain jumps unless it is already there. */
  lemma RestartIsContinuous(r: Ramp, now: nat, goal: real, duration: nat)
    ensures r.Started(now, goal, duration).ValueAt(now) == r.ValueAt(now) <==>
            (duration > 0 && now < MAX_FRAME) || r.ValueAt(now) == goal
  {
  }

  /** Every ramp is over by the last representable frame, and on its target from then on. */
  lemma RampEnds(r: Ramp, now: nat, goal: real, duration: nat)
    requires now <= MAX_FRAME
    ensures
      var started := r.Started(now, goal, duration);
      && started.endFrame <= MAX_FRAME && started.target == goal
      && (forall frame :: frame >= now + duration ==> started.ValueAt(frame) == goal)
  {
  }

  // ---- Every run of Set and Start -------------------------------------------------------------

  datatype Change = SetTo(gain: real) | StartTo(now: nat, goal: real, duration: nat)

  function Changed(r: Ramp, change: Change): Ramp {
    match change
    case SetTo(gain) => Steady(gain)
    case StartTo(now, goal, duration) => r.Started(now, goal, duration)
  }

  function Goal(change: Change): real {
    match change
    case SetTo(gain) => gain
    case StartTo(_, goal, _) => goal
  }

  function AfterChanges(r: Ramp, changes: seq<Change>): Ramp
    decreases |changes|
  {
    if changes == [] then r else AfterChanges(Changed(r, changes[0]), changes[1..])
  }

  predicate RampWithin(r: Ramp, low: real, high: real) {
    Within(r.startValue, low, high) && Within(r.target, low, high)
  }

  lemma ChangeStaysWithin(r: Ramp, change: Change, low: real, high: real)
    requires RampWithin(r, low, high) && Within(Goal(change), low, high)
    ensures RampWithin(Changed(r, change), low, high)
  {
    if change.StartTo? {
      ValueStaysBetween(r, change.now, low, high);
    }
  }

  /** Whatever sequence of changes a ramp goes through, interrupted or not, its value stays within
      the bounds its goals respect. */
  lemma {:induction false} RunStaysWithin(r: Ramp, changes: seq<Change>, frame: nat, low: real, high: real)
    requires RampWithin(r, low, high)
    requires forall i :: 0 <= i < |changes| ==> Within(Goal(changes[i]), low, high)
    ensures RampWithin(AfterChanges(r, changes), low, high)
    ensures Within(AfterChanges(r, changes).ValueAt(frame), low, high)
    decreases |changes|
  {
    if changes == [] {
      ValueStaysBetween(r, frame, low, high);
    } else {
      ChangeStaysWithin(r, changes[0], low, high);
      RunStaysWithin(Changed(r, changes[0]), changes[1..], frame, low, high);
    }
  }
}
