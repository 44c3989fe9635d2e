/** The single-producer single-consumer ring between the two threads
    (src/lavanda/runtime/command_queue.cc): one call at a time, and interleaved at the granularity
    of its loads, cell copies and stores. Counters are unbounded. */
module SpscQueue {
  import opened Prelude
  import opened Runs

  // ---- One call at a time -----------------------------------------------------------------------

  class CommandQueue<T> {
    const buffer: array<T>
    var head: nat
    var tail: nat
    /** The queued items, oldest first. */
    ghost var items: seq<T>

    ghost predicate Valid()
      reads this, buffer
    {
      && buffer.Length > 0
      && head == tail + |items| && |items| <= buffer.Length
      && forall n :: tail <= n < head ==> buffer[Cell(n, buffer.Length)] == items[n - tail]
    }

    constructor (capacity: nat, fill: T)
      ensures Valid() && fresh(buffer) && items == [] && buffer.Length == if capacity < 1 then 1 else capacity
    {
      buffer := new T[if capacity < 1 then 1 else capacity](_ => fill);
      head, tail, items := 0, 0, [];
    }

    method TryPush(item: T) returns (ok: bool)
      requires Valid()
      modifies this`head, this`items, buffer
      ensures Valid()
      ensures ok <==> |old(items)| < buffer.Length
      ensures items == if ok then old(items) + [item] else old(items)
    {
      hide Cell;
      if head - tail >= buffer.Length {
        return false;
      }
      forall n: nat | tail <= n < head ensures Cell(n, buffer.Length) != Cell(head, buffer.Length) {
        DifferentCells(n, head, buffer.Length);
      }
      buffer[Cell(head, buffer.Length)] := item;
      head := head + 1;
      items := items + [item];
      return true;
    }

    method TryPop() returns (item: Option<T>)
      requires Valid()
      modifies this`tail, this`items
      ensures Valid()
      ensures item == if old(items) == [] then None else Some(old(items)[0])
      ensures items == if old(items) == [] then [] else old(items)[1..]
    {
      hide Cell;
      if tail == head {
        return None;
      }
      item := Some(buffer[Cell(tail, buffer.Length)]);
      tail := tail + 1;
      items := items[1..];
    }
  }

  // ---- Both ends at once ------------------------------------------------------------------------

  datatype Producer<T> =
    | Quiet
    | HeadLoaded(item: T)       // about to load tail
    | RoomSeen(item: T)         // may be writing the cell
    | CellWritten(item: T)      // about to publish head + 1

  datatype Consumer<T> =
    | Waiting
    | TailLoaded                // about to load head
    | ItemSeen                  // may be copying the cell
    | CellCopied(item: T)       // about to publish tail + 1

  /** pushed and popped are the histories of completed calls. */
  datatype Ring<T> = Ring(
    cells: seq<T>, head: nat, tail: nat, producer: Producer<T>, consumer: Consumer<T>, pushed: seq<T>, popped: seq<T>)

  datatype RingStep<T> =
    | BeginPush(item: T) | LoadTail | WriteCell | PublishHead
    | BeginPop | LoadHead | CopyCell | PublishTail

  predicate Enabled<T>(r: Ring<T>, step: RingStep<T>) {
    match step
    case BeginPush(_) => r.producer.Quiet?
    case LoadTail => r.producer.HeadLoaded?
    case WriteCell => r.producer.RoomSeen?
    case PublishHead => r.producer.CellWritten?
    case BeginPop => r.consumer.Waiting?
    case LoadHead => r.consumer.TailLoaded?
    case CopyCell => r.consumer.ItemSeen?
    case PublishTail => r.consumer.CellCopied?
  }

  function Next<T>(r: Ring<T>, step: RingStep<T>): Ring<T>
    requires r.cells != [] && Enabled(r, step)
  {
    match step
    case BeginPush(item) => r.(producer := HeadLoaded(item))
    case LoadTail =>
      if r.head - r.tail >= |r.cells| then r.(producer := Quiet) else r.(producer := RoomSeen(r.producer.item))
    case WriteCell =>
      r.(cells := r.cells[Cell(r.head, |r.cells|) := r.producer.item], producer := CellWritten(r.producer.item))
    case PublishHead =>
      r.(head := r.head + 1, producer := Quiet, pushed := r.pushed + [r.producer.item])
    case BeginPop => r.(consumer := TailLoaded)
    case LoadHead => if r.tail == r.head then r.(consumer := Waiting) else r.(consumer := ItemSeen)
    case CopyCell => r.(consumer := CellCopied(r.cells[Cell(r.tail, |r.cells|)]))
    case PublishTail =>
      r.(tail := r.tail + 1, consumer := Waiting, popped := r.popped + [r.consumer.item])
  }

  ghost predicate RingInv<T>(r: Ring<T>) {
    && r.cells != []
    && r.head == |r.pushed| && r.tail == |r.popped|
    && r.tail <= r.head <= r.tail + |r.cells|
    && r.popped == r.pushed[..r.tail]
    && (forall k :: r.tail <= k < r.head ==> CellHolds(r, k))
    && (r.producer.RoomSeen? || r.producer.CellWritten? ==> r.head < r.tail + |r.cells|)
    && (r.producer.CellWritten? ==> r.cells[Cell(r.head, |r.cells|)] == r.producer.item)
    && (r.consumer.ItemSeen? || r.consumer.CellCopied? ==> r.tail < r.head)
    && (r.consumer.CellCopied? ==> r.consumer.item == r.pushed[r.tail])
  }

  ghost predicate CellHolds<T>(r: Ring<T>, k: nat)
    requires r.cells != [] && k < |r.pushed|
  {
    r.cells[Cell(k, |r.cells|)] == r.pushed[k]
  }

  predicate Empty<T>(r: Ring<T>) {
    r.cells != [] && r.head == 0 && r.tail == 0 && r.producer == Quiet && r.consumer == Waiting
    && r.pushed == [] && r.popped == []
  }

  /** What is queued, oldest first. */
  ghost function Queued<T>(r: Ring<T>): seq<T>
    requires r.tail <= |r.pushed|
  {
    r.pushed[r.tail..]
  }

  lemma StepKeepsRing<T>(r: Ring<T>, step: RingStep<T>)
    requires RingInv(r) && Enabled(r, step)
    ensures RingInv(Next(r, step)) && |Next(r, step).cells| == |r.cells|
  {
    hide Cell;
    var next := Next(r, step);
    forall k: nat | next.tail <= k < next.head ensures CellHolds(next, k) {
      if step.WriteCell? {
        DifferentCells(k, r.head, |r.cells|);
      }
      if k < r.head {
        assert CellHolds(r, k);
      }
    }
    if step.CopyCell? {
      assert CellHolds(r, r.tail);
    }
    if step.WriteCell? && r.tail < r.head {
      DifferentCells(r.tail, r.head, |r.cells|);
    }
  }

  /** The cell the producer writes is never the one the consumer copies. */
  lemma NoCellIsShared<T>(r: Ring<T>)
    requires RingInv(r) && r.producer.RoomSeen? && r.consumer.ItemSeen?
    ensures Cell(r.head, |r.cells|) != Cell(r.tail, |r.cells|)
  {
    DifferentCells(r.tail, r.head, |r.cells|);
  }

  /** Every step is a step of a bounded FIFO: a push takes effect where it publishes the head, a
      pop where it publishes the tail; a refused push saw a full queue and a refused pop an empty
      one. */
  lemma StepsAreFifoSteps<T>(r: Ring<T>, step: RingStep<T>)
    requires RingInv(r) && Enabled(r, step)
    ensures
      var next := Next(r, step);
      && RingInv(next)
      && |Queued(next)| <= |r.cells|
      && match step
         case PublishHead => Queued(next) == Queued(r) + [r.producer.item] && |Queued(r)| < |r.cells|
         case PublishTail =>
           Queued(r) != [] && r.consumer.item == Queued(r)[0] && Queued(next) == Queued(r)[1..]
         case LoadTail => Queued(next) == Queued(r) && (next.producer.Quiet? <==> |Queued(r)| == |r.cells|)
         case LoadHead => Queued(next) == Queued(r) && (next.consumer.Waiting? <==> Queued(r) == [])
         case _ => Queued(next) == Queued(r)
  {
    StepKeepsRing(r, step);
  }

  function Protocol<T>(): System<Ring<T>, RingStep<T>> {
    System((r: Ring<T>, step: RingStep<T>) => r.cells != [] && Enabled(r, step),
           (r: Ring<T>, step: RingStep<T>) => if r.cells != [] && Enabled(r, step) then Next(r, step) else r)
  }

  lemma RunKeepsRing<T>(r: Ring<T>, steps: seq<RingStep<T>>)
    requires RingInv(r) && Protocol<T>().IsRun(r, steps)
    ensures RingInv(Protocol<T>().After(r, steps)) && |Protocol<T>().After(r, steps).cells| == |r.cells|
    ensures r.pushed <= Protocol<T>().After(r, steps).pushed && r.popped <= Protocol<T>().After(r, steps).popped
  {
    hide RingInv;
    forall t, step | RingInv(t) && Protocol<T>().enabled(t, step)
      ensures RingInv(Protocol<T>().next(t, step)) && |Protocol<T>().next(t, step).cells| == |t.cells|
      ensures t.pushed <= Protocol<T>().next(t, step).pushed && t.popped <= Protocol<T>().next(t, step).popped
    {
      StepKeepsRing(t, step);
    }
    RunKeeps(Protocol<T>(), (t: Ring<T>) =>
      RingInv(t) && |t.cells| == |r.cells| && r.pushed <= t.pushed && r.popped <= t.popped, r, steps);
  }

  /** In every run the pops so far are a prefix of the pushes so far, and at most capacity items
      lie between. */
  lemma PopsFollowPushes<T>(r: Ring<T>, steps: seq<RingStep<T>>)
    requires Empty(r) && Protocol<T>().IsRun(r, steps)
    ensures
      var end := Protocol<T>().After(r, steps);
      end.popped <= end.pushed && |end.pushed| <= |end.popped| + |r.cells|
  {
    RunKeepsRing(r, steps);
  }

  /** DrainCommands pops until it finds the queue empty or has popped capacity times; whatever the
      producer does meanwhile, every item that was queued when it began has come out by then. */
  lemma DrainTakesAllPresent<T>(r: Ring<T>, steps: seq<RingStep<T>>)
    requires RingInv(r) && Protocol<T>().IsRun(r, steps)
    requires
      var end := Protocol<T>().After(r, steps);
      || |end.popped| == |r.popped| + |r.cells|
      || (end.consumer.TailLoaded? && end.head == end.tail)
    ensures r.pushed <= Protocol<T>().After(r, steps).popped
  {
    RunKeepsRing(r, steps);
  }
}
