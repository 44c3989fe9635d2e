/** The audio thread's event heap (src/lavanda/runtime/event_scheduler.cc), refined to a queue kept
    in execution order. The heap steps are those std::push_heap and std::pop_heap stand for:
    section 25.8.8 of ISO C++20 fixes their effect, not their swaps. */
module Scheduling {
  import opened Prelude

  datatype ScheduledEvent<+C> = ScheduledEvent(target: nat, sequence: nat, command: C)

  /** The comparison of the heap: a runs after b. */
  predicate Later<C>(a: ScheduledEvent<C>, b: ScheduledEvent<C>) {
    if a.target != b.target then a.target > b.target else a.sequence > b.sequence
  }

  // ---- The queue the heap stands for ------------------------------------------------------------

  ghost predicate InOrder<C>(queue: seq<ScheduledEvent<C>>) {
    forall i, j :: 0 <= i < j < |queue| ==> Later(queue[j], queue[i])
  }

  ghost predicate AllBelow<C>(queue: seq<ScheduledEvent<C>>, sequence: nat) {
    forall i :: 0 <= i < |queue| ==> queue[i].sequence < sequence
  }

  /** Where an event with a fresh sequence number goes: behind everything due at its frame or
      earlier. */
  function Inserted<C>(queue: seq<ScheduledEvent<C>>, event: ScheduledEvent<C>): seq<ScheduledEvent<C>> {
    if queue == [] then [event]
    else if queue[0].target <= event.target then [queue[0]] + Inserted(queue[1..], event)
    else [event] + queue
  }

  lemma PrependInOrder<C>(first: ScheduledEvent<C>, rest: seq<ScheduledEvent<C>>)
    requires InOrder(rest) && forall x :: x in rest ==> Later(x, first)
    ensures InOrder([first] + rest)
  {
    var all := [first] + rest;
    forall i, j | 0 <= i < j < |all| ensures Later(all[j], all[i]) {
      assert all[j] == rest[j - 1];
      if i == 0 {
        assert all[j] in rest;
      } else {
        assert all[i] == rest[i - 1];
      }
    }
  }

  lemma TailInOrder<C>(queue: seq<ScheduledEvent<C>>)
    requires InOrder(queue) && queue != []
    ensures InOrder(queue[1..]) && forall x :: x in queue[1..] ==> Later(x, queue[0])
  {
    forall i, j | 0 <= i < j < |queue[1..]| ensures Later(queue[1..][j], queue[1..][i]) {
      assert Later(queue[j + 1], queue[i + 1]);
    }
    forall x | x in queue[1..] ensures Later(x, queue[0]) {
      var k :| 0 <= k < |queue[1..]| && queue[1..][k] == x;
      assert Later(queue[k + 1], queue[0]);
    }
  }

  /** Insertion adds exactly the event. */
  lemma {:induction false} InsertedContents<C>(queue: seq<ScheduledEvent<C>>, event: ScheduledEvent<C>)
    ensures multiset(Inserted(queue, event)) == multiset(queue) + multiset{event}
    ensures forall x :: x in Inserted(queue, event) <==> x in queue || x == event
  {
    if queue != [] {
      assert queue == [queue[0]] + queue[1..];
      if queue[0].target <= event.target {
        InsertedContents(queue[1..], event);
      }
    }
  }

  lemma {:induction false} InsertedLength<C>(queue: seq<ScheduledEvent<C>>, event: ScheduledEvent<C>)
    ensures |Inserted(queue, event)| == |queue| + 1
  {
    if queue != [] {
      InsertedLength(queue[1..], event);
    }
  }

  /** Insertion keeps execution order: no event overtakes one submitted earlier for the same
      frame. */
  lemma {:induction false} InsertedInOrder<C>(queue: seq<ScheduledEvent<C>>, event: ScheduledEvent<C>)
    requires InOrder(queue) && AllBelow(queue, event.sequence)
    ensures InOrder(Inserted(queue, event))
  {
    if queue != [] {
      TailInOrder(queue);
      if queue[0].target <= event.target {
        var rest := queue[1..];
        assert AllBelow(rest, event.sequence) by {
          forall i | 0 <= i < |rest| ensures rest[i].sequence < event.sequence {
            assert rest[i] == queue[i + 1];
          }
        }
        InsertedInOrder(rest, event);
        InsertedContents(rest, event);
        assert Later(event, queue[0]);
        var longer := Inserted(rest, event);
        forall x | x in longer ensures Later(x, queue[0]) {
          assert x in multiset(longer);
          assert x in rest || x == event;
        }
        PrependInOrder(queue[0], longer);
      } else {
        forall x | x in queue ensures Later(x, event) {
          if x != queue[0] {
            assert x in queue[1..];
          }
        }
        PrependInOrder(event, queue);
      }
    }
  }

  // ---- The array heap -------------------------------------------------------------------------

  function Parent(i: nat): nat
    requires i > 0
  {
    (i - 1) / 2
  }

  ghost predicate ParentFirst<C>(h: seq<ScheduledEvent<C>>, i: nat)
    requires 0 < i < |h|
  {
    !Later(h[Parent(i)], h[i])
  }

  ghost predicate IsHeap<C>(h: seq<ScheduledEvent<C>>) {
    forall i :: 0 < i < |h| ==> ParentFirst(h, i)
  }

  lemma {:induction false} RootIsFirst<C>(h: seq<ScheduledEvent<C>>, i: nat)
    requires IsHeap(h) && i < |h|
    ensures !Later(h[0], h[i])
  {
    if i > 0 {
      assert ParentFirst(h, i);
      RootIsFirst(h, Parent(i));
    }
  }

  /** The root of a heap is the head of the queue with the same events. */
  lemma RootIsHead<C>(h: seq<ScheduledEvent<C>>, queue: seq<ScheduledEvent<C>>)
    requires IsHeap(h) && InOrder(queue) && multiset(h) == multiset(queue) && h != []
    ensures queue != [] && h[0] == queue[0]
  {
    assert h[0] in multiset(queue);
    assert |multiset(queue)| == |queue|;
    assert queue[0] in multiset(h);
    var i :| 0 <= i < |h| && h[i] == queue[0];
    RootIsFirst(h, i);
    var j :| 0 <= j < |queue| && queue[j] == h[0];
  }

  /** A heap but for position i, which may come before its parent. */
  ghost predicate HeapButUp<C>(h: seq<ScheduledEvent<C>>, i: nat) {
    && i < |h|
    && (forall k :: 0 < k < |h| && k != i ==> ParentFirst(h, k))
    && (i > 0 ==> forall k :: 0 < k < |h| && Parent(k) == i ==> !Later(h[Parent(i)], h[k]))
  }

  /** A heap but for position i, which may come after its children. */
  ghost predicate HeapButDown<C>(h: seq<ScheduledEvent<C>>, i: nat) {
    && (forall k :: 0 < k < |h| && Parent(k) != i ==> ParentFirst(h, k))
    && (0 < i < |h| ==> forall k :: 0 < k < |h| && Parent(k) == i ==> !Later(h[Parent(i)], h[k]))
  }

  function Swapped<T>(h: seq<T>, i: nat, j: nat): seq<T>
    requires i < |h| && j < |h|
  {
    h[i := h[j]][j := h[i]]
  }

  lemma SwappedMultiset<T>(h: seq<T>, i: nat, j: nat)
    requires i < |h| && j < |h|
    ensures multiset(Swapped(h, i, j)) == multiset(h)
  {
  }

  /** Moving an early event up past its parent. */
  lemma SwapUp<C>(h: seq<ScheduledEvent<C>>, i: nat)
    requires 0 < i < |h| && HeapButUp(h, i) && Later(h[Parent(i)], h[i])
    ensures HeapButUp(Swapped(h, i, Parent(i)), Parent(i))
  {
    var p := Parent(i);
    var s := Swapped(h, i, p);
    forall k | 0 < k < |s| && k != p ensures ParentFirst(s, k) {
      if k != i {
        assert ParentFirst(h, k);
        if Parent(k) == p && p > 0 {
          assert ParentFirst(h, k);
        }
      }
    }
    if p > 0 {
      assert ParentFirst(h, p);
      forall k | 0 < k < |s| && Parent(k) == p ensures !Later(s[Parent(p)], s[k]) {
        if k != i {
          assert ParentFirst(h, k);
        }
      }
    }
  }

  /** Moving a late event down past the earlier of its children. */
  lemma SwapDown<C>(h: seq<ScheduledEvent<C>>, i: nat, c: nat)
    requires i < |h| && 0 < c < |h| && Parent(c) == i && HeapButDown(h, i) && Later(h[i], h[c])
    requires forall k :: 0 < k < |h| && Parent(k) == i ==> !Later(h[c], h[k])
    ensures HeapButDown(Swapped(h, i, c), c)
  {
    var s := Swapped(h, i, c);
    forall k | 0 < k < |s| && Parent(k) != c ensures ParentFirst(s, k) {
      if Parent(k) != i && k != i {
        assert ParentFirst(h, k);
      } else if k == i {
        assert Parent(i) != i;
      }
    }
    forall k | 0 < k < |s| && Parent(k) == c ensures !Later(s[Parent(c)], s[k]) {
      assert Parent(k) != i;
      assert ParentFirst(h, k);
    }
  }

  method SwapCells<C>(heap: array<ScheduledEvent<C>>, size: nat, i: nat, j: nat)
    requires i < size <= heap.Length && j < size
    modifies heap
    ensures heap[..size] == Swapped(old(heap[..size]), i, j)
    ensures multiset(heap[..size]) == multiset(old(heap[..size])) && heap[size..] == old(heap[size..])
  {
    SwappedMultiset(heap[..size], i, j);
    heap[i], heap[j] := heap[j], heap[i];
    assert heap[..size] == Swapped(old(heap[..size]), i, j);
  }

  method SiftUp<C>(heap: array<ScheduledEvent<C>>, size: nat)
    requires 0 < size <= heap.Length && IsHeap(heap[..size - 1])
    modifies heap
    ensures IsHeap(heap[..size]) && multiset(heap[..size]) == multiset(old(heap[..size]))
  {
    hide HeapButUp, IsHeap, Later;
    var i: nat := size - 1;
    assert heap[..size][..size - 1] == heap[..size - 1];
    LastMayBeEarly(heap[..size]);
    while i > 0 && Later(heap[Parent(i)], heap[i])
      invariant i < size && HeapButUp(heap[..size], i)
      invariant multiset(heap[..size]) == multiset(old(heap[..size]))
    {
      ghost var h := heap[..size];
      SwapUp(h, i);
      SwapCells(heap, size, i, Parent(i));
      i := Parent(i);
    }
    UpIsHeap(heap[..size], i);
  }

  lemma LastMayBeEarly<C>(h: seq<ScheduledEvent<C>>)
    requires |h| > 0 && IsHeap(h[..|h| - 1])
    ensures HeapButUp(h, |h| - 1)
  {
    forall k | 0 < k < |h| && k != |h| - 1 ensures ParentFirst(h, k) {
      assert ParentFirst(h[..|h| - 1], k);
    }
  }

  lemma UpIsHeap<C>(h: seq<ScheduledEvent<C>>, i: nat)
    requires HeapButUp(h, i) && (i == 0 || ParentFirst(h, i))
    ensures IsHeap(h)
  {
  }

  /** The child that runs first. */
  method EarlierChild<C>(heap: array<ScheduledEvent<C>>, size: nat, i: nat) returns (c: nat)
    requires 2 * i + 1 < size <= heap.Length
    ensures 0 < c < size && Parent(c) == i
    ensures forall k :: 0 < k < size && Parent(k) == i ==> !Later(heap[..size][c], heap[..size][k])
  {
    c := 2 * i + 1;
    if c + 1 < size && Later(heap[c], heap[c + 1]) {
      c := c + 1;
    }
    assert forall k :: 0 < k < size && Parent(k) == i ==> k == 2 * i + 1 || k == 2 * i + 2;
  }

  method SiftDown<C>(heap: array<ScheduledEvent<C>>, size: nat)
    requires size <= heap.Length && HeapButDown(heap[..size], 0)
    modifies heap
    ensures IsHeap(heap[..size]) && multiset(heap[..size]) == multiset(old(heap[..size]))
    ensures heap[size..] == old(heap[size..])
  {
    hide HeapButDown, IsHeap;
    var i: nat := 0;
    while 2 * i + 1 < size
      invariant HeapButDown(heap[..size], i)
      invariant multiset(heap[..size]) == multiset(old(heap[..size])) && heap[size..] == old(heap[size..])
      decreases size - i
    {
      var c := EarlierChild(heap, size, i);
      ghost var h := heap[..size];
      if !Later(heap[i], heap[c]) {
        DownIsHeap(h, i, c);
        return;
      }
      SwapDown(h, i, c);
      SwapCells(heap, size, i, c);
      i := c;
    }
    LeafIsHeap(heap[..size], i);
  }

  lemma DownIsHeap<C>(h: seq<ScheduledEvent<C>>, i: nat, c: nat)
    requires i < |h| && c < |h| && HeapButDown(h, i) && !Later(h[i], h[c])
    requires forall k :: 0 < k < |h| && Parent(k) == i ==> !Later(h[c], h[k])
    ensures IsHeap(h)
  {
  }

  lemma LeafIsHeap<C>(h: seq<ScheduledEvent<C>>, i: nat)
    requires HeapButDown(h, i) && 2 * i + 1 >= |h|
    ensures IsHeap(h)
  {
    forall k | 0 < k < |h| ensures ParentFirst(h, k) {
      assert Parent(k) != i;
    }
  }

  /** std::pop_heap: the root goes behind the heap of the others. */
  method TakeRoot<C>(heap: array<ScheduledEvent<C>>, size: nat, ghost queue: seq<ScheduledEvent<C>>)
    requires 0 < size <= heap.Length && IsHeap(heap[..size])
    requires queue != [] && heap[0] == queue[0] && multiset(heap[..size]) == multiset(queue)
    modifies heap
    ensures IsHeap(heap[..size - 1]) && heap[size - 1] == queue[0]
    ensures multiset(heap[..size - 1]) == multiset(queue[1..])
  {
    hide IsHeap, HeapButDown, Swapped, Later;
    ghost var h := heap[..size];
    SwapCells(heap, size, 0, size - 1);
    ghost var swapped := heap[..size];
    RootBehind(h, swapped, queue);
    assert heap[..size - 1] == swapped[..size - 1];
    ghost var behind := heap[size - 1..];
    assert behind[0] == swapped[size - 1];
    SiftDown(heap, size - 1);
    assert heap[size - 1] == behind[0];
  }

  class EventScheduler<C> {
    const heap: array<ScheduledEvent<C>>
    var size: nat
    var nextSequence: nat
    /** The pending events in execution order. */
    ghost var queue: seq<ScheduledEvent<C>>

    ghost predicate Valid()
      reads this, heap
    {
      && size <= heap.Length
      && IsHeap(heap[..size])
      && multiset(heap[..size]) == multiset(queue)
      && InOrder(queue) && AllBelow(queue, nextSequence)
    }

    constructor (capacity: nat, fill: C)
      ensures Valid() && fresh(heap) && heap.Length == capacity && queue == []
    {
      heap := new ScheduledEvent<C>[capacity](_ => ScheduledEvent(0, 0, fill));
      size, nextSequence, queue := 0, 0, [];
    }

    /** A full heap refuses; otherwise the event joins the queue at its place. */
    method Push(target: nat, command: C) returns (ok: bool)
      requires Valid()
      modifies this, heap
      ensures Valid()
      ensures ok <==> |old(queue)| < heap.Length
      ensures queue == if ok then Inserted(old(queue), ScheduledEvent(target, old(nextSequence), command)) else old(queue)
      ensures nextSequence == if ok then old(nextSequence) + 1 else old(nextSequence)
    {
      SizeIsLength();
      if size >= heap.Length {
        return false;
      }
      var event := ScheduledEvent(target, nextSequence, command);
      ghost var before := heap[..size];
      heap[size] := event;
      nextSequence := nextSequence + 1;
      size := size + 1;
      assert heap[..size - 1] == before && heap[..size] == before + [event];
      InsertedInOrder(queue, event);
      InsertedContents(queue, event);
      InsertedBelow(queue, event);
      queue := Inserted(queue, event);
      SiftUp(heap, size);
      return true;
    }

    lemma SizeIsLength()
      requires Valid()
      ensures size == |queue|
    {
      assert |multiset(heap[..size])| == |multiset(queue)|;
    }

    method PeekNextTarget() returns (target: Option<nat>)
      requires Valid()
      ensures target == if queue == [] then None else Some(queue[0].target)
    {
      SizeIsLength();
      if size == 0 {
        return None;
      }
      RootIsHead(heap[..size], queue);
      return Some(heap[0].target);
    }

    /** Takes the head of the queue exactly when it is due. */
    method PopDue(frame: nat) returns (event: Option<ScheduledEvent<C>>)
      requires Valid()
      modifies this`size, this`queue, heap
      ensures Valid()
      ensures event.Some? <==> old(queue) != [] && old(queue)[0].target <= frame
      ensures event.Some? ==> event.value == old(queue)[0] && queue == old(queue)[1..]
      ensures event.None? ==> queue == old(queue)
    {
      hide IsHeap, InOrder, AllBelow, HeapButDown;
      SizeIsLength();
      if size == 0 {
        return None;
      }
      RootIsHead(heap[..size], queue);
      if heap[0].target > frame {
        return None;
      }
      TailInOrder(queue);
      TailBelow(queue, nextSequence);
      TakeRoot(heap, size, queue);
      size := size - 1;
      event := Some(heap[size]);
      queue := queue[1..];
    }

    method Clear()
      requires Valid()
      modifies this`size, this`queue
      ensures Valid() && queue == []
    {
      size, queue := 0, [];
    }
  }

  lemma InsertedBelow<C>(queue: seq<ScheduledEvent<C>>, event: ScheduledEvent<C>)
    requires AllBelow(queue, event.sequence)
    ensures AllBelow(Inserted(queue, event), event.sequence + 1)
  {
    InsertedContents(queue, event);
    var after := Inserted(queue, event);
    forall i | 0 <= i < |after| ensures after[i].sequence < event.sequence + 1 {
      assert after[i] in after;
    }
  }

  lemma TailBelow<C>(queue: seq<ScheduledEvent<C>>, sequence: nat)
    requires AllBelow(queue, sequence) && queue != []
    ensures AllBelow(queue[1..], sequence)
  {
  }

  lemma TailContents<C>(h: seq<ScheduledEvent<C>>, rest: seq<ScheduledEvent<C>>, queue: seq<ScheduledEvent<C>>)
    requires h != [] && queue != [] && h[0] == queue[0] && multiset(h) == multiset(queue)
    requires multiset(h) == multiset(rest) + multiset{h[0]}
    ensures multiset(rest) == multiset(queue[1..])
  {
    assert queue == [queue[0]] + queue[1..];
    assert multiset(queue) - multiset{queue[0]} == multiset(queue[1..]);
    assert multiset(h) - multiset{h[0]} == multiset(rest);
  }

  /** Swapping the ends puts the queue's head behind what the heap has to become. */
  lemma RootBehind<C>(h: seq<ScheduledEvent<C>>, swapped: seq<ScheduledEvent<C>>, queue: seq<ScheduledEvent<C>>)
    requires h != [] && IsHeap(h) && swapped == Swapped(h, 0, |h| - 1)
    requires queue != [] && h[0] == queue[0] && multiset(h) == multiset(queue)
    ensures |swapped| == |h| && HeapButDown(swapped[..|h| - 1], 0) && swapped[|h| - 1] == queue[0]
    ensures multiset(swapped[..|h| - 1]) == multiset(queue[1..])
  {
    hide IsHeap, HeapButDown;
    RootTaken(h, swapped[..|h| - 1]);
    TailContents(h, swapped[..|h| - 1], queue);
  }

  /** The root swapped with the last event and cut off. */
  lemma RootTaken<C>(h: seq<ScheduledEvent<C>>, rest: seq<ScheduledEvent<C>>)
    requires h != [] && IsHeap(h) && |rest| == |h| - 1
    requires forall i :: 0 <= i < |rest| ==> rest[i] == if i == 0 then h[|h| - 1] else h[i]
    ensures HeapButDown(rest, 0) && multiset(h) == multiset(rest) + multiset{h[0]}
  {
    forall k | 0 < k < |rest| && Parent(k) != 0 ensures ParentFirst(rest, k) {
      assert ParentFirst(h, k);
    }
    if |h| == 1 {
      assert h == [h[0]] && rest == [];
    } else {
      assert rest == [h[|h| - 1]] + h[1..|h| - 1];
      assert h == [h[0]] + h[1..|h| - 1] + [h[|h| - 1]];
    }
  }
}
