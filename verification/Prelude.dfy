/** Shared vocabulary: optional values, the counting facts about finite sequences and sets that the
    graph and lifetime proofs lean on, and the cells of a ring. */
module Prelude {

  datatype Option<+T> = None | Some(value: T)

  /** The outcome of a control-side call (include/lavanda/core/status.h), without its message. */
  datatype Status = Ok | InvalidArgument | ResourceExhausted | NotOpen | UnsupportedFormat

  datatype Result<+T> = Success(value: T) | Failure(status: Status)

  function Min(a: int, b: int): int {
    if a < b then a else b
  }

  function Max(a: int, b: int): int {
    if a < b then b else a
  }

  /** No value occurs twice. */
  ghost predicate Distinct<T>(s: seq<T>) {
    forall i, j :: 0 <= i < j < |s| ==> s[i] != s[j]
  }

  ghost function Elements<T>(s: seq<T>): set<T> {
    set x | x in s
  }

  lemma {:induction false} DistinctCardinality<T>(s: seq<T>)
    requires Distinct(s)
    ensures |Elements(s)| == |s|
  {
    if s == [] {
      assert Elements(s) == {};
    } else {
      var front := s[..|s| - 1];
      var last := s[|s| - 1];
      DistinctCardinality(front);
      assert Elements(s) == Elements(front) + {last};
    }
  }

  lemma {:induction false} SubsetCardinality<T>(small: set<T>, big: set<T>)
    requires small <= big
    ensures |small| <= |big|
    ensures |small| == |big| ==> small == big
  {
    assert big == small + (big - small);
  }

  /** Pigeonhole: a sequence longer than the set it is drawn from repeats a value. */
  lemma Pigeonhole<T>(s: seq<T>, pool: set<T>)
    requires forall x :: x in s ==> x in pool
    requires |s| > |pool|
    ensures exists i, j :: 0 <= i < j < |s| && s[i] == s[j]
  {
    if Distinct(s) {
      DistinctCardinality(s);
      SubsetCardinality(Elements(s), pool);
      assert false;
    }
  }

  lemma MultisetSplit<T>(s: seq<T>, i: nat)
    requires i < |s|
    ensures multiset(s[i..]) == multiset{s[i]} + multiset(s[i + 1..])
  {
    assert s[i..] == [s[i]] + s[i + 1..];
  }

  // ---- Rings ----------------------------------------------------------------------------------

  /** The cell of a ring where the item with the given number lives. */
  function Cell(number: nat, capacity: nat): (c: nat)
    requires capacity > 0
    ensures c < capacity
  {
    number % capacity
  }

  lemma DifferentCells(tail: nat, head: nat, capacity: nat)
    requires capacity > 0 && tail < head < tail + capacity
    ensures Cell(tail, capacity) != Cell(head, capacity)
  {
    var laps := head / capacity - tail / capacity;
    assert head - tail == capacity * laps + (head % capacity - tail % capacity);
    WholeLaps(capacity, laps);
  }

  lemma WholeLaps(capacity: nat, laps: int)
    ensures laps >= 1 ==> capacity * laps >= capacity
    ensures laps <= 0 ==> capacity * laps <= 0
  {
  }
}
