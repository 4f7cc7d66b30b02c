/** The age counters used by both the TLB and the page table. Every update stamps one slot and
    ages all slots in use by one; when all slots are in use the oldest is overwritten. The closed
    form below says what this amounts to: slots are filled round robin, and a slot's age is the
    number of updates since it was filled. */
module AgeRing {
  import opened RoundRobin

  function Occupied(updates: nat, size: nat): nat {
    if updates < size then updates else size
  }

  /** How many updates ago slot i was filled, after the given number of updates. */
  function Age(updates: nat, size: nat, i: nat): (a: nat)
    requires i < Occupied(updates, size)
    ensures 1 <= a <= Occupied(updates, size)
  {
    var hand := updates % size;
    assert updates < size ==> hand == updates;
    if i < hand then hand - i else hand + size - i
  }

  /** The slot that was filled the given number of updates ago. */
  function SlotOfAge(updates: nat, size: nat, a: nat): (i: nat)
    requires 1 <= a <= Occupied(updates, size)
    ensures i < Occupied(updates, size) && Age(updates, size, i) == a
  {
    var hand := updates % size;
    assert updates < size ==> hand == updates;
    if a <= hand then hand - a else hand + size - a
  }

  /** One update: the slot under the hand becomes the youngest, all others grow one older. */
  lemma AgeAfterUpdate(updates: nat, size: nat, i: nat)
    requires size > 0 && i < Occupied(updates + 1, size)
    ensures i == updates % size ==> Age(updates + 1, size, i) == 1
    ensures i != updates % size ==>
              i < Occupied(updates, size) && Age(updates + 1, size, i) == Age(updates, size, i) + 1
  {
    NextHand(updates, size);
    assert updates < size ==> updates % size == updates;
  }

  /** What slot i contains, when `log` lists all updates made so far. */
  function Slot<T>(log: seq<T>, size: nat, i: nat): (x: T)
    requires i < Occupied(|log|, size)
    ensures x in log
  {
    log[|log| - Age(|log|, size, i)]
  }

  /** An update replaces the contents of exactly one slot, the next in turn. */
  lemma SlotAfterUpdate<T>(log: seq<T>, x: T, size: nat, i: nat)
    requires size > 0 && i < Occupied(|log| + 1, size)
    ensures i == |log| % size ==> Slot(log + [x], size, i) == x
    ensures i != |log| % size ==> i < Occupied(|log|, size) && Slot(log + [x], size, i) == Slot(log, size, i)
  {
    AgeAfterUpdate(|log|, size, i);
  }

  /** A slot holds what the last of its own turns put there: update l goes to slot l mod size. */
  lemma {:induction false} SlotHoldsItsLastTurn<T>(log: seq<T>, size: nat, i: nat) returns (j: nat)
    requires i < Occupied(|log|, size)
    ensures j < |log| && j % size == i && Slot(log, size, i) == log[j]
    ensures forall l: nat :: j < l < |log| ==> l % size != i
    decreases |log|
  {
    var n := |log| - 1;
    assert log == log[..n] + [log[n]];
    SlotAfterUpdate(log[..n], log[n], size, i);
    if i == n % size {
      j := n;
    } else {
      j := SlotHoldsItsLastTurn(log[..n], size, i);
    }
  }

  /** The updates that are still in a slot: the last `size` of them. */
  function Live<T>(log: seq<T>, size: nat): seq<T> {
    log[|log| - Occupied(|log|, size)..]
  }

  lemma SlotsHoldLiveUpdates<T>(log: seq<T>, size: nat)
    ensures forall i :: 0 <= i < Occupied(|log|, size) ==> Slot(log, size, i) in Live(log, size)
    ensures forall x :: x in Live(log, size) ==> exists i :: 0 <= i < Occupied(|log|, size) && Slot(log, size, i) == x
  {
    var live := Live(log, size);
    forall i | 0 <= i < Occupied(|log|, size)
      ensures Slot(log, size, i) in live
    {
      assert Slot(log, size, i) == live[|live| - Age(|log|, size, i)];
    }
    forall x | x in live
      ensures exists i :: 0 <= i < Occupied(|log|, size) && Slot(log, size, i) == x
    {
      var k :| 0 <= k < |live| && live[k] == x;
      assert Slot(log, size, SlotOfAge(|log|, size, |live| - k)) == x;
    }
  }

  ghost predicate AgesFit(ages: seq<int>, count: nat, updates: nat) {
    && count == Occupied(updates, |ages|)
    && forall i :: 0 <= i < |ages| ==> ages[i] == if i < count then Age(updates, |ages|, i) else 0
  }

  /** The ages in use are always exactly 1, ..., count, each once: they never overflow. */
  lemma AgesArePermutation(ages: seq<int>, count: nat, updates: nat)
    requires AgesFit(ages, count, updates)
    ensures forall i :: 0 <= i < count ==> 1 <= ages[i] <= count
    ensures forall i, j :: 0 <= i < j < count ==> ages[i] != ages[j]
    ensures forall a :: 1 <= a <= count ==> a in ages[..count]
  {
    forall a | 1 <= a <= count
      ensures a in ages[..count]
    {
      var i := SlotOfAge(updates, |ages|, a);
      assert ages[..count][i] == a;
    }
  }

  /** The scan for the eviction victim: the last slot of greatest age. */
  method FindOldest(ages: array<int>, ghost updates: nat) returns (oldest: nat)
    requires ages.Length > 0 && AgesFit(ages[..], ages.Length, updates)
    ensures oldest == updates % ages.Length
  {
    var max := 0;
    oldest := 0;
    for i := 0 to ages.Length
      invariant oldest < ages.Length
      invariant i > 0 ==> oldest < i && max == ages[oldest]
      invariant i == 0 ==> max == 0
      invariant forall k :: 0 <= k < i ==> ages[k] <= max
    {
      assert ages[i] == ages[..][i];
      if ages[i] >= max {
        max := ages[i];
        oldest := i;
      }
    }
    ghost var hand := updates % ages.Length;
    assert ages[..][hand] == ages.Length;
    assert ages[..][oldest] == ages[oldest] >= ages[hand];
  }

  /** The loop that ends every update. */
  method AgeAll(ages: array<int>, count: nat)
    requires count <= ages.Length
    modifies ages
    ensures forall i :: 0 <= i < ages.Length ==> ages[i] == old(ages[i]) + if i < count then 1 else 0
  {
    for i := 0 to count
      invariant forall k :: 0 <= k < ages.Length ==> ages[k] == old(ages[k]) + if k < i then 1 else 0
    {
      ages[i] := ages[i] + 1;
    }
  }

  /** Stamping the slot under the hand with age 0 and then ageing everything is one update. */
  lemma StampAndAge(before: seq<int>, after: seq<int>, count: nat, updates: nat)
    requires |before| == |after| > 0 && AgesFit(before, count, updates)
    requires forall i :: 0 <= i < |after| ==>
               after[i] == if i < Occupied(updates + 1, |after|)
                           then 1 + (if i == updates % |after| then 0 else before[i])
                           else before[i]
    ensures AgesFit(after, Occupied(updates + 1, |after|), updates + 1)
  {
    forall i | 0 <= i < |after|
      ensures after[i] == if i < Occupied(updates + 1, |after|) then Age(updates + 1, |after|, i) else 0
    {
      if i < Occupied(updates + 1, |after|) {
        AgeAfterUpdate(updates, |after|, i);
      }
    }
  }
}
