/**
 * A machine processing a batch of items back to back on its own timeline
 * (src/model/simulation_example.rs): item `i` starts at `i * p` and
 * completes at `(i + 1) * p`.
 */
module Batch {
  import opened Base
  import opened Timeline

  /**
   * When item `i` starts: the running sum the loop keeps, `p` added once per
   * earlier item.
   */
  function ItemStart(i: nat, p: nat): nat
  {
    if i == 0 then 0 else ItemStart(i - 1, p) + p
  }

  /** The running sum is the product `i * p`. */
  lemma {:induction false} ItemStartIsProduct(i: nat, p: nat)
    ensures ItemStart(i, p) == i * p
  {
    if i > 0 {
      ItemStartIsProduct(i - 1, p);
      assert (i - 1) * p + p == i * p;
    }
  }

  /** Later items start no earlier. */
  lemma {:induction false} ItemStartMono(i: nat, j: nat, p: nat)
    requires i <= j
    ensures ItemStart(i, p) <= ItemStart(j, p)
    decreases j
  {
    if i < j {
      ItemStartMono(i, j - 1, p);
    }
  }

  /** The events `schedule_batch(n, p)` queues, in the order it queues them. */
  function BatchEvents(machineId: u32, n: nat, p: u32): (r: seq<Event>)
    requires n <= U32_MAX && ItemStart(n, p) <= U32_MAX
    ensures |r| == 2 * n
    decreases n
  {
    if n == 0 then []
    else
      BatchEvents(machineId, n - 1, p) +
        [Event(SimulationTime(ItemStart(n - 1, p)), ProcessStart(machineId, n - 1)),
         Event(SimulationTime(ItemStart(n - 1, p) + p), ProcessComplete(machineId, n - 1))]
  }

  /** The same events as a bag, built one item at a time. */
  function BatchQueued(machineId: u32, n: nat, p: u32): multiset<Event>
    requires n <= U32_MAX && ItemStart(n, p) <= U32_MAX
  {
    if n == 0 then multiset{}
    else
      BatchQueued(machineId, n - 1, p)
        + multiset{Event(SimulationTime(ItemStart(n - 1, p)), ProcessStart(machineId, n - 1))}
        + multiset{Event(SimulationTime(ItemStart(n - 1, p) + p), ProcessComplete(machineId, n - 1))}
  }

  /** The bag holds exactly the batch's events, two per item. */
  lemma {:induction false} BatchQueuedIsBatch(machineId: u32, n: nat, p: u32)
    requires n <= U32_MAX && ItemStart(n, p) <= U32_MAX
    ensures BatchQueued(machineId, n, p) == multiset(BatchEvents(machineId, n, p))
    ensures |BatchQueued(machineId, n, p)| == 2 * n
  {
    if n > 0 {
      BatchQueuedIsBatch(machineId, n - 1, p);
    }
  }

  /**
   * Item `i` contributes its start at `ItemStart(i, p)` and its completion
   * `p` later, in that order, both naming the machine and the item.
   */
  lemma {:induction false} BatchEventAt(machineId: u32, n: nat, p: u32, i: nat)
    requires n <= U32_MAX && ItemStart(n, p) <= U32_MAX && i < n
    ensures ItemStart(i + 1, p) <= U32_MAX
    ensures BatchEvents(machineId, n, p)[2 * i] ==
      Event(SimulationTime(ItemStart(i, p)), ProcessStart(machineId, i))
    ensures BatchEvents(machineId, n, p)[2 * i + 1] ==
      Event(SimulationTime(ItemStart(i, p) + p), ProcessComplete(machineId, i))
    decreases n
  {
    ItemStartMono(i + 1, n, p);
    if i < n - 1 {
      BatchEventAt(machineId, n - 1, p, i);
    }
  }

  /** Event `k` of the batch is at `ItemStart((k + 1) / 2, p)`; none is later than the last completion. */
  lemma BatchTimes(machineId: u32, n: nat, p: u32)
    requires n <= U32_MAX && ItemStart(n, p) <= U32_MAX
    ensures var r := BatchEvents(machineId, n, p);
      && (forall k :: 0 <= k < |r| ==> r[k].time.minutes == ItemStart((k + 1) / 2, p))
      && (forall e | e in r :: e.time.minutes <= ItemStart(n, p))
      && (n > 0 ==> r[2 * n - 1].time.minutes == ItemStart(n, p))
  {
    var r := BatchEvents(machineId, n, p);
    forall k | 0 <= k < |r|
      ensures r[k].time.minutes == ItemStart((k + 1) / 2, p)
    {
      BatchEventAt(machineId, n, p, k / 2);
      if k % 2 == 0 {
        assert k == 2 * (k / 2);
      } else {
        assert k == 2 * (k / 2) + 1;
      }
    }
    forall e | e in r
      ensures e.time.minutes <= ItemStart(n, p)
    {
      var k :| 0 <= k < |r| && r[k] == e;
      ItemStartMono((k + 1) / 2, n, p);
    }
  }

  /** The times of a sequence of events, in its order. */
  function Times(s: seq<Event>): seq<nat>
  {
    seq(|s|, i requires 0 <= i < |s| => s[i].time.minutes as nat)
  }

  predicate Ascending(a: seq<nat>)
  {
    forall i, j :: 0 <= i < j < |a| ==> a[i] <= a[j]
  }

  /** The bag of a sequence is the bag without its element at `i`, plus that element. */
  lemma MultisetRemoveAt<T>(t: seq<T>, i: nat)
    requires i < |t|
    ensures multiset(t) == multiset(t[..i] + t[i + 1..]) + multiset{t[i]}
  {
    assert t == t[..i] + [t[i]] + t[i + 1..];
  }

  /** Taking the same element out of two equal bags leaves equal bags. */
  lemma SameRemoved<T>(s: seq<T>, t: seq<T>, i: nat, j: nat)
    requires multiset(s) == multiset(t) && i < |s| && j < |t| && s[i] == t[j]
    ensures multiset(s[..i] + s[i + 1..]) == multiset(t[..j] + t[j + 1..])
  {
    MultisetRemoveAt(s, i);
    MultisetRemoveAt(t, j);
    var restS, restT := multiset(s[..i] + s[i + 1..]), multiset(t[..j] + t[j + 1..]);
    forall v
      ensures restS[v] == restT[v]
    {
      assert multiset(s)[v] == multiset(t)[v];
    }
  }

  /** Taking out the event at `i` takes one copy of its time out of the times. */
  lemma TimesRemoveAt(t: seq<Event>, i: nat)
    requires i < |t|
    ensures multiset(Times(t)) == multiset(Times(t[..i] + t[i + 1..])) + multiset{t[i].time.minutes as nat}
  {
    var before, after := t[..i], t[i + 1..];
    assert Times(t) == Times(before) + [t[i].time.minutes as nat] + Times(after);
    assert Times(before + after) == Times(before) + Times(after);
  }

  /** Reordering events reorders their times. */
  lemma {:induction false} TimesPermutation(s: seq<Event>, t: seq<Event>)
    requires multiset(s) == multiset(t)
    ensures multiset(Times(s)) == multiset(Times(t))
    decreases |s|
  {
    if s == [] {
      assert t == [] by {
        assert |t| == |multiset(t)| == 0;
      }
    } else {
      assert s[0] in multiset(t);
      var i :| 0 <= i < |t| && t[i] == s[0];
      SameRemoved(s, t, 0, i);
      TimesPermutation(s[..0] + s[1..], t[..i] + t[i + 1..]);
      TimesRemoveAt(s, 0);
      TimesRemoveAt(t, i);
    }
  }

  /** Dropping the head of an ascending sequence keeps it ascending. */
  lemma AscendingTail(a: seq<nat>)
    requires Ascending(a) && a != []
    ensures Ascending(a[1..])
  {
    forall i, l | 0 <= i < l < |a| - 1
      ensures a[1..][i] <= a[1..][l]
    {
      assert a[1..][i] == a[i + 1] && a[1..][l] == a[l + 1];
    }
  }

  /** Ascending sequences with the same elements start with the same (least) one. */
  lemma AscendingHeads(a: seq<nat>, b: seq<nat>)
    requires Ascending(a) && Ascending(b) && multiset(a) == multiset(b) && a != []
    ensures b != [] && a[0] == b[0]
  {
    assert a[0] in multiset(b);
    var j :| 0 <= j < |b| && b[j] == a[0];
    assert b[0] in multiset(a);
    var k :| 0 <= k < |a| && a[k] == b[0];
    assert b[0] <= b[j] && a[0] <= a[k];
  }

  /** Sequences with the same elements and the same head have tails with the same elements. */
  lemma SameTails(a: seq<nat>, b: seq<nat>)
    requires multiset(a) == multiset(b) && a != [] && b != [] && a[0] == b[0]
    ensures multiset(a[1..]) == multiset(b[1..])
  {
    SameRemoved(a, b, 0, 0);
    assert a[..0] + a[1..] == a[1..];
    assert b[..0] + b[1..] == b[1..];
  }

  /** Two ascending sequences with the same elements are the same sequence. */
  lemma {:induction false} AscendingUnique(a: seq<nat>, b: seq<nat>)
    requires Ascending(a) && Ascending(b) && multiset(a) == multiset(b)
    ensures a == b
    decreases |a|
  {
    if a == [] {
      assert |b| == |multiset(b)| == 0;
    } else {
      AscendingHeads(a, b);
      SameTails(a, b);
      AscendingTail(a);
      AscendingTail(b);
      AscendingUnique(a[1..], b[1..]);
      assert a == [a[0]] + a[1..];
      assert b == [b[0]] + b[1..];
    }
  }

  /** The batch is queued in time order already. */
  lemma BatchInOrder(machineId: u32, n: nat, p: u32)
    requires n <= U32_MAX && ItemStart(n, p) <= U32_MAX
    ensures NonDecreasing(BatchEvents(machineId, n, p))
  {
    var r := BatchEvents(machineId, n, p);
    BatchTimes(machineId, n, p);
    forall i, j | 0 <= i < j < |r|
      ensures r[i].time.minutes <= r[j].time.minutes
    {
      ItemStartMono((i + 1) / 2, (j + 1) / 2, p);
    }
  }

  /** The times of events in time order are ascending. */
  lemma TimesAscending(s: seq<Event>)
    requires NonDecreasing(s)
    ensures Ascending(Times(s))
  {
    forall i, j | 0 <= i < j < |s|
      ensures Times(s)[i] <= Times(s)[j]
    {
      assert s[i].time.minutes <= s[j].time.minutes;
    }
  }

  /**
   * Any ascending delivery of a batch's events sees exactly the batch's times
   * in the order they were scheduled: `0, p, p, 2p, 2p, …, n * p`.
   */
  lemma DeliveredBatchTimes(trace: seq<Event>, machineId: u32, n: nat, p: u32)
    requires n <= U32_MAX && ItemStart(n, p) <= U32_MAX
    requires NonDecreasing(trace) && multiset(trace) == multiset(BatchEvents(machineId, n, p))
    ensures Times(trace) == Times(BatchEvents(machineId, n, p))
  {
    var r := BatchEvents(machineId, n, p);
    BatchInOrder(machineId, n, p);
    TimesAscending(r);
    TimesAscending(trace);
    TimesPermutation(trace, r);
    AscendingUnique(Times(trace), Times(r));
  }

  /** A queue `q` that holds `q0` plus the events of the first `i` items. */
  ghost predicate QueuedSoFar(q: multiset<Event>, q0: multiset<Event>, machineId: u32, i: nat, p: u32)
  {
    i <= U32_MAX && ItemStart(i, p) <= U32_MAX && q == q0 + BatchQueued(machineId, i, p)
  }

  lemma QueuedStep(q0: multiset<Event>, q: multiset<Event>, machineId: u32, i: nat, p: u32)
    requires i < U32_MAX && ItemStart(i + 1, p) <= U32_MAX
    requires q == q0 + BatchQueued(machineId, i, p)
    ensures q + multiset{Event(SimulationTime(ItemStart(i, p)), ProcessStart(machineId, i))}
              + multiset{Event(SimulationTime(ItemStart(i, p) + p), ProcessComplete(machineId, i))}
            == q0 + BatchQueued(machineId, i + 1, p)
  {
  }

  /**
   * One round of the batch loop: queues item `itemId`'s start at `startAt`
   * and its completion `p` minutes later.
   */
  method ScheduleItem(sim: Simulator, ghost q0: multiset<Event>, machineId: u32, itemId: u32, startAt: u32, p: u32, ghost n: nat)
    requires itemId < n <= U32_MAX && ItemStart(n, p) <= U32_MAX
    requires startAt == ItemStart(itemId, p)
    requires QueuedSoFar(sim.eventQueue, q0, machineId, itemId, p)
    modifies sim
    ensures startAt + p == ItemStart(itemId + 1, p) <= U32_MAX
    ensures QueuedSoFar(sim.eventQueue, q0, machineId, itemId + 1, p)
    ensures sim.currentTime == old(sim.currentTime)
  {
    ItemStartMono(itemId + 1, n, p);
    ghost var q := sim.eventQueue;
    sim.ScheduleEvent(SimulationTime(startAt), ProcessStart(machineId, itemId));
    sim.ScheduleEvent(SimulationTime(startAt + p), ProcessComplete(machineId, itemId));
    QueuedStep(q0, q, machineId, itemId as nat, p);
  }

  /** One machine's own timeline, as in the example. */
  class MachineSimulator {
    var simulator: Simulator
    var machineId: u32

    /** A machine with a fresh simulator: clock at 0, nothing queued. */
    constructor (machineId: u32)
      ensures this.machineId == machineId && fresh(simulator)
      ensures simulator.currentTime == SimulationTime(0) && simulator.eventQueue == multiset{}
    {
      simulator := new Simulator();
      this.machineId := machineId;
    }

    /**
     * Queues a start and a completion for each of `numItems` items of
     * `processTime` minutes, each item starting when the previous one
     * completes; the clock does not move.
     */
    method ScheduleBatch(numItems: u32, processTime: u32)
      requires ItemStart(numItems, processTime) <= U32_MAX
      modifies simulator
      ensures simulator.eventQueue == old(simulator.eventQueue) + BatchQueued(machineId, numItems, processTime)
      ensures simulator.currentTime == old(simulator.currentTime)
    {
      var sim := simulator;
      ghost var q0 := sim.eventQueue;
      ghost var t0 := sim.currentTime;
      var currentTime: u32 := 0;
      var itemId: u32 := 0;
      while itemId < numItems
        invariant itemId <= numItems
        invariant currentTime == ItemStart(itemId, processTime)
        invariant QueuedSoFar(sim.eventQueue, q0, machineId, itemId, processTime)
        invariant sim.currentTime == t0
      {
        ScheduleItem(sim, q0, machineId, itemId, currentTime, processTime, numItems as nat);
        currentTime := currentTime + processTime;
        itemId := itemId + 1;
      }
    }

    function TotalTimeMinutes(): u32
      reads this, simulator
    {
      simulator.ElapsedTime()
    }
  }

  /**
   * A fresh machine runs a batch to the end: every one of the `2 * n` events
   * is delivered, their times are the batch's times in scheduled order, and
   * the total time is `n * p`.
   */
  method RunBatch(machineId: u32, n: u32, p: u32) returns (trace: seq<Event>, total: u32)
    requires n * p <= U32_MAX
    ensures ItemStart(n, p) == n * p
    ensures multiset(trace) == multiset(BatchEvents(machineId, n, p))
    ensures |trace| == 2 * n
    ensures Times(trace) == Times(BatchEvents(machineId, n, p))
    ensures total == n * p
  {
    ItemStartIsProduct(n, p);
    var machine := new MachineSimulator(machineId);
    machine.ScheduleBatch(n, p);
    BatchQueuedIsBatch(machineId, n, p);
    trace := machine.simulator.RunAll();
    total := machine.TotalTimeMinutes();
    ghost var batch := BatchEvents(machineId, n, p);
    DeliveredBatchTimes(trace, machineId, n, p);
    assert Times(trace) == Times(batch);
    BatchTimes(machineId, n, p);
    assert |trace| == |multiset(trace)| == 2 * n;
    if n > 0 {
      assert Times(trace)[2 * n - 1] == n * p;
    }
  }

  /** The times of three items of 10 minutes, as scheduled. */
  lemma ThreeByTen()
    ensures Times(BatchEvents(0, 3, 10)) == [0, 10, 10, 20, 20, 30]
  {
    var r := BatchEvents(0, 3, 10);
    BatchTimes(0, 3, 10);
    forall k | 0 <= k < 6
      ensures Times(r)[k] == [0, 10, 10, 20, 20, 30][k]
    {
    }
  }

  /** Three items of 10 minutes: events at 0, 10, 10, 20, 20, 30, done at 30. */
  method ProcessingBatchTimeline() returns (times: seq<nat>, total: u32)
    ensures times == [0, 10, 10, 20, 20, 30] && total == 30
  {
    var trace;
    trace, total := RunBatch(0, 3, 10);
    times := Times(trace);
    ThreeByTen();
  }

  /** Three items of 10 minutes and two of 15 both finish at 30. */
  method MultipleMachinesTimeline() returns (timeA: u32, timeB: u32)
    ensures timeA == 30 && timeB == 30
  {
    var traceA, traceB;
    traceA, timeA := RunBatch(0, 3, 10);
    traceB, timeB := RunBatch(1, 2, 15);
  }
}
