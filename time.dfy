/**
 * The simulated clock and the event timeline (src/model/time.rs).
 *
 * The source keeps its events in a `BinaryHeap` whose `Ord` compares event
 * times only and in reverse, so that the heap's greatest element is an event
 * of earliest time.  The model keeps the heap's contents as a multiset and
 * lets `pop` return SOME greatest element: the order among events of equal
 * time is deliberately left open, as it is in the source.
 */
module Timeline {
  import opened Base

  /** A point on the simulated clock, in minutes since the start. */
  datatype SimulationTime = SimulationTime(minutes: u32) {

    function AsMinutes(): (m: u32)
      ensures SimulationTime(m) == this
    {
      minutes
    }

    /** Time from this point to `other`; zero when `other` is not later. */
    function DurationUntil(other: SimulationTime): (d: u32)
      ensures other.minutes >= minutes ==> minutes + d == other.minutes
      ensures other.minutes < minutes ==> d == 0
      ensures d <= other.minutes
    {
      if other.minutes >= minutes then other.minutes - minutes else 0
    }

    /** The point `m` minutes later; the sum must fit in a `u32`. */
    function AddMinutes(m: u32): (t: SimulationTime)
      requires minutes + m <= U32_MAX
      ensures t.minutes >= minutes
      ensures DurationUntil(t) == m
    {
      SimulationTime(minutes + m)
    }
  }

  /** Adding `m` minutes and measuring the gap back gives `m`; the new point is `m` later. */
  lemma AddThenMeasure(t: SimulationTime, m: u32)
    requires t.minutes + m <= U32_MAX
    ensures t.DurationUntil(t.AddMinutes(m)) == m
    ensures t.AddMinutes(m).AsMinutes() == t.AsMinutes() + m
  {
  }

  /** Measuring the gap to a later point and adding it back reaches that point. */
  lemma MeasureThenAdd(t: SimulationTime, u: SimulationTime)
    requires t.minutes <= u.minutes
    ensures t.AddMinutes(t.DurationUntil(u)) == u
  {
  }

  /** What happened, with the identifiers it concerns. */
  datatype EventType =
    | ProcessStart(machineId: u32, processId: u32)
    | ProcessComplete(machineId: u32, processId: u32)
    | MaterialArrival(materialId: u32)
    | StaffAvailable(staffId: u32)
    | StaffAssigned(staffId: u32, machineId: u32, processId: u32)
    | StaffReleased(staffId: u32, machineId: u32)
    | StaffUnavailable(machineId: u32, processId: u32)

  datatype Event = Event(time: SimulationTime, eventType: EventType)

  datatype Ordering = Less | Equal | Greater

  /** `Ord::cmp` on `u32`. */
  function CompareMinutes(a: u32, b: u32): Ordering
  {
    if a < b then Less else if a == b then Equal else Greater
  }

  /**
   * `Ord::cmp` for events: the times compared the other way round, so that an
   * earlier event is the greater one and sits on top of the max-heap.
   */
  function EventCmp(a: Event, b: Event): (o: Ordering)
    ensures o == Greater <==> a.time.minutes < b.time.minutes
    ensures o == Less <==> b.time.minutes < a.time.minutes
    ensures o == Equal <==> a.time == b.time
  {
    CompareMinutes(b.time.minutes, a.time.minutes)
  }

  /** `PartialEq` for events: equal times, whatever the kinds. */
  predicate EventEq(a: Event, b: Event)
  {
    a.time == b.time
  }

  /** Equality and ordering agree, and the ordering is antisymmetric, as `Ord` demands. */
  lemma EventOrdConsistent(a: Event, b: Event)
    ensures EventEq(a, b) <==> EventCmp(a, b) == Equal
    ensures EventCmp(a, b) == Greater <==> EventCmp(b, a) == Less
  {
  }

  /** `e` is an element of `q` that no element of `q` exceeds under `EventCmp`: what `BinaryHeap::pop` may return. */
  predicate IsHeapTop(e: Event, q: multiset<Event>)
  {
    e in q && forall x | x in q :: EventCmp(e, x) != Less
  }

  /** `e` is an element of `q` of earliest time. */
  predicate IsEarliest(e: Event, q: multiset<Event>)
  {
    e in q && forall x | x in q :: e.time.minutes <= x.time.minutes
  }

  /** The reversed comparison turns the max-heap into a min-heap on time. */
  lemma HeapTopIsEarliest(e: Event, q: multiset<Event>)
    ensures IsHeapTop(e, q) <==> IsEarliest(e, q)
  {
  }

  /** Every non-empty queue has a top element. */
  lemma {:induction false} HeapTopExists(q: multiset<Event>)
    requires q != multiset{}
    ensures exists e :: IsHeapTop(e, q)
    decreases |q|
  {
    var y :| y in q;
    var rest := q - multiset{y};
    if rest == multiset{} {
      assert IsEarliest(y, q) by {
        forall x | x in q
          ensures y.time.minutes <= x.time.minutes
        {
          assert x in rest + multiset{y};
        }
      }
      HeapTopIsEarliest(y, q);
    } else {
      HeapTopExists(rest);
      var e :| IsHeapTop(e, rest);
      HeapTopIsEarliest(e, rest);
      var m := if e.time.minutes <= y.time.minutes then e else y;
      assert IsEarliest(m, q) by {
        forall x | x in q
          ensures m.time.minutes <= x.time.minutes
        {
          if x != y {
            assert x in rest;
          }
        }
      }
      HeapTopIsEarliest(m, q);
    }
  }

  /** Two tops of the same queue have the same time: peek and pop agree on the time. */
  lemma HeapTopsShareTime(a: Event, b: Event, q: multiset<Event>)
    requires IsHeapTop(a, q) && IsHeapTop(b, q)
    ensures a.time == b.time
  {
  }

  /** The times of a trace never decrease. */
  predicate NonDecreasing(trace: seq<Event>)
  {
    forall i, j :: 0 <= i < j < |trace| ==> trace[i].time.minutes <= trace[j].time.minutes
  }

  /** No event of `trace` is later than an event still in `q`. */
  predicate DeliveredBefore(trace: seq<Event>, q: multiset<Event>)
  {
    forall i, e :: 0 <= i < |trace| && e in q ==> trace[i].time.minutes <= e.time.minutes
  }

  /** Delivering a top of the queue keeps the trace ordered and ahead of what remains. */
  lemma DeliverTop(trace: seq<Event>, q: multiset<Event>, e: Event)
    requires NonDecreasing(trace) && DeliveredBefore(trace, q)
    requires IsHeapTop(e, q)
    ensures NonDecreasing(trace + [e])
    ensures DeliveredBefore(trace + [e], q - multiset{e})
    ensures multiset(trace + [e]) + (q - multiset{e}) == multiset(trace) + q
    ensures |q - multiset{e}| < |q|
  {
    var t := trace + [e];
    forall i, x | 0 <= i < |t| && x in q - multiset{e}
      ensures t[i].time.minutes <= x.time.minutes
    {
      assert x in q;
      if i < |trace| { assert t[i] == trace[i]; }
    }
  }

  /** The last event of an ordered trace is a latest one. */
  lemma LastIsLatest(trace: seq<Event>)
    requires NonDecreasing(trace) && trace != []
    ensures forall e | e in multiset(trace) :: e.time.minutes <= trace[|trace| - 1].time.minutes
  {
    forall e | e in multiset(trace)
      ensures e.time.minutes <= trace[|trace| - 1].time.minutes
    {
      var i :| 0 <= i < |trace| && trace[i] == e;
    }
  }

  /** The clock and the queue of future events. */
  class Simulator {
    var currentTime: SimulationTime
    var eventQueue: multiset<Event>

    /** A simulator at time 0 with nothing scheduled. */
    constructor ()
      ensures currentTime == SimulationTime(0)
      ensures eventQueue == multiset{}
    {
      currentTime := SimulationTime(0);
      eventQueue := multiset{};
    }

    /** Adds one event, at any time, even one before the clock. */
    method ScheduleEvent(time: SimulationTime, eventType: EventType)
      modifies this
      ensures eventQueue == old(eventQueue) + multiset{Event(time, eventType)}
      ensures currentTime == old(currentTime)
    {
      eventQueue := eventQueue + multiset{Event(time, eventType)};
    }

    function HasEvents(): bool
      reads this
    {
      eventQueue != multiset{}
    }

    /** An earliest event, left in the queue; `None` when the queue is empty. */
    method PeekNextEvent() returns (r: Option<Event>)
      ensures r.None? <==> eventQueue == multiset{}
      ensures r.Some? ==> IsHeapTop(r.value, eventQueue)
      ensures r.Some? ==> IsEarliest(r.value, eventQueue)
    {
      if eventQueue == multiset{} {
        r := None;
      } else {
        HeapTopExists(eventQueue);
        var e :| IsHeapTop(e, eventQueue);
        r := Some(e);
      }
    }

    /** Removes and returns an earliest event without moving the clock. */
    method NextEvent() returns (r: Option<Event>)
      modifies this
      ensures old(eventQueue) == multiset{} ==> r.None? && eventQueue == old(eventQueue)
      ensures old(eventQueue) != multiset{} ==>
                r.Some? && IsHeapTop(r.value, old(eventQueue)) &&
                eventQueue == old(eventQueue) - multiset{r.value}
      ensures currentTime == old(currentTime)
    {
      if eventQueue == multiset{} {
        r := None;
      } else {
        HeapTopExists(eventQueue);
        var e :| IsHeapTop(e, eventQueue);
        eventQueue := eventQueue - multiset{e};
        r := Some(e);
      }
    }

    /** Removes an earliest event and moves the clock to its time; on an empty queue changes nothing. */
    method Step() returns (r: Option<Event>)
      modifies this
      ensures old(eventQueue) == multiset{} ==>
                r.None? && eventQueue == old(eventQueue) && currentTime == old(currentTime)
      ensures old(eventQueue) != multiset{} ==>
                r.Some? && IsHeapTop(r.value, old(eventQueue)) &&
                eventQueue == old(eventQueue) - multiset{r.value} &&
                currentTime == r.value.time
      ensures r.Some? ==> forall e | e in eventQueue :: r.value.time.minutes <= e.time.minutes
    {
      r := NextEvent();
      if r.Some? {
        currentTime := r.value.time;
      }
    }

    /**
     * Steps until the queue is empty.  The callback of the source is modelled
     * by what it observes: `trace` lists the events in delivery order, and at
     * each delivery the clock stands at that event's time (see `Step`).
     */
    method RunAll() returns (trace: seq<Event>)
      modifies this
      ensures !HasEvents()
      ensures multiset(trace) == old(eventQueue)
      ensures NonDecreasing(trace)
      ensures trace == [] ==> currentTime == old(currentTime)
      ensures trace != [] ==> currentTime == trace[|trace| - 1].time
      ensures forall e | e in old(eventQueue) :: e.time.minutes <= currentTime.minutes
    {
      trace := [];
      ghost var q0, t0 := eventQueue, currentTime;
      while true
        invariant multiset(trace) + eventQueue == q0
        invariant NonDecreasing(trace)
        invariant DeliveredBefore(trace, eventQueue)
        invariant trace == [] ==> currentTime == t0
        invariant trace != [] ==> currentTime == trace[|trace| - 1].time
        decreases |eventQueue|
      {
        ghost var before := eventQueue;
        var r := Step();
        if r.None? {
          break;
        }
        DeliverTop(trace, before, r.value);
        trace := trace + [r.value];
      }
      assert multiset(trace) == q0;
      if trace != [] {
        LastIsLatest(trace);
      }
    }

    function ElapsedTime(): u32
      reads this
    {
      currentTime.AsMinutes()
    }

    /** Moves the clock to `time`, forwards or backwards, consuming nothing. */
    method SetTime(time: SimulationTime)
      modifies this
      ensures currentTime == time
      ensures eventQueue == old(eventQueue)
    {
      currentTime := time;
    }
  }

  /** Events scheduled out of order: the one at 5 is delivered first and the clock moves to 5. */
  method EarliestFirstScenario() returns (first: Option<Event>, clock: u32)
    ensures first == Some(Event(SimulationTime(5), MaterialArrival(1)))
    ensures clock == 5
  {
    var sim := new Simulator();
    sim.ScheduleEvent(SimulationTime(10), ProcessStart(0, 1));
    sim.ScheduleEvent(SimulationTime(5), MaterialArrival(1));
    first := sim.Step();
    clock := sim.ElapsedTime();
  }

  /** Running two scheduled events delivers both and leaves nothing pending. */
  method RunTwoScenario() returns (delivered: nat, pending: bool)
    ensures delivered == 2 && !pending
  {
    var sim := new Simulator();
    sim.ScheduleEvent(SimulationTime(10), ProcessStart(0, 1));
    sim.ScheduleEvent(SimulationTime(20), ProcessComplete(0, 1));
    var trace := sim.RunAll();
    assert |trace| == |multiset(trace)|;
    delivered := |trace|;
    pending := sim.HasEvents();
  }
}
