/** Systems (Project2/system.c): a system converts a fixed amount of one
    resource into a fixed amount of another, holds what it could not store
    yet in `amountStored`, and reports each failed conversion or storage as
    an event on the shared queue. */
module Systems {
  import opened Defs
  import opened Resources
  import opened Events

  /** The outcome of taking `required` units from a resource holding `held`. */
  datatype Consumption = Consumption(status: Status, held: int)

  /** The consumption step of system_convert (system.c:139-144). */
  function Consume(held: int, required: int): (r: Consumption)
    ensures r.status == StatusOk <==> held >= required
    ensures r.status == StatusOk ==> r.held == held - required
    ensures r.status != StatusOk ==> r.held == held
    ensures r.status != StatusOk ==> (r.status == StatusEmpty <==> held == 0) && r.status != StatusCapacity
    ensures 0 <= held && 0 <= required ==> 0 <= r.held <= held
  {
    if held >= required then Consumption(StatusOk, held - required)
    else Consumption(if held == 0 then StatusEmpty else StatusInsufficient, held)
  }

  /** The outcome of storing `pending` units into a resource. */
  datatype Storage = Storage(status: Status, amount: int, pending: int)

  /** system_store_resources (system.c:206-231) on a produced resource that
      holds `amount` of at most `maxCapacity`, with `pending` units waiting.
      Every unit either lands in the resource or stays pending; as many land
      as fit, and the status is CAPACITY exactly when some remain. */
  function Store(amount: int, maxCapacity: int, pending: int): (r: Storage)
    ensures r.amount + r.pending == amount + pending
    ensures r.status == StatusCapacity <==> r.pending != 0
    ensures r.status == StatusOk || r.status == StatusCapacity
    ensures 0 < pending ==> r.amount - amount == Min(pending, Max(maxCapacity - amount, 0))
    ensures 0 <= amount <= maxCapacity && 0 <= pending ==> 0 <= r.amount <= maxCapacity && 0 <= r.pending
    ensures pending == 0 ==> r == Storage(StatusOk, amount, 0)
  {
    if pending == 0 then Storage(StatusOk, amount, 0)
    else
      var space := maxCapacity - amount;
      var moved := if space >= pending then pending else if space > 0 then space else 0;
      var left := pending - moved;
      Storage(if left != 0 then StatusCapacity else StatusOk, amount + moved, left)
  }

  /** The duration system_simulate_process_time sleeps for (system.c:174-183):
      SLOW doubles the processing time, FAST halves it with C's truncating
      division, and every other throttle state keeps it. */
  function AdjustedProcessingTime(status: Throttle, t: int): (d: int)
    ensures status == Slow ==> d == 2 * t
    ensures status == Fast && t >= 0 ==> 0 <= t - 2 * d <= 1
    ensures status == Fast && t < 0 ==> -1 <= t - 2 * d <= 0
    ensures status != Slow && status != Fast ==> d == t
  {
    match status
    case Slow => t * 2
    case Fast => CDiv(t, 2)
    case _ => t
  }

  /** For a non-negative processing time, FAST never takes longer than
      STANDARD, and STANDARD never longer than SLOW. */
  lemma ThrottleOrder(t: int)
    requires t >= 0
    ensures AdjustedProcessingTime(Fast, t) <= AdjustedProcessingTime(Standard, t) <= AdjustedProcessingTime(Slow, t)
    ensures AdjustedProcessingTime(Terminate, t) == AdjustedProcessingTime(Standard, t)
  {
  }

  /** The amounts one system_run reads and writes: the consumed resource's
      amount (`input`), the produced resource's (`output`) and the system's
      pending count; a missing resource reads as 0. */
  datatype Snapshot = Snapshot(input: int, output: int, pending: int)

  /** A resource's amount, or 0 for a missing one. */
  function Stock(r: Resource?): int
    reads r
  {
    if r == null then 0 else r.amount
  }

  /** A resource's capacity, or 0 for a missing one. */
  function Room(r: Resource?): int
    reads r
  {
    if r == null then 0 else r.maxCapacity
  }

  /** Lines 92-103 of system_run on values, for a system `sys` whose
      consumed resource `inRes` gives `need` per conversion and whose
      produced resource `outRes` receives `make`: when nothing is pending it
      converts, and a failed conversion yields one high-priority event whose
      status is Consume's and whose amount is the consumed resource's
      amount, unchanged by the failed attempt. */
  function ConvertStep<S>(sys: S, inRes: Resource?, outRes: Resource?, need: int, make: int, s: Snapshot): (r: (Snapshot, seq<Event<S>>))
    ensures r.0.output == s.output && |r.1| <= 1
    ensures s.pending != 0 ==> r == (s, [])
    ensures |r.1| == 1 <==> s.pending == 0 && inRes != null && s.input < need
    ensures |r.1| == 1 ==> r.0 == s && r.1[0] == Event(sys, inRes, Consume(s.input, need).status, PriorityHigh, s.input)
    ensures s.pending == 0 && r.1 == [] ==>
      r.0 == Snapshot(if inRes == null then s.input else s.input - need, s.output, if outRes != null then make else 0)
  {
    if s.pending != 0 then (s, [])
    else
      var c := if inRes == null then Consumption(StatusOk, s.input) else Consume(s.input, need);
      if c.status == StatusOk then
        (Snapshot(c.held, s.output, if outRes != null then s.pending + make else 0), [])
      else
        (s, [Event(sys, inRes, c.status, PriorityHigh, s.input)])
  }

  /** Lines 105-115 of system_run on values: when units are pending it
      stores them into `outRes`, capped at `capacity`, and a storage that
      leaves units pending yields one low-priority CAPACITY event carrying
      the produced resource's new amount. */
  function StoreStep<S>(sys: S, outRes: Resource?, capacity: int, s: Snapshot): (r: (Snapshot, seq<Event<S>>))
    ensures r.0.input == s.input && |r.1| <= 1
    ensures s.pending <= 0 ==> r == (s, [])
    ensures |r.1| == 1 <==> r.0.pending != 0 && s.pending > 0
    ensures |r.1| == 1 ==> r.1[0] == Event(sys, outRes, StatusCapacity, PriorityLow, r.0.output)
    ensures outRes != null && s.pending > 0 ==>
      r.0 == Snapshot(s.input, Store(s.output, capacity, s.pending).amount, Store(s.output, capacity, s.pending).pending)
    ensures outRes == null && s.pending > 0 ==> r.0 == Snapshot(s.input, s.output, 0)
  {
    if s.pending <= 0 then (s, [])
    else if outRes == null then (Snapshot(s.input, s.output, 0), [])
    else
      var st := Store(s.output, capacity, s.pending);
      (Snapshot(s.input, st.amount, st.pending),
       if st.status != StatusOk then [Event(sys, outRes, st.status, PriorityLow, st.amount)] else [])
  }

  /** One whole system_run on values, for a system whose consumed and
      produced resources are different objects: the new amounts and the
      events pushed, in push order. A failed conversion leaves nothing
      pending, so no storage follows it: a run reports at most one event. */
  function Cycle<S>(sys: S, inRes: Resource?, outRes: Resource?, need: int, make: int, capacity: int, s: Snapshot): (r: (Snapshot, seq<Event<S>>))
    ensures |r.1| <= 1
    ensures s.pending != 0 ==> r.0.input == s.input
    ensures forall i :: 0 <= i < |r.1| ==> r.1[i].system == sys && r.1[i].status != StatusOk
  {
    var (t, es) := ConvertStep(sys, inRes, outRes, need, make, s);
    var (u, fs) := StoreStep(sys, outRes, capacity, t);
    (u, es + fs)
  }

  /** A cycle keeps both stocks within their bounds and the pending count
      non-negative, and it neither creates nor loses output units: what the
      output gains plus what stays pending is what was pending plus what was
      produced by this cycle's conversion. */
  lemma CycleBounds<S>(sys: S, inRes: Resource?, outRes: Resource?, need: int, make: int, capacity: int, s: Snapshot, inCapacity: int)
    requires inRes != null && outRes != null
    requires 0 <= need && 0 <= make
    requires 0 <= s.input <= inCapacity && 0 <= s.output <= capacity && 0 <= s.pending
    ensures var (t, _) := Cycle(sys, inRes, outRes, need, make, capacity, s);
      && 0 <= t.input <= inCapacity && 0 <= t.output <= capacity && 0 <= t.pending
      && t.output + t.pending == s.output + s.pending + (if t.input < s.input || (s.pending == 0 && need == 0) then make else 0)
      && s.input - t.input == (if t.input == s.input then 0 else need)
  {
  }

  /** `n` calls of system_run in a row, as system_thread's loop makes them
      while the throttle state is not TERMINATE, with the events of each
      appended in turn: at most one event per run. */
  function Cycles<S>(sys: S, inRes: Resource?, outRes: Resource?, need: int, make: int, capacity: int, s: Snapshot, n: nat): (r: (Snapshot, seq<Event<S>>))
    ensures |r.1| <= n
    ensures forall i :: 0 <= i < |r.1| ==> r.1[i].system == sys && r.1[i].status != StatusOk
    decreases n
  {
    if n == 0 then (s, [])
    else
      var (t, es) := Cycle(sys, inRes, outRes, need, make, capacity, s);
      var (u, fs) := Cycles(sys, inRes, outRes, need, make, capacity, t, n - 1);
      (u, es + fs)
  }

  /** With input for one conversion and room for its output, a cycle with
      nothing pending converts and stores everything, reporting nothing. */
  lemma CycleSmooth<S>(sys: S, inRes: Resource?, outRes: Resource?, need: int, make: int, capacity: int, s: Snapshot)
    requires inRes != null && outRes != null
    requires 0 <= make && s.pending == 0 && need <= s.input && s.output + make <= capacity
    ensures Cycle(sys, inRes, outRes, need, make, capacity, s) == (Snapshot(s.input - need, s.output + make, 0), [])
  {
    var t := Snapshot(s.input - need, s.output, make);
    assert ConvertStep(sys, inRes, outRes, need, make, s) == (t, []);
    if make > 0 {
      assert Store(s.output, capacity, make) == Storage(StatusOk, s.output + make, 0);
    }
    var none: seq<Event<S>> := [];
    assert none + none == none;
  }

  /** While there is input for every conversion and room for every output,
      `n` cycles take exactly n * need, add exactly n * make, leave nothing
      pending and report nothing. */
  lemma {:induction false} CyclesSteady<S>(sys: S, inRes: Resource?, outRes: Resource?, need: int, make: int, capacity: int, s: Snapshot, n: nat)
    requires inRes != null && outRes != null
    requires 0 <= need && 0 <= make && s.pending == 0
    requires n * need <= s.input && s.output + n * make <= capacity
    ensures Cycles(sys, inRes, outRes, need, make, capacity, s, n)
      == (Snapshot(s.input - n * need, s.output + n * make, 0), [])
    decreases n
  {
    if n > 0 {
      var t := Snapshot(s.input - need, s.output + make, 0);
      assert n * need == need + (n - 1) * need && n * make == make + (n - 1) * make;
      CycleSmooth(sys, inRes, outRes, need, make, capacity, s);
      CyclesSteady(sys, inRes, outRes, need, make, capacity, t, n - 1);
      var none: seq<Event<S>> := [];
      assert none + none == none;
    }
  }

  /** A system whose output is full and that still holds units does not
      convert again: every cycle leaves all amounts as they are and reports
      one CAPACITY event at low priority. This is the behaviour without
      locks: system_store_resources returns CAPACITY without releasing the
      produced resource's semaphore (system.c:226-227), so in the program
      every later access to that resource blocks forever. */
  lemma {:induction false} CyclesStuck<S>(sys: S, inRes: Resource?, outRes: Resource?, need: int, make: int, capacity: int, s: Snapshot, n: nat)
    requires outRes != null && s.output == capacity && s.pending > 0
    ensures var (t, es) := Cycles(sys, inRes, outRes, need, make, capacity, s, n);
      && t == s && |es| == n
      && forall i :: 0 <= i < n ==> es[i] == Event(sys, outRes, StatusCapacity, PriorityLow, capacity)
    decreases n
  {
    if n > 0 {
      var e := Event(sys, outRes, StatusCapacity, PriorityLow, capacity);
      assert Store(capacity, capacity, s.pending) == Storage(StatusCapacity, capacity, s.pending);
      assert Cycle(sys, inRes, outRes, need, make, capacity, s) == (s, [] + [e]);
      CyclesStuck(sys, inRes, outRes, need, make, capacity, s, n - 1);
      var es := Cycles(sys, inRes, outRes, need, make, capacity, s, n - 1).1;
      assert Cycles(sys, inRes, outRes, need, make, capacity, s, n).1 == [e] + es;
    }
  }

  /** The propulsion system of the bundled scenario (main.c:66-81): fuel
      1000 of 1000, distance 0 of 5000, 5 fuel per 25 distance. Two hundred
      cycles burn all the fuel and fill the distance exactly with no event;
      the next cycle finds the fuel empty and reports it at high priority. */
  lemma PropulsionScenario<S>(sys: S, fuel: Resource, distance: Resource)
    ensures Cycles(sys, fuel, distance, 5, 25, 5000, Snapshot(1000, 0, 0), 200) == (Snapshot(0, 5000, 0), [])
    ensures Cycle(sys, fuel, distance, 5, 25, 5000, Snapshot(0, 5000, 0))
      == (Snapshot(0, 5000, 0), [Event(sys, fuel, StatusEmpty, PriorityHigh, 0)])
  {
    CyclesSteady(sys, fuel, distance, 5, 25, 5000, Snapshot(1000, 0, 0), 200);
    var e := Event(sys, fuel, StatusEmpty, PriorityHigh, 0);
    assert ConvertStep(sys, fuel, distance, 5, 25, Snapshot(0, 5000, 0)) == (Snapshot(0, 5000, 0), [e]);
    assert [e] + [] == [e];
  }

  /** A system (system.c): the per-cycle consumption and production, the
      processing time, the throttle state, the shared event queue and the
      count of produced units not stored yet. */
  class System {
    var name: string
    var consumed: ResourceAmount
    var produced: ResourceAmount
    var processingTime: int
    var status: Throttle
    var eventQueue: EventQueue<System>
    var amountStored: int

    /** The invariant every cycle keeps: both resources within their bounds,
        non-negative per-cycle amounts and pending count, and a well-formed
        event queue. */
    ghost predicate Valid()
      reads this, consumed.resource, produced.resource, eventQueue, eventQueue.Repr
    {
      && (consumed.resource != null ==> consumed.resource.Valid())
      && (produced.resource != null ==> produced.resource.Valid())
      && 0 <= consumed.amount && 0 <= produced.amount && 0 <= amountStored
      && eventQueue.Valid()
    }

    /** system_create: copies the arguments, starts at STANDARD with nothing
        pending. */
    constructor (name: string, consumed: ResourceAmount, produced: ResourceAmount, processingTime: int, eventQueue: EventQueue<System>)
      ensures this.name == name && this.consumed == consumed && this.produced == produced
      ensures this.processingTime == processingTime && this.eventQueue == eventQueue
      ensures status == Standard && amountStored == 0
    {
      this.name := name;
      this.consumed := consumed;
      this.produced := produced;
      this.processingTime := processingTime;
      this.status := Standard;
      this.eventQueue := eventQueue;
      this.amountStored := 0;
    }

    /** system_convert: with no consumed resource the conversion succeeds;
        otherwise it takes `consumed.amount` when that much is held. On
        success the pending count grows by `produced.amount`, or is reset to
        0 when nothing is produced. */
    method Convert() returns (result: Status)
      modifies this`amountStored, consumed.resource
      ensures consumed.resource == null ==> result == StatusOk
      ensures consumed.resource != null ==>
        var c := Consume(old(consumed.resource.amount), consumed.amount);
        && result == c.status && consumed.resource.amount == c.held
        && consumed.resource.maxCapacity == old(consumed.resource.maxCapacity)
        && consumed.resource.name == old(consumed.resource.name)
      ensures amountStored == (if result != StatusOk then old(amountStored)
        else if produced.resource != null then old(amountStored) + produced.amount else 0)
    {
      var res := consumed.resource;
      if res == null {
        result := StatusOk;
      } else if res.amount >= consumed.amount {
        res.amount := res.amount - consumed.amount;
        result := StatusOk;
      } else {
        result := if res.amount == 0 then StatusEmpty else StatusInsufficient;
      }
      if result == StatusOk {
        if produced.resource != null {
          amountStored := amountStored + produced.amount;
        } else {
          amountStored := 0;
        }
      }
    }

    /** system_store_resources: with no produced resource, or nothing
        pending, reports OK and clears the pending count; otherwise stores
        what fits and keeps the rest pending. */
    method StoreResources() returns (result: Status)
      modifies this`amountStored, produced.resource
      ensures produced.resource == null ==> result == StatusOk && amountStored == 0
      ensures produced.resource != null ==>
        var st := Store(old(produced.resource.amount), old(produced.resource.maxCapacity), old(amountStored));
        && result == st.status && produced.resource.amount == st.amount && amountStored == st.pending
        && produced.resource.maxCapacity == old(produced.resource.maxCapacity)
        && produced.resource.name == old(produced.resource.name)
    {
      var res := produced.resource;
      if res == null || amountStored == 0 {
        amountStored := 0;
        return StatusOk;
      }
      var toStore := amountStored;
      var space := res.maxCapacity - res.amount;
      if space >= toStore {
        res.amount := res.amount + toStore;
        amountStored := 0;
      } else if space > 0 {
        res.amount := res.amount + space;
        amountStored := toStore - space;
      }
      if amountStored != 0 {
        return StatusCapacity;
      }
      return StatusOk;
    }

    /** The amounts system_run reads and writes, as a Snapshot. */
    ghost function Snap(): Snapshot
      reads this, consumed.resource, produced.resource
    {
      Snapshot(Stock(consumed.resource), Stock(produced.resource), amountStored)
    }

    /** Lines 92-103 of system_run: ConvertStep on the system's own state.
        When the two resources are one object, the produced amount is the
        consumed one and follows it. */
    method ConvertPhase()
      requires eventQueue.Valid()
      modifies this`amountStored, consumed.resource, eventQueue, eventQueue.Repr
      ensures eventQueue.Valid() && fresh(eventQueue.Repr - old(eventQueue.Repr))
      ensures var r := ConvertStep(this, consumed.resource, produced.resource, consumed.amount, produced.amount, old(Snap()));
        && Stock(consumed.resource) == r.0.input && amountStored == r.0.pending
        && (consumed.resource == null || consumed.resource != produced.resource ==> Stock(produced.resource) == r.0.output)
        && eventQueue.Contents == PushAll(old(eventQueue.Contents), r.1)
      ensures Room(consumed.resource) == old(Room(consumed.resource)) && Room(produced.resource) == old(Room(produced.resource))
      ensures consumed.resource != null ==> consumed.resource.name == old(consumed.resource.name)
      ensures produced.resource != null ==> produced.resource.name == old(produced.resource.name)
      ensures old(Valid()) ==> Valid()
    {
      ghost var q := eventQueue.Contents;
      if amountStored == 0 {
        var result := Convert();
        if result != StatusOk {
          var e := Event(this, consumed.resource, result, PriorityHigh, consumed.resource.amount);
          eventQueue.Push(e);
          assert PushAll(q, [e]) == PushAll(Inserted(q, e), []);
        }
      }
    }

    /** Lines 105-115 of system_run: StoreStep on the system's own state. */
    method StorePhase()
      requires eventQueue.Valid()
      modifies this`amountStored, produced.resource, eventQueue, eventQueue.Repr
      ensures eventQueue.Valid() && fresh(eventQueue.Repr - old(eventQueue.Repr))
      ensures var r := StoreStep(this, produced.resource, old(Room(produced.resource)), old(Snap()));
        && Stock(produced.resource) == r.0.output && amountStored == r.0.pending
        && (produced.resource == null || consumed.resource != produced.resource ==> Stock(consumed.resource) == r.0.input)
        && eventQueue.Contents == PushAll(old(eventQueue.Contents), r.1)
      ensures Room(consumed.resource) == old(Room(consumed.resource)) && Room(produced.resource) == old(Room(produced.resource))
      ensures consumed.resource != null ==> consumed.resource.name == old(consumed.resource.name)
      ensures produced.resource != null ==> produced.resource.name == old(produced.resource.name)
      ensures old(Valid()) ==> Valid()
    {
      ghost var q := eventQueue.Contents;
      if amountStored > 0 {
        var result := StoreResources();
        if result != StatusOk {
          var e := Event(this, produced.resource, result, PriorityLow, produced.resource.amount);
          eventQueue.Push(e);
          assert PushAll(q, [e]) == PushAll(Inserted(q, e), []);
        }
      }
    }

    /** system_run: converts only when nothing is pending and stores only
        when something is; each failure pushes one event carrying the
        resource's amount at that point, at high priority for a conversion
        and low priority for a storage. For different consumed and produced
        resources, the whole run is one Cycle. */
    method Run()
      requires eventQueue.Valid()
      modifies this`amountStored, consumed.resource, produced.resource, eventQueue, eventQueue.Repr
      ensures eventQueue.Valid() && fresh(eventQueue.Repr - old(eventQueue.Repr))
      ensures consumed.resource == null || consumed.resource != produced.resource ==>
        var r := Cycle(this, consumed.resource, produced.resource, consumed.amount, produced.amount,
          old(Room(produced.resource)), old(Snap()));
        && Snap() == r.0
        && eventQueue.Contents == PushAll(old(eventQueue.Contents), r.1)
      ensures Room(consumed.resource) == old(Room(consumed.resource)) && Room(produced.resource) == old(Room(produced.resource))
      ensures consumed.resource != null ==> consumed.resource.name == old(consumed.resource.name)
      ensures produced.resource != null ==> produced.resource.name == old(produced.resource.name)
      ensures old(Valid()) ==> Valid()
    {
      ghost var q, s := eventQueue.Contents, Snap();
      ConvertPhase();
      StorePhase();
      ghost var t := ConvertStep(this, consumed.resource, produced.resource, consumed.amount, produced.amount, s);
      PushAllAppend(q, t.1, StoreStep(this, produced.resource, Room(produced.resource), t.0).1);
    }
  }

  /** The manager's growable array of system pointers; the same scheme as
      the resource array. */
  class SystemArray {
    var systems: array?<System?>
    var size: nat
    var capacity: nat

    ghost predicate Valid()
      reads this
    {
      && size <= capacity
      && (systems == null ==> size == 0)
      && (systems != null ==> systems.Length == capacity)
    }

    /** The pointers stored so far, in insertion order. */
    ghost function Elements(): seq<System?>
      reads this, systems
      requires Valid()
    {
      if systems == null then [] else systems[..size]
    }

    /** system_array_init: empty, capacity 1; when the allocation fails
        (`allocOk` is false) the buffer stays NULL and the capacity is 0. */
    constructor (allocOk: bool)
      ensures Valid() && Elements() == [] && size == 0
      ensures capacity == (if allocOk then 1 else 0)
      ensures allocOk ==> systems != null && fresh(systems)
      ensures !allocOk ==> systems == null
    {
      size := 0;
      capacity := 1;
      if allocOk {
        systems := new System?[1];
      } else {
        systems := null;
        capacity := 0;
      }
    }

    /** system_array_add: a NULL system changes nothing; otherwise, when the
        buffer is full, it is copied into a fresh buffer of GrownCapacity (a
        failed allocation changes nothing), and the system is appended at
        index `size`. The buffer must exist unless the capacity is 0, as for
        the resource array after a clean. */
    method Add(system: System?, allocOk: bool)
      requires Valid()
      requires systems != null || capacity == 0
      modifies this, systems
      ensures Valid()
      ensures system == null || (old(size) >= old(capacity) && !allocOk) ==>
        size == old(size) && capacity == old(capacity) && Elements() == old(Elements())
      ensures system != null && (old(size) < old(capacity) || allocOk) ==>
        && Elements() == old(Elements()) + [system]
        && size == old(size) + 1
        && capacity == (if old(size) >= old(capacity) then GrownCapacity(old(capacity)) else old(capacity))
      ensures old(size) >= old(capacity) && systems != old(systems) ==> fresh(systems)
    {
      if system == null {
        return;
      }
      if size >= capacity {
        var newCapacity := GrownCapacity(capacity);
        if !allocOk {
          return;
        }
        var grown := new System?[newCapacity];
        for i := 0 to size
          invariant forall j :: 0 <= j < i ==> grown[j] == systems[j]
          modifies grown
        {
          grown[i] := systems[i];
        }
        systems := grown;
        capacity := newCapacity;
      }
      systems[size] := system;
      size := size + 1;
    }

    /** system_array_clean: with a buffer, leaves it NULL with size 0 and
        capacity 1; with none, changes nothing. */
    method Clean()
      requires Valid()
      modifies this
      ensures Valid() && Elements() == []
      ensures old(systems) == null ==> unchanged(this)
      ensures old(systems) != null ==> systems == null && size == 0 && capacity == 1
    {
      if systems == null {
        return;
      }
      systems := null;
      size := 0;
      capacity := 1;
    }
  }
}
