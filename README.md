# Virtual Game Simulator core, in Dafny

This project models the sequential core of a multithreaded spacecraft
simulator written in C. A set of *resources* (fuel, oxygen, energy,
distance) are counters bounded by a maximum capacity. A set of *systems*
each convert a fixed amount of one resource into a fixed amount of another.
Every cycle (`system_run`), a system does two things:

- When nothing is pending, it consumes its input.
- When units are pending, it stores its output, up to the output's capacity.

Each failure is reported as an *event* on a shared priority *event queue*:
an empty or insufficient input at high priority, a full output at low
priority. The manager keeps its resources and systems in growable pointer
arrays that double their capacity when full.

The model has four modules:

- `Defs` (`defs.dfy`): status codes, throttle states, event priorities and
  C's truncating division.
- `Resources` (`resource.dfy`): the `Resource` class, the `ResourceAmount`
  binding and the `ResourceArray` class (`Project2/resource.c`).
- `Events` (`event.dfy`): the `Event` datatype, the queue contents as a
  sequence with its specification functions (`Inserted`, `PushAll`,
  `ByPriority`), and the `EventQueue` class. The class is a linked list of
  `EventNode` objects whose `Push` walks and relinks the list in place
  (`Project2/event.c`). The queue's ghost `Contents` ties the list to the
  specification functions.
- `Systems` (`system.dfy`): the consume and store arithmetic as functions,
  one cycle on values (`ConvertStep`, `StoreStep`, `Cycle`, `Cycles`), and
  the `System` and `SystemArray` classes, whose methods change resources,
  the pending count and the queue in place (`Project2/system.c`).

The event type is generic in the originating system's type, so `Events`
does not depend on `Systems`.

Two points of behaviour are fixed by the code rather than by its
comments:

- Equal priorities leave the queue first-in, first-out. The queue's
  comment promises only "highest first" (event.c:71); the tie rule comes
  from the push walk passing every node of priority `>=` the new one
  (event.c:99).
- The amount carried by a failure event is the resource's current amount
  after the attempt (system.c:98 and 110). It is neither the amount
  requested nor the remainder left pending.

## Model

| member | source | states |
|---|---|---|
| Defs.CDiv | Project2/system.c:179 | C's integer division by a positive divisor truncates toward zero: the remainder has the dividend's sign and is smaller than the divisor |
| Resources.Resource.constructor | Project2/resource.c:38-39 | resource_create stores amount and max_capacity exactly as given; the invariant 0 <= amount <= max_capacity holds iff the caller passes such values, as nothing checks them |
| Resources.GrownCapacity | Project2/resource.c:139 | a full buffer grows to twice its capacity, or to 1 from 0; always strictly larger |
| Resources.ResourceArray.constructor | Project2/resource.c:88-97 | resource_array_init: size 0, capacity 1 with a fresh buffer, or capacity 0 and a NULL buffer when the allocation fails |
| Resources.ResourceArray.Add | Project2/resource.c:133-153 | NULL resource: nothing changes; full buffer whose allocation fails: nothing changes; otherwise the elements become the old ones plus the new resource at index old size, size + 1, capacity doubled exactly when it was full; size <= capacity is kept |
| Resources.ResourceArray.Clean | Project2/resource.c:108-122 | with a buffer: NULL buffer, size 0, capacity 1; without one: nothing changes |
| Events.SortedAt | Project2/event.c:93-104 | in a queue sorted by non-increasing priority, every event ranks at least as high as any later one |
| Events.SortedFront | Project2/event.c:130-133 | the head of a sorted queue has the highest priority |
| Events.InsertIndex | Project2/event.c:93-101 | the push walk stops at the first position whose event has strictly lower priority; every event before it has priority >= the new one |
| Events.Inserted | Project2/event.c:89-107 | a push adds exactly one event |
| Events.InsertedMultiset | Project2/event.c:89-107 | a push's new contents are the old contents plus the pushed event, as a multiset |
| Events.InsertedSplice | Project2/event.c:93-104 | a push splices the event in at InsertIndex and keeps every old event in its old relative order |
| Events.InsertedSorted | Project2/event.c:93-104 | a push keeps the queue sorted by non-increasing priority |
| Events.ByPriority | Project2/event.c:93-104 | the events of one priority, in queue order, are a subsequence no longer than the queue |
| Events.ByPriorityCons | Project2/event.c:93-104 | filtering by priority distributes over putting an event in front |
| Events.ByPriorityBelow | Project2/event.c:93 | a sorted queue whose head ranks below p holds no event of priority p |
| Events.InsertedByPriority | Project2/event.c:99-103 | a push appends the new event to the events of its own priority and leaves every other priority unchanged: ties are FIFO |
| Events.PushAll | Project2/event.c:76-110 | pushing a sequence of events adds one event per push |
| Events.PushAllMultiset | Project2/event.c:76-110 | pushing a sequence adds exactly those events |
| Events.PushAllSorted | Project2/event.c:93-104 | any sequence of pushes keeps a sorted queue sorted |
| Events.PushAllByPriority | Project2/event.c:93-104 | after any sequence of pushes, each priority's events are the old ones followed by the pushed ones in push order |
| Events.PushAllAppend | Project2/event.c:76-110 | pushing es and then fs equals pushing es + fs |
| Events.DeliveryOrder | Project2/event.c:93-104 | pushes onto an empty queue yield a sorted permutation of the pushed events, stable within each priority, so pops deliver them in non-increasing priority with ties in push order |
| Events.EventNode.constructor | Project2/event.c:89-90 | a new node holds a copy of the event and no successor |
| Events.SpliceLinked | Project2/event.c:102-103 | relinking the predecessor to the new node, and the new node to the predecessor's old successor, yields a NULL-terminated chain again |
| Events.SpliceHolds | Project2/event.c:102-103 | the spliced chain holds the old events with the new one at the splice position |
| Events.SpliceDistinct | Project2/event.c:81-103 | splicing a freshly allocated node keeps the chain free of repeated nodes |
| Events.SpliceWithin | Project2/event.c:81-103 | the spliced chain stays within the queue's footprint plus the new node |
| Events.ConsLinked | Project2/event.c:94-95 | a node pointing to the old head extends the chain |
| Events.ConsHolds | Project2/event.c:94-95 | the new head's event goes in front of the old events |
| Events.TailLinked | Project2/event.c:133 | the head's successor starts the rest of the chain |
| Events.EventQueue.constructor | Project2/event.c:36-44 | event_queue_init: an empty queue with head NULL; size starts at 0 |
| Events.EventQueue.FindPredecessor | Project2/event.c:98-101 | the walk stops at the node right before InsertIndex of the new priority |
| Events.EventQueue.SplicedValid | Project2/event.c:102-103 | the queue invariant (chain, sizes, contents, no repeats, sorted) holds after a splice after the predecessor |
| Events.EventQueue.ConsValid | Project2/event.c:93-96 | the queue invariant holds after a new head is linked in |
| Events.EventQueue.LinkFront | Project2/event.c:93-96 | a node ranking strictly above the head becomes the head; contents gain the event in front, size + 1 |
| Events.EventQueue.LinkAfter | Project2/event.c:102-103 | the node is linked in after the found predecessor; contents gain the event at that position, size + 1 |
| Events.EventQueue.Push | Project2/event.c:76-110 | event_queue_push: the contents become Inserted(old contents, e), the queue stays valid and sorted, size + 1 |
| Events.EventQueue.Pop | Project2/event.c:122-144 | empty queue: returns 0 and changes nothing; otherwise returns 1 and the head event, which ranks highest, and removes only it, size - 1 |
| Events.EventQueue.Clean | Project2/event.c:53-65 | event_queue_clean: head NULL, size 0, no contents |
| Systems.Consume | Project2/system.c:139-144 | conversion succeeds iff the resource holds at least the required amount and then takes exactly that; otherwise the amount is unchanged and the status is EMPTY iff it is 0, else INSUFFICIENT; it never goes below 0 |
| Systems.Store | Project2/system.c:206-231 | storing moves min(pending, max(space, 0)) units; amount + pending is conserved; CAPACITY iff units remain pending, else OK; the amount stays within max_capacity; nothing pending is OK with nothing moved |
| Systems.AdjustedProcessingTime | Project2/system.c:174-183 | SLOW doubles the processing time, FAST halves it with truncating division, every other state keeps it |
| Systems.ThrottleOrder | Project2/system.c:174-183 | for a non-negative time, FAST <= STANDARD <= SLOW, and TERMINATE equals STANDARD |
| Systems.ConvertStep | Project2/system.c:92-103 | the conversion phase runs only with nothing pending; it emits exactly one event iff the input resource exists and holds less than needed, and that event is high priority on the consumed resource, with Consume's status (EMPTY or INSUFFICIENT) and the resource's current, unchanged amount; on success the input drops by `need` (unchanged without an input resource) and the pending count becomes `make` (0 without an output resource) |
| Systems.StoreStep | Project2/system.c:105-115 | the storage phase runs only with units pending; it emits exactly one event iff units remain pending, a low-priority CAPACITY event on the produced resource carrying its new amount; the new amounts are those of Store, or nothing pending without an output resource |
| Systems.Cycle | Project2/system.c:88-116 | one system_run emits at most one event, from this system and a failure, since a failed conversion leaves nothing pending to store; with units pending the input is untouched |
| Systems.CycleBounds | Project2/system.c:88-116 | a cycle keeps both resources within their bounds and the pending count non-negative, takes exactly `need` when it converts, and conserves output units |
| Systems.CycleSmooth | Project2/system.c:88-116 | with enough input and room, a cycle with nothing pending converts and stores everything and reports nothing |
| Systems.Cycles | Project2/system.c:323-328 | n calls of system_run in system_thread's loop report at most n events, all from this system and all failures |
| Systems.CyclesSteady | Project2/system.c:88-116 | while input and room last, n cycles take exactly n * need, add exactly n * make, leave nothing pending and report nothing |
| Systems.CyclesStuck | Project2/system.c:105-115 | with the output full and units pending, every cycle changes nothing and reports one low-priority CAPACITY event |
| Systems.PropulsionScenario | Project2/main.c:66-81 | the propulsion system (fuel 1000/1000, distance 0/5000, 5 fuel to 25 distance) runs 200 quiet cycles to fuel 0 and distance 5000, then reports fuel EMPTY at high priority |
| Systems.System.constructor | Project2/system.c:53-60 | system_create copies consumed, produced, processing time and queue, starts at STANDARD with nothing pending |
| Systems.System.Convert | Project2/system.c:128-160 | system_convert is Consume on the consumed resource, or OK without one; on success the pending count grows by the produced amount, or becomes 0 without a produced resource; on failure it is unchanged |
| Systems.System.StoreResources | Project2/system.c:200-232 | system_store_resources is Store on the produced resource; without one it reports OK and clears the pending count |
| Systems.System.ConvertPhase | Project2/system.c:92-103 | the conversion phase on the system's state is ConvertStep, its events pushed onto the queue; it keeps the system invariant |
| Systems.System.StorePhase | Project2/system.c:105-115 | the storage phase on the system's state is StoreStep, its events pushed onto the queue; it keeps the system invariant |
| Systems.System.Run | Project2/system.c:88-116 | system_run, for distinct consumed and produced resources, takes the amounts to Cycle of the old ones and pushes Cycle's events in order; it keeps both resources' capacities and names, so a caller can chain runs, and the invariant (resources within bounds, non-negative amounts, valid queue) |
| Systems.SystemArray.constructor | Project2/system.c:242-257 | system_array_init: size 0, capacity 1, or capacity 0 and NULL on allocation failure |
| Systems.SystemArray.Add | Project2/system.c:294-320 | NULL system or failed allocation: nothing changes; otherwise appended at index old size, earlier entries unchanged, capacity doubled exactly when full |
| Systems.SystemArray.Clean | Project2/system.c:266-283 | with a buffer: NULL buffer, size 0, capacity 1; without one: nothing changes |

## Left out

- Semaphores, threads and `system_thread`'s loop until TERMINATE
  (system.c:322-329). Each operation is one atomic sequential step.
- The locking defects are left out along with the semaphores:
  - system_convert waits on the consumed resource's semaphore before it
    checks for NULL (system.c:133-135);
  - system_store_resources waits on the produced resource's semaphore
    (system.c:204) before it checks for NULL (system.c:206), so its
    "no produced resource" case dereferences NULL in the program;
  - system_store_resources returns at system.c:208 and 227 without
    releasing its semaphore. After a CAPACITY result every later access to
    that resource blocks forever: the next storage attempt, and also another
    system's conversion that consumes it (the crew capsule consumes the
    oxygen that life support produces, main.c:85-89); the repeated CAPACITY events
    of CyclesStuck describe the behaviour without locks;
  - resource_destroy calls sem_destroy on the resource after freeing it
    (resource.c:62).
- `usleep` and real time (system.c:101, 113, 186). Only the adjusted-time
  arithmetic is modelled, as AdjustedProcessingTime.
- `malloc`, `strcpy` and `free` for names and nodes. A name is a string
  value. resource_create's and system_create's allocation-failure branches
  are not modelled.
- Events.EventQueue.Push: the failed node allocation (event.c:83-87) is not
  modelled; a push always succeeds.
- The array buffers' allocation outcome is the boolean parameter `allocOk`.
- resource_destroy, system_destroy and the destroy loops inside the array
  cleans free memory. Garbage collection makes them no-ops here, so Clean
  only resets the fields.
- resource_amount_init and event_init are modelled as the datatype
  constructors ResourceAmount and Event. They store their arguments by
  construction, so no member restates it.
- The manager (manager_init, manager_thread, manager_clean), which changes
  throttle states and consumes events, is not part of this model. Neither
  is main.c beyond the propulsion values used in PropulsionScenario.
- C `int` overflow. Amounts and capacities are unbounded integers, so the
  model does not capture wrap-around of `amount_stored += produced.amount`
  or of `processing_time * 2`.
- Events.EventQueue.constructor: event_queue_init never sets `size`. The
  model starts it at 0, which the queue invariant needs.
- Resources.ResourceArray.Add and Systems.SystemArray.Add require a buffer
  unless the capacity is 0. After Clean the buffer is NULL with capacity 1,
  and the source would write through NULL at resource.c:152 and
  system.c:319. That path is excluded rather than modelled.
- Systems.System.Run: the value contract (Cycle) covers a system whose
  consumed and produced resources are different objects. When they are the
  same object, only the invariant and the queue's validity are stated. The
  per-phase contracts of ConvertPhase and StorePhase hold in both cases.
- Systems.System.Convert and Systems.System.StoreResources do not model the
  processing-time sleep inside a conversion (system.c:148).
- Queue nodes are not freed by Pop and Clean; the footprint only shrinks.
