/** Events and the priority event queue (Project2/event.c).

    The queue is a singly linked list of nodes kept in non-increasing priority
    order. A push walks past every node whose priority is at least the new
    event's, so events of equal priority leave the queue in the order they
    were pushed. The originating system's reference type is the parameter `S`,
    so that this module does not depend on the system module. */
module Events {
  import opened Defs
  import opened Resources

  /** event_init: an event stores its originating system, the resource
      involved, a status code, a priority and an amount, exactly as given. */
  datatype Event<S> = Event(system: S, resource: Resource?, status: Status, priority: int, amount: int)

  /** Non-increasing priority from front to back. */
  predicate Sorted<S>(q: seq<Event<S>>)
  {
    |q| <= 1 || (q[0].priority >= q[1].priority && Sorted(q[1..]))
  }

  /** In a sorted queue every event ranks at least as high as any later one. */
  lemma {:induction false} SortedAt<S>(q: seq<Event<S>>, i: int, j: int)
    requires Sorted(q) && 0 <= i <= j < |q|
    ensures q[i].priority >= q[j].priority
    decreases |q|
  {
    if 0 < i {
      SortedAt(q[1..], i - 1, j - 1);
    } else if 0 < j {
      SortedAt(q[1..], 0, j - 1);
    }
  }

  /** The front of a sorted queue has the highest priority. */
  lemma SortedFront<S>(q: seq<Event<S>>)
    requires Sorted(q) && q != []
    ensures forall i :: 0 <= i < |q| ==> q[0].priority >= q[i].priority
  {
    forall i | 0 <= i < |q|
      ensures q[0].priority >= q[i].priority
    {
      SortedAt(q, 0, i);
    }
  }

  /** Where a push of priority `p` splices its node in: the walk of
      event.c:93-101 stops at the first event of strictly lower priority. */
  function InsertIndex<S>(q: seq<Event<S>>, p: int): (k: nat)
    ensures k <= |q|
    ensures forall i :: 0 <= i < k ==> q[i].priority >= p
    ensures k < |q| ==> q[k].priority < p
  {
    if q == [] || q[0].priority < p then 0 else 1 + InsertIndex(q[1..], p)
  }

  /** The queue's contents after a push of `e` onto `q`: `e` goes in front of
      the first event of strictly lower priority. */
  function Inserted<S>(q: seq<Event<S>>, e: Event<S>): (r: seq<Event<S>>)
    ensures |r| == |q| + 1
  {
    if q == [] || q[0].priority < e.priority then [e] + q
    else [q[0]] + Inserted(q[1..], e)
  }

  /** A push adds exactly the one event: the contents are a permutation of
      the old contents plus `e`. */
  lemma {:induction false} InsertedMultiset<S>(q: seq<Event<S>>, e: Event<S>)
    ensures multiset(Inserted(q, e)) == multiset(q) + multiset{e}
  {
    if q != [] && q[0].priority >= e.priority {
      InsertedMultiset(q[1..], e);
      assert q == [q[0]] + q[1..];
    }
  }

  /** A push splices `e` in at InsertIndex and keeps every old event, in the
      old order, around it. */
  lemma {:induction false} InsertedSplice<S>(q: seq<Event<S>>, e: Event<S>)
    ensures Inserted(q, e) == q[..InsertIndex(q, e.priority)] + [e] + q[InsertIndex(q, e.priority)..]
  {
    if q == [] || q[0].priority < e.priority {
      assert q[..0] == [] && q[0..] == q;
    } else {
      var k := InsertIndex(q[1..], e.priority);
      InsertedSplice(q[1..], e);
      assert q[..k + 1] == [q[0]] + q[1..][..k];
      assert q[k + 1..] == q[1..][k..];
    }
  }

  /** A push keeps the queue sorted. */
  lemma {:induction false} InsertedSorted<S>(q: seq<Event<S>>, e: Event<S>)
    requires Sorted(q)
    ensures Sorted(Inserted(q, e))
  {
    if q == [] || q[0].priority < e.priority {
      assert ([e] + q)[1..] == q;
    } else {
      var r := Inserted(q[1..], e);
      InsertedSorted(q[1..], e);
      assert ([q[0]] + r)[1..] == r;
      if q[1..] == [] || q[1].priority < e.priority {
        assert r[0] == e;
      } else {
        assert r[0] == q[1];
      }
    }
  }

  /** The events of `q` whose priority is `p`, in queue order. */
  function ByPriority<S>(q: seq<Event<S>>, p: int): (r: seq<Event<S>>)
    ensures |r| <= |q|
  {
    if q == [] then []
    else if q[0].priority == p then [q[0]] + ByPriority(q[1..], p)
    else ByPriority(q[1..], p)
  }

  lemma ByPriorityCons<S>(e: Event<S>, q: seq<Event<S>>, p: int)
    ensures ByPriority([e] + q, p) == (if e.priority == p then [e] else []) + ByPriority(q, p)
  {
    assert ([e] + q)[1..] == q;
  }

  /** A sorted queue whose front ranks below `p` holds no event of priority `p`. */
  lemma {:induction false} ByPriorityBelow<S>(q: seq<Event<S>>, p: int)
    requires Sorted(q) && (q == [] || q[0].priority < p)
    ensures ByPriority(q, p) == []
  {
    if q != [] {
      ByPriorityBelow(q[1..], p);
    }
  }

  /** A push appends the new event to the events of its own priority and
      leaves every other priority class as it was: equal priorities are
      first-in, first-out. */
  lemma {:induction false} InsertedByPriority<S>(q: seq<Event<S>>, e: Event<S>, p: int)
    requires Sorted(q)
    ensures ByPriority(Inserted(q, e), p) == ByPriority(q, p) + (if e.priority == p then [e] else [])
  {
    if q == [] || q[0].priority < e.priority {
      ByPriorityCons(e, q, p);
      if e.priority == p {
        ByPriorityBelow(q, p);
      }
    } else {
      InsertedByPriority(q[1..], e, p);
      ByPriorityCons(q[0], Inserted(q[1..], e), p);
      ByPriorityCons(q[0], q[1..], p);
      assert q == [q[0]] + q[1..];
    }
  }

  /** The contents after pushing each event of `es` in turn onto `q`. */
  function PushAll<S>(q: seq<Event<S>>, es: seq<Event<S>>): (r: seq<Event<S>>)
    ensures |r| == |q| + |es|
    decreases |es|
  {
    if es == [] then q else PushAll(Inserted(q, es[0]), es[1..])
  }

  /** Pushing `es` adds exactly those events. */
  lemma {:induction false} PushAllMultiset<S>(q: seq<Event<S>>, es: seq<Event<S>>)
    ensures multiset(PushAll(q, es)) == multiset(q) + multiset(es)
    decreases |es|
  {
    if es != [] {
      InsertedMultiset(q, es[0]);
      PushAllMultiset(Inserted(q, es[0]), es[1..]);
      assert es == [es[0]] + es[1..];
    }
  }

  /** Pushing a sequence of events onto a sorted queue leaves it sorted. */
  lemma {:induction false} PushAllSorted<S>(q: seq<Event<S>>, es: seq<Event<S>>)
    requires Sorted(q)
    ensures Sorted(PushAll(q, es))
    decreases |es|
  {
    if es != [] {
      InsertedSorted(q, es[0]);
      PushAllSorted(Inserted(q, es[0]), es[1..]);
    }
  }

  /** Pushing a sequence of events onto a sorted queue appends, for every
      priority, the pushed events of that priority in push order. */
  lemma {:induction false} PushAllByPriority<S>(q: seq<Event<S>>, es: seq<Event<S>>, p: int)
    requires Sorted(q)
    ensures ByPriority(PushAll(q, es), p) == ByPriority(q, p) + ByPriority(es, p)
    decreases |es|
  {
    if es == [] {
      assert ByPriority(es, p) == [];
    } else {
      var e, rest := es[0], es[1..];
      var single := if e.priority == p then [e] else [];
      InsertedByPriority(q, e, p);
      InsertedSorted(q, e);
      PushAllByPriority(Inserted(q, e), rest, p);
      assert es == [e] + rest;
      ByPriorityCons(e, rest, p);
      var a, b := ByPriority(q, p), ByPriority(rest, p);
      assert PushAll(q, es) == PushAll(Inserted(q, e), rest);
      assert ByPriority(PushAll(q, es), p) == (a + single) + b;
      assert ByPriority(es, p) == single + b;
      assert (a + single) + b == a + (single + b);
    }
  }

  /** Pushing `es` and then `fs` is pushing `es + fs`. */
  lemma {:induction false} PushAllAppend<S>(q: seq<Event<S>>, es: seq<Event<S>>, fs: seq<Event<S>>)
    ensures PushAll(PushAll(q, es), fs) == PushAll(q, es + fs)
    decreases |es|
  {
    if es == [] {
      assert es + fs == fs;
    } else {
      PushAllAppend(Inserted(q, es[0]), es[1..], fs);
      assert (es + fs)[0] == es[0] && (es + fs)[1..] == es[1..] + fs;
    }
  }

  /** Pops deliver the queue front to back, so pushes onto an empty queue
      followed by pops deliver the events in non-increasing priority order,
      with each priority's events in the order they were pushed. A sorted
      sequence is determined by these per-priority subsequences, so this is
      exactly the stable sort of the pushed events by descending priority. */
  lemma DeliveryOrder<S>(es: seq<Event<S>>, p: int)
    ensures Sorted(PushAll([], es))
    ensures ByPriority(PushAll([], es), p) == ByPriority(es, p)
    ensures multiset(PushAll([], es)) == multiset(es)
  {
    PushAllSorted([], es);
    PushAllByPriority([], es, p);
    PushAllMultiset([], es);
  }

  /** A list node owned by the queue; it holds its own copy of the event. */
  class EventNode<S> {
    var event: Event<S>
    var next: EventNode?<S>

    constructor (event: Event<S>)
      ensures this.event == event && next == null
    {
      this.event := event;
      next := null;
    }
  }

  /** `ns` is a NULL-terminated chain: each node's `next` is its successor. */
  ghost predicate Linked<S>(ns: seq<EventNode<S>>)
    reads ns
  {
    && (forall i :: 0 <= i < |ns| - 1 ==> ns[i].next == ns[i + 1])
    && (ns != [] ==> ns[|ns| - 1].next == null)
  }

  /** The nodes `ns` hold the events `es`, position by position. */
  ghost predicate Holds<S>(ns: seq<EventNode<S>>, es: seq<Event<S>>)
    reads ns
  {
    |ns| == |es| && forall i :: 0 <= i < |ns| ==> ns[i].event == es[i]
  }

  /** Every node of `ns` belongs to the footprint `r`. */
  ghost predicate Within<S>(ns: seq<EventNode<S>>, r: set<EventNode<S>>)
  {
    forall i :: 0 <= i < |ns| ==> ns[i] in r
  }

  /** No node occurs twice, so the chain has no cycle. */
  ghost predicate Distinct<S>(ns: seq<EventNode<S>>)
  {
    forall i, j :: 0 <= i < j < |ns| ==> ns[i] != ns[j]
  }

  /** Inserting `node` at position `k` of a chain: when every old link is
      in place except the one out of the predecessor ns[k - 1], which now
      points to `node`, and `node` points to the old ns[k], the result is a
      chain again. */
  lemma SpliceLinked<S>(ns: seq<EventNode<S>>, k: nat, node: EventNode<S>)
    requires k <= |ns|
    requires forall j :: 0 <= j < |ns| - 1 && j != k - 1 ==> ns[j].next == ns[j + 1]
    requires k < |ns| ==> ns[|ns| - 1].next == null
    requires node.next == (if k < |ns| then ns[k] else null)
    requires k > 0 ==> ns[k - 1].next == node
    ensures Linked(ns[..k] + [node] + ns[k..])
  {
    var r := ns[..k] + [node] + ns[k..];
    forall j | 0 <= j < |r| - 1
      ensures r[j].next == r[j + 1]
    {
      if j < k - 1 {
        assert r[j] == ns[j] && r[j + 1] == ns[j + 1];
      } else if j == k - 1 {
        assert r[j] == ns[k - 1] && r[j + 1] == node;
      } else if j == k {
        assert r[j + 1] == ns[k];
      } else {
        assert r[j] == ns[j - 1] && r[j + 1] == ns[j];
      }
    }
    if k < |ns| {
      assert r[|r| - 1] == ns[|ns| - 1];
    }
  }

  /** Splicing a node holding `e` in at position `k` splices `e` into the
      events at the same position. */
  lemma SpliceHolds<S>(ns: seq<EventNode<S>>, es: seq<Event<S>>, k: nat, node: EventNode<S>, e: Event<S>)
    requires Holds(ns, es) && k <= |ns| && node.event == e
    ensures Holds(ns[..k] + [node] + ns[k..], es[..k] + [e] + es[k..])
  {
    var r, t := ns[..k] + [node] + ns[k..], es[..k] + [e] + es[k..];
    forall j | 0 <= j < |r|
      ensures r[j].event == t[j]
    {
      if j < k {
        assert r[j] == ns[j] && t[j] == es[j];
      } else if j > k {
        assert r[j] == ns[j - 1] && t[j] == es[j - 1];
      }
    }
  }

  /** Splicing a node that is not yet in the chain keeps it free of repeats. */
  lemma SpliceDistinct<S>(ns: seq<EventNode<S>>, k: nat, node: EventNode<S>)
    requires Distinct(ns) && k <= |ns| && node !in ns
    ensures Distinct(ns[..k] + [node] + ns[k..])
  {
    var r := ns[..k] + [node] + ns[k..];
    forall a, b | 0 <= a < b < |r|
      ensures r[a] != r[b]
    {
      var a', b' := if a < k then a else a - 1, if b < k then b else b - 1;
      if a != k && b != k {
        assert r[a] == ns[a'] && r[b] == ns[b'];
      } else if a == k {
        assert r[b] == ns[b'];
      } else {
        assert r[a] == ns[a'];
      }
    }
  }

  /** A node pointing at the head of a chain extends it. */
  lemma ConsLinked<S>(ns: seq<EventNode<S>>, node: EventNode<S>)
    requires Linked(ns)
    requires node.next == (if ns == [] then null else ns[0])
    ensures Linked([node] + ns)
  {
    var r := [node] + ns;
    forall j | 0 < j < |r| - 1
      ensures r[j].next == r[j + 1]
    {
      assert r[j] == ns[j - 1] && r[j + 1] == ns[j];
    }
  }

  /** A node holding `e` in front of nodes holding `es` holds [e] + es. */
  lemma ConsHolds<S>(ns: seq<EventNode<S>>, es: seq<Event<S>>, node: EventNode<S>)
    requires Holds(ns, es)
    ensures Holds([node] + ns, [node.event] + es)
  {
    var r, t := [node] + ns, [node.event] + es;
    forall j | 0 < j < |r|
      ensures r[j].event == t[j]
    {
      assert r[j] == ns[j - 1] && t[j] == es[j - 1];
    }
  }

  /** Splicing a node in, and adding it to the footprint, keeps the chain
      inside the footprint. */
  lemma SpliceWithin<S>(ns: seq<EventNode<S>>, k: nat, node: EventNode<S>, r: set<EventNode<S>>)
    requires Within(ns, r) && k <= |ns|
    ensures Within(ns[..k] + [node] + ns[k..], r + {node})
  {
    var t := ns[..k] + [node] + ns[k..];
    forall j | 0 <= j < |t|
      ensures t[j] in r + {node}
    {
      if j < k {
        assert t[j] == ns[j];
      } else if j > k {
        assert t[j] == ns[j - 1];
      }
    }
  }

  /** Dropping the head of a chain leaves a chain. */
  lemma TailLinked<S>(ns: seq<EventNode<S>>)
    requires Linked(ns) && ns != []
    ensures Linked(ns[1..])
    ensures ns[0].next == (if |ns| > 1 then ns[1] else null)
  {
    var r := ns[1..];
    forall j | 0 <= j < |r| - 1
      ensures r[j].next == r[j + 1]
    {
      assert r[j] == ns[j + 1] && r[j + 1] == ns[j + 2];
    }
  }

  /** The event queue: a linked list from `head` and a size counter. The
      ghost `nodes` lists the nodes from the head, `Contents` their events. */
  class EventQueue<S> {
    var head: EventNode?<S>
    var size: int
    ghost var nodes: seq<EventNode<S>>
    ghost var Contents: seq<Event<S>>
    ghost var Repr: set<EventNode<S>>

    ghost predicate Valid()
      reads this, Repr
    {
      && Within(nodes, Repr)
      && |nodes| == size
      && head == (if nodes == [] then null else nodes[0])
      && Linked(nodes)
      && Holds(nodes, Contents)
      && Distinct(nodes)
      && Sorted(Contents)
    }

    /** event_queue_init: an empty list. The source sets only `head`; this
        model also starts `size` at 0, which the invariant needs. */
    constructor ()
      ensures Valid() && fresh(Repr)
      ensures head == null && size == 0 && Contents == []
    {
      head := null;
      size := 0;
      nodes := [];
      Contents := [];
      Repr := {};
    }

    /** The walk of event.c:98-101: from the head, which ranks at least as
        high as `p`, advance while the next node's priority is at least `p`.
        The node it stops at is the one the new node follows. */
    method FindPredecessor(p: int) returns (curr: EventNode<S>, ghost i: nat)
      requires Valid()
      requires head != null && head.event.priority >= p
      ensures i < |nodes| && curr == nodes[i]
      ensures i + 1 == InsertIndex(Contents, p)
    {
      curr := head;
      i := 0;
      while curr.next != null && curr.next.event.priority >= p
        invariant i < |nodes| && curr == nodes[i]
        invariant forall j :: 0 <= j <= i ==> Contents[j].priority >= p
        decreases |nodes| - i
      {
        assert i + 1 < |nodes| && nodes[i].next == nodes[i + 1];
        assert nodes[i + 1].event == Contents[i + 1];
        curr := curr.next;
        i := i + 1;
      }
      if i + 1 < |nodes| {
        assert nodes[i].next == nodes[i + 1];
        assert nodes[i + 1].event == Contents[i + 1];
      }
    }

    /** The invariant holds again once `node`, holding an event of the
        priority that ranks at InsertIndex `k`, has been spliced into the
        chain `ns` at `k` and added to the footprint `r`. */
    lemma SplicedValid(ns: seq<EventNode<S>>, q: seq<Event<S>>, k: nat, node: EventNode<S>, r: set<EventNode<S>>)
      requires k <= |ns| == |q| && Within(ns, r) && Distinct(ns) && node !in ns
      requires nodes == ns[..k] + [node] + ns[k..] && Contents == q[..k] + [node.event] + q[k..]
      requires Repr == r + {node} && size == |ns| + 1 && head == nodes[0]
      requires Linked(nodes) && Holds(nodes, Contents) && Sorted(Contents)
      ensures Valid()
    {
      SpliceDistinct(ns, k, node);
      SpliceWithin(ns, k, node, r);
    }

    /** The same for a node put in front of the chain. */
    lemma ConsValid(ns: seq<EventNode<S>>, node: EventNode<S>, r: set<EventNode<S>>)
      requires Within(ns, r) && Distinct(ns) && node !in ns
      requires nodes == [node] + ns && Repr == r + {node} && size == |ns| + 1 && head == node
      requires Linked(nodes) && Holds(nodes, Contents) && Sorted(Contents)
      ensures Valid()
    {
      assert ns[..0] + [node] + ns[0..] == nodes;
      SpliceDistinct(ns, 0, node);
      SpliceWithin(ns, 0, node, r);
    }

    /** Lines 93-96 of event_queue_push: a node whose event ranks strictly
        above the head (or any node, on an empty queue) becomes the head. */
    method LinkFront(node: EventNode<S>)
      requires Valid() && node !in Repr
      requires head == null || head.event.priority < node.event.priority
      requires Sorted([node.event] + Contents)
      modifies this, node
      ensures Valid() && Repr == old(Repr) + {node}
      ensures nodes == [node] + old(nodes) && Contents == [old(node.event)] + old(Contents)
      ensures size == old(size) + 1
    {
      ghost var ns, q := nodes, Contents;
      assert node !in ns;
      node.next := head;
      head := node;
      nodes := [node] + ns;
      Contents := [node.event] + q;
      Repr := Repr + {node};
      size := size + 1;
      assert Linked(ns) && Holds(ns, q);
      ConsLinked(ns, node);
      ConsHolds(ns, q, node);
      ConsValid(ns, node, old(Repr));
    }

    /** Lines 102-103 of event_queue_push: `node` is linked in right after
        `curr`, the node at position i; the caller has found that this is the
        position its event ranks at. */
    method LinkAfter(curr: EventNode<S>, ghost i: nat, node: EventNode<S>)
      requires Valid() && node !in Repr
      requires i < |nodes| && curr == nodes[i]
      requires Sorted(Contents[..i + 1] + [node.event] + Contents[i + 1..])
      modifies this, Repr, node
      ensures Valid() && Repr == old(Repr) + {node}
      ensures nodes == old(nodes[..i + 1] + [node] + nodes[i + 1..])
      ensures Contents == old(Contents[..i + 1] + [node.event] + Contents[i + 1..])
      ensures size == old(size) + 1
    {
      ghost var ns, q, k, e := nodes, Contents, i + 1, node.event;
      if k < |ns| {
        assert curr.next == ns[k];
      }
      node.next := curr.next;
      curr.next := node;
      nodes := ns[..k] + [node] + ns[k..];
      Contents := q[..k] + [e] + q[k..];
      Repr := Repr + {node};
      size := size + 1;
      assert Linked(nodes) by {
        // Only the new node and the predecessor ns[k - 1] changed their links.
        forall j | 0 <= j < |ns| - 1 && j != k - 1
          ensures ns[j].next == ns[j + 1]
        {
          assert ns[j] in old(Repr) && old(ns[j].next) == ns[j + 1];
        }
        if k < |ns| {
          assert ns[|ns| - 1] in old(Repr) && old(ns[|ns| - 1].next) == null;
        }
        SpliceLinked(ns, k, node);
      }
      assert Holds(nodes, Contents) by {
        forall j | 0 <= j < |ns|
          ensures ns[j].event == q[j]
        {
          assert old(ns[j].event) == q[j];
        }
        SpliceHolds(ns, q, k, node, e);
      }
      assert head == nodes[0];
      SplicedValid(ns, q, k, node, old(Repr));
    }

    /** event_queue_push: puts a node holding `e` after every event of
        priority at least e.priority and before the first lower one. */
    method Push(e: Event<S>)
      requires Valid()
      modifies this, Repr
      ensures Valid() && fresh(Repr - old(Repr))
      ensures Contents == Inserted(old(Contents), e)
      ensures size == old(size) + 1
    {
      ghost var q := Contents;
      var node := new EventNode(e);
      InsertedSorted(q, e);
      if head == null || head.event.priority < e.priority {
        assert q == [] || q[0] == head.event;
        LinkFront(node);
      } else {
        var curr;
        ghost var i;
        curr, i := FindPredecessor(e.priority);
        InsertedSplice(q, e);
        LinkAfter(curr, i, node);
      }
    }

    /** event_queue_pop: on an empty queue returns 0 and leaves both the queue
        and the caller's event (`previous`) as they were; otherwise returns 1
        with the head event, which has the highest priority, and unlinks it. */
    method Pop(previous: Event<S>) returns (found: int, ev: Event<S>)
      requires Valid()
      modifies this
      ensures Valid() && Repr <= old(Repr)
      ensures old(Contents) == [] ==>
        found == 0 && ev == previous && Contents == old(Contents) && size == old(size)
      ensures old(Contents) != [] ==>
        && found == 1 && ev == old(Contents)[0]
        && Contents == old(Contents)[1..] && size == old(size) - 1
      ensures found == 1 ==> forall i :: 0 <= i < |Contents| ==> ev.priority >= Contents[i].priority
    {
      if head == null {
        return 0, previous;
      }
      SortedFront(Contents);
      TailLinked(nodes);
      ev := head.event;
      ghost var removed := head;
      head := head.next;
      size := size - 1;
      nodes := nodes[1..];
      Contents := Contents[1..];
      Repr := Repr - {removed};
      found := 1;
    }

    /** event_queue_clean: drops every node, leaving head NULL and size 0. */
    method Clean()
      requires Valid()
      modifies this
      ensures Valid() && head == null && size == 0 && Contents == [] && Repr == {}
    {
      head := null;
      size := 0;
      nodes := [];
      Contents := [];
      Repr := {};
    }
  }
}
