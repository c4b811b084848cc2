/**
 The task queue of the thread pool: heap nodes linked through `next`, inserted by counting and then
 walking, with a ghost sequence that says which nodes the list consists of.
 */
module PoolQueue {
  import opened StableQueue

  const PE_PRIORITY_ERROR: int := -6
  const PE_QUEUE_NODE_NO_MEM: int := -7

  /** A task with its place in the list; the function and its argument are opaque addresses. */
  class Node {
    var entry: nat
    var parameter: nat
    var priority: int
    var next: Node?

    constructor (entry: nat, parameter: nat, priority: int)
      ensures this.entry == entry && this.parameter == parameter
      ensures this.priority == priority && next == null
    {
      this.entry := entry;
      this.parameter := parameter;
      this.priority := priority;
      next := null;
    }
  }

  /** Allocation may be refused; `errno` is the error variable before and after the call. */
  method NewNode(entry: nat, parameter: nat, priority: int, memory: bool, errno: int)
    returns (node: Node?, errno': int)
    ensures node != null <==> priority >= 0 && memory
    ensures node != null ==>
              && fresh(node) && node.next == null && node.priority == priority
              && node.entry == entry && node.parameter == parameter && errno' == errno
    ensures priority < 0 ==> errno' == PE_PRIORITY_ERROR
    ensures priority >= 0 && !memory ==> errno' == PE_QUEUE_NODE_NO_MEM
  {
    node, errno' := null, errno;
    if priority < 0 {
      errno' := PE_PRIORITY_ERROR;
      return;
    }
    if !memory {
      errno' := PE_QUEUE_NODE_NO_MEM;
      return;
    }
    node := new Node(entry, parameter, priority);
  }

  /** The allocator as far as the queue is concerned: which blocks may still be touched, and in which
      order blocks were given back.  What a block holds after it was given back is arbitrary. */
  class Heap {
    ghost var live: set<object>
    ghost var released: seq<object>

    /** The link of a node that has not been given back. */
    method Next(node: Node) returns (next: Node?)
      requires node in live
      ensures next == node.next
    {
      next := node.next;
    }

    method FreeNode(node: Node)
      requires node in live
      modifies this, node
      ensures live == old(live) - {node} && released == old(released) + [node]
    {
      node.entry, node.parameter, node.priority := *, *, *;
      node.next := *;
      live := live - {node};
      released := released + [node];
    }

    method FreeQueue(queue: Queue)
      requires queue in live && queue != this as object
      modifies this, queue
      ensures live == old(live) - {queue} && released == old(released) + [queue]
    {
      queue.len, queue.head := *, *;
      live := live - {queue};
      released := released + [queue];
    }
  }

  /** The node at position `i`, or null past the end. */
  function NodeAt(nodes: seq<Node>, i: nat): (n: Node?) {
    if i < |nodes| then nodes[i] else null
  }

  /** The first `i` nodes, as blocks of memory. */
  ghost function Blocks(nodes: seq<Node>, i: nat): set<object>
    requires i <= |nodes|
  {
    set j | 0 <= j < i :: nodes[j]
  }

  lemma NoBlocks(nodes: seq<Node>)
    ensures Blocks(nodes, 0) == {}
  {
  }

  lemma NextBlock(nodes: seq<Node>, i: nat)
    requires i < |nodes|
    ensures Blocks(nodes, i + 1) == Blocks(nodes, i) + {nodes[i]}
    ensures nodes[..i + 1] == nodes[..i] + [nodes[i]]
  {
  }

  lemma AllBlocks(nodes: seq<Node>)
    ensures forall b: object :: b in Blocks(nodes, |nodes|) <==> b in nodes
  {
  }

  class Queue {
    var len: int
    var head: Node?

    /** The nodes from the head on. */
    ghost var nodes: seq<Node>

    ghost function At(i: nat): (n: Node?)
      reads this
    {
      NodeAt(nodes, i)
    }

    ghost predicate Linked()
      reads this, nodes
    {
      && head == At(0) && len == |nodes|
      && (forall i :: 0 <= i < |nodes| ==> nodes[i].next == At(i + 1))
      && (forall i, j :: 0 <= i < j < |nodes| ==> nodes[i] != nodes[j])
    }

    ghost function Priorities(): (ps: seq<int>)
      reads this, nodes
      ensures |ps| == |nodes| && forall i :: 0 <= i < |nodes| ==> ps[i] == nodes[i].priority
    {
      seq(|nodes|, i requires 0 <= i < |nodes| reads this, nodes => nodes[i].priority)
    }

    ghost predicate Valid()
      reads this, nodes
      ensures Valid() ==> (head == null <==> nodes == [])
    {
      Linked() && Ascending(Priorities())
    }

    constructor ()
      ensures Valid() && nodes == []
    {
      len := 0;
      head := null;
      nodes := [];
    }

    method GetInsertPos(priority: int) returns (pos: int)
      requires Linked()
      ensures pos == if nodes == [] then -1 else InsertPos(Priorities(), priority)
    {
      var h := head;
      if h == null {
        return -1;
      }
      pos := 0;
      while h != null && priority >= h.priority
        invariant 0 <= pos <= |nodes| && h == At(pos)
        invariant forall i :: 0 <= i < pos ==> nodes[i].priority <= priority
        decreases |nodes| - pos
      {
        h := h.next;
        pos := pos + 1;
      }
      InsertPosUnique(Priorities(), priority, pos);
    }

    /** The node after which the newcomer belongs. */
    method Walk(steps: nat) returns (h: Node)
      requires Linked() && steps < |nodes|
      ensures h == nodes[steps]
    {
      h := head;
      for i := 0 to steps
        invariant h == nodes[i]
      {
        h := h.next;
      }
    }

    /** Puts `node` in front of the list. */
    method LinkFirst(node: Node)
      requires Linked() && node !in nodes
      modifies this, node`next
      ensures nodes == InsertAt(old(nodes), 0, node)
      ensures Linked() <==> old(nodes) != [] || old(node.next) == null
      ensures old(nodes) == [] ==> head == node && len == 1 && node.next == old(node.next)
    {
      if head != null {
        node.next := head;
      }
      head := node;
      len := len + 1;
      nodes := InsertAt(nodes, 0, node);
    }

    /** Puts `node` behind node `k - 1`, which is `h`. */
    method LinkAfter(h: Node, node: Node, ghost k: nat)
      requires Linked() && node !in nodes && 0 < k <= |nodes| && h == nodes[k - 1]
      modifies this, node`next, h`next
      ensures Linked() && nodes == InsertAt(old(nodes), k, node)
    {
      node.next := h.next;
      h.next := node;
      len := len + 1;
      nodes := InsertAt(nodes, k, node);
    }

    /** The link of a node that is added to an empty list is not reset.  A node that came out of
        `GetTask` can still have one: then a list of length one has a second node. */
    method Add(node: Node)
      requires Valid() && node !in nodes
      modifies this, node`next, nodes`next
      ensures nodes == InsertAt(old(nodes), InsertPos(old(Priorities()), node.priority), node)
      ensures Valid() <==> old(nodes) != [] || old(node.next) == null
      ensures !Valid() ==> head == node && len == 1 && node.next != null
    {
      hide Linked, InsertAt, InsertPos, Ascending;
      ghost var ns, ps := nodes, Priorities();
      ghost var k := InsertPos(ps, node.priority);
      InsertAscending(ps, node.priority);
      var pos := GetInsertPos(node.priority);
      if pos == -1 || pos == 0 {
        LinkFirst(node);
      } else {
        var h := Walk(pos - 1);
        LinkAfter(h, node, k);
      }
      PrioritiesInserted(ns, ps, k, node);
    }

    lemma PrioritiesInserted(ns: seq<Node>, ps: seq<int>, k: nat, node: Node)
      requires k <= |ns| == |ps| && nodes == InsertAt(ns, k, node)
      requires forall i :: 0 <= i < |ns| ==> ps[i] == ns[i].priority
      ensures Priorities() == InsertAt(ps, k, node.priority)
    {
    }

    method GetTask() returns (task: Node?)
      requires Valid()
      modifies this
      ensures Valid()
      ensures old(nodes) == [] ==> task == null && nodes == []
      ensures old(nodes) != [] ==> task == old(nodes)[0] && nodes == old(nodes)[1..]
    {
      if head == null {
        return null;
      }
      task := head;
      head := head.next;
      len := len - 1;
      nodes := nodes[1..];
    }

    /** Walks the list and gives every node back, each once.  A node's link is read while the node is
        live; read later it would be anything. */
    method ReleaseAll(heap: Heap)
      requires Linked() && heap != this as object
      requires forall n :: n in nodes ==> n in heap.live
      modifies heap, nodes
      ensures heap.released == old(heap.released) + nodes
      ensures forall b :: b in heap.live <==> b in old(heap.live) && b !in nodes
    {
      ghost var ns := nodes;
      ghost var i := 0;
      var h := head;
      assert forall j :: 0 <= j < |ns| ==> ns[j].next == NodeAt(ns, j + 1) && ns[j] in heap.live;
      assert forall j, k :: 0 <= j < k < |ns| ==> ns[j] != ns[k];
      hide Linked, Blocks;
      NoBlocks(ns);
      while h != null
        invariant 0 <= i <= |ns| && h == NodeAt(ns, i)
        invariant forall j :: i <= j < |ns| ==> ns[j].next == NodeAt(ns, j + 1) && ns[j] in heap.live
        invariant heap.released == old(heap.released) + ns[..i]
        invariant heap.live == old(heap.live) - Blocks(ns, i)
        decreases |ns| - i
      {
        var temp := h;
        h := heap.Next(h);
        heap.FreeNode(temp);
        NextBlock(ns, i);
        i := i + 1;
      }
      assert ns[..i] == ns;
      AllBlocks(ns);
    }

    /** Leaves an empty queue, ready for further additions. */
    method Cleanup(heap: Heap)
      requires Valid() && heap != this as object
      requires forall n :: n in nodes ==> n in heap.live
      modifies this, heap, nodes
      ensures Valid() && nodes == []
      ensures heap.released == old(heap.released) + old(nodes)
      ensures forall b :: b in heap.live <==> b in old(heap.live) && b !in old(nodes)
    {
      ReleaseAll(heap);
      len := 0;
      head := null;
      nodes := [];
    }
  }

  /** Gives the nodes back and then the queue itself; a null queue is left alone. */
  method Destroy(queue: Queue?, heap: Heap)
    requires queue != null ==>
               && queue.Valid() && heap != queue as object && queue in heap.live
               && forall n :: n in queue.nodes ==> n in heap.live
    modifies heap, queue, if queue == null then [] else queue.nodes
    ensures queue == null ==> heap.live == old(heap.live) && heap.released == old(heap.released)
    ensures queue != null ==>
              && heap.released == old(heap.released) + old(queue.nodes) + [queue]
              && forall b :: b in heap.live <==> b in old(heap.live) && b !in old(queue.nodes) && b != queue
  {
    if queue == null {
      return;
    }
    queue.ReleaseAll(heap);
    heap.FreeQueue(queue);
  }

  /** The priorities of nodes that are about to be added. */
  ghost function PrioritiesOf(added: seq<Node>): (ps: seq<int>)
    reads added
    ensures |ps| == |added| && forall i :: 0 <= i < |added| ==> ps[i] == added[i].priority
  {
    seq(|added|, i requires 0 <= i < |added| reads added => added[i].priority)
  }

  /** `ns` are the nodes whose tickets stand in `q`, in this order; all tickets are below `n`. */
  ghost predicate Holds(ns: seq<Node>, q: seq<Item>, added: seq<Node>, n: nat)
    requires n <= |added|
  {
    |ns| == |q| && forall i :: 0 <= i < |q| ==> q[i].ticket < n && ns[i] == added[q[i].ticket]
  }

  lemma HoldsInserted(ns: seq<Node>, q: seq<Item>, added: seq<Node>, n: nat, k: nat, p: int)
    requires n < |added| && Holds(ns, q, added, n) && k <= |q|
    ensures Holds(InsertAt(ns, k, added[n]), InsertAt(q, k, Item(p, n)), added, n + 1)
  {
    var r := InsertAt(q, k, Item(p, n));
    forall i | 0 <= i < |r| ensures r[i].ticket < n + 1 && InsertAt(ns, k, added[n])[i] == added[r[i].ticket] {
      if i < k {
        assert r[i] == q[i];
      } else if i > k {
        assert r[i] == q[i - 1];
      }
    }
  }

  lemma HeldPriorities(queue: Queue, q: seq<Item>, added: seq<Node>, n: nat)
    requires n <= |added| && Holds(queue.nodes, q, added, n) && Matches(q, PrioritiesOf(added), n)
    ensures queue.Priorities() == Priorities(q)
  {
  }

  /** The list consists of the nodes whose tickets stand in `q`; of the nodes `added`, which are pairwise
      different and have the priorities `ps`, those from number `n` on are still unused. */
  ghost predicate Mirrors(queue: Queue, q: seq<Item>, added: seq<Node>, n: nat, ps: seq<int>)
    reads queue, queue.nodes, added
  {
    && queue.Valid() && n <= |added| && ps == PrioritiesOf(added)
    && Holds(queue.nodes, q, added, n) && Matches(q, ps, n)
    && (forall i :: n <= i < |added| ==> added[i].next == null)
    && (forall i, j :: 0 <= i < j < |added| ==> added[i] != added[j])
  }

  method AddOne(queue: Queue, ghost q: seq<Item>, added: seq<Node>, n: nat)
    requires n < |added| && queue.Valid() && added[n].next == null
    requires forall i :: 0 <= i < n ==> added[i] != added[n]
    requires Holds(queue.nodes, q, added, n) && Matches(q, PrioritiesOf(added), n)
    modifies queue, {added[n]}`next, queue.nodes`next
    ensures queue.Valid()
    ensures Holds(queue.nodes, Insert(q, Item(old(PrioritiesOf(added))[n], n)), added, n + 1)
    ensures PrioritiesOf(added) == old(PrioritiesOf(added))
  {
    hide InsertAt, InsertPos;
    ghost var p := PrioritiesOf(added)[n];
    HeldPriorities(queue, q, added, n);
    HoldsInserted(queue.nodes, q, added, n, InsertPos(Priorities(q), p), p);
    queue.Add(added[n]);
  }

  lemma HeldAreAdded(ns: seq<Node>, q: seq<Item>, added: seq<Node>, n: nat)
    requires n <= |added| && Holds(ns, q, added, n)
    requires forall i, j :: 0 <= i < j < |added| ==> added[i] != added[j]
    ensures forall i :: 0 <= i < |ns| ==> ns[i] in added
    ensures forall i :: n <= i < |added| ==> added[i] !in ns
  {
  }

  method AddNumbered(queue: Queue, ghost q: seq<Item>, added: seq<Node>, n: nat, ghost ps: seq<int>)
    requires Mirrors(queue, q, added, n, ps) && n < |added|
    modifies queue, added`next
    ensures |ps| == |added| && Mirrors(queue, Insert(q, Item(ps[n], n)), added, n + 1, ps)
  {
    hide Queue.Valid, Queue.Linked, Matches, Holds, PrioritiesOf, Insert;
    HeldAreAdded(queue.nodes, q, added, n);
    InsertMatches(q, ps, n);
    assert added[n] in added;
    AddOne(queue, q, added, n);
  }

  method TakeNumbered(queue: Queue, ghost q: seq<Item>, added: seq<Node>, ghost n: nat, ghost ps: seq<int>)
    returns (task: Node?)
    requires Mirrors(queue, q, added, n, ps)
    modifies queue
    ensures task == null <==> q == []
    ensures q != [] ==> q[0].ticket < |added| && task == added[q[0].ticket]
    ensures Mirrors(queue, if q == [] then [] else q[1..], added, n, ps)
  {
    hide Queue.Valid, Queue.Linked;
    task := queue.GetTask();
  }

  method Drain(queue: Queue) returns (taken: seq<Node>)
    requires queue.Valid()
    modifies queue
    ensures queue.Valid() && queue.nodes == [] && taken == old(queue.nodes)
  {
    hide Queue.Valid, Queue.Linked;
    taken := [];
    while queue.head != null
      invariant queue.Valid() && taken + queue.nodes == old(queue.nodes)
      decreases |queue.nodes|
    {
      var task := queue.GetTask();
      taken := taken + [task];
    }
  }

  lemma MirrorsStart(queue: Queue, added: seq<Node>)
    requires queue.Valid() && queue.nodes == []
    requires forall i :: 0 <= i < |added| ==> added[i].next == null
    requires forall i, j :: 0 <= i < j < |added| ==> added[i] != added[j]
    ensures Mirrors(queue, [], added, 0, PrioritiesOf(added))
  {
  }

  method AddAll(queue: Queue, added: seq<Node>)
    requires queue.Valid() && queue.nodes == []
    requires forall i :: 0 <= i < |added| ==> added[i].next == null
    requires forall i, j :: 0 <= i < j < |added| ==> added[i] != added[j]
    modifies queue, added`next
    ensures queue.Valid() && Holds(queue.nodes, InsertAll(old(PrioritiesOf(added))), added, |added|)
  {
    ghost var ps := PrioritiesOf(added);
    assert InsertAll(ps[..0]) == [] && ps[..|added|] == ps;
    hide Queue.Valid, Queue.Linked, Mirrors, Insert, InsertAll, PrioritiesOf;
    MirrorsStart(queue, added);
    for n := 0 to |added|
      invariant |ps| == |added| && Mirrors(queue, InsertAll(ps[..n]), added, n, ps)
    {
      InsertAllNext(ps, n);
      AddNumbered(queue, InsertAll(ps[..n]), added, n, ps);
    }
    MirrorsHolds(queue, InsertAll(ps), added, |added|, ps);
  }

  lemma MirrorsHolds(queue: Queue, q: seq<Item>, added: seq<Node>, n: nat, ps: seq<int>)
    requires Mirrors(queue, q, added, n, ps)
    ensures n <= |added| && queue.Valid() && Holds(queue.nodes, q, added, n)
  {
  }

  /** Any caller that adds fresh nodes to an empty queue and then drains it gets the stable sort by
      priority of what it added. */
  method AddThenDrain(queue: Queue, added: seq<Node>) returns (taken: seq<Node>)
    requires queue.Valid() && queue.nodes == []
    requires forall i :: 0 <= i < |added| ==> added[i].next == null
    requires forall i, j :: 0 <= i < j < |added| ==> added[i] != added[j]
    modifies queue, added`next
    ensures queue.Valid() && queue.nodes == []
    ensures exists q :: IsStableSort(q, old(PrioritiesOf(added))) && Holds(taken, q, added, |added|)
  {
    hide Queue.Valid, Queue.Linked, IsStableSort, InsertAll, Holds;
    ghost var ps := PrioritiesOf(added);
    AddAll(queue, added);
    InsertAllSorts(ps);
    taken := Drain(queue);
  }

  /** `ns` are the nodes with the tickets `ts`, in this order. */
  ghost predicate AreTickets(ns: seq<Node>, ts: seq<nat>, added: seq<Node>) {
    |ns| == |ts| && forall i :: 0 <= i < |ts| ==> ts[i] < |added| && ns[i] == added[ts[i]]
  }

  lemma TicketsNext(ns: seq<Node>, ts: seq<nat>, added: seq<Node>, t: nat)
    requires AreTickets(ns, ts, added) && t < |added|
    ensures AreTickets(ns + [added[t]], ts + [t], added)
  {
  }

  /** Call `i` of a sequence: an addition uses the next node, a removal returns the head or null. */
  method PlayOne(queue: Queue, calls: seq<Call>, i: nat, added: seq<Node>, n: nat, ghost ps: seq<int>)
    returns (task: Node?, n': nat, ghost t: nat)
    requires i < |calls| && n == Puts(calls[..i]) && Puts(calls) <= |added| == |ps| && n <= |ps|
    requires Mirrors(queue, QueueAfter(calls[..i], ps), added, n, ps)
    modifies queue, added`next
    ensures n' == Puts(calls[..i + 1]) <= |added|
    ensures Mirrors(queue, QueueAfter(calls[..i + 1], ps), added, n', ps)
    ensures task == null ==> TakenAfter(calls[..i + 1], ps) == TakenAfter(calls[..i], ps)
    ensures task != null ==>
      t < |added| && task == added[t] && TakenAfter(calls[..i + 1], ps) == TakenAfter(calls[..i], ps) + [t]
  {
    hide Mirrors, Insert, QueueAfter, TakenAfter, Puts;
    ghost var q := QueueAfter(calls[..i], ps);
    PutsGrow(calls, i + 1);
    task, n', t := null, n, 0;
    if calls[i].Put? {
      PutNext(calls, ps, i);
      AddNumbered(queue, q, added, n, ps);
      n' := n + 1;
    } else {
      GetNext(calls, ps, i);
      task := TakeNumbered(queue, q, added, n, ps);
      t := if q == [] then 0 else q[0].ticket;
    }
  }

  lemma PlayStart(calls: seq<Call>, ps: seq<int>, added: seq<Node>)
    ensures calls[..|calls|] == calls
    ensures Puts(calls[..0]) == 0 && QueueAfter(calls[..0], ps) == []
    ensures AreTickets([], TakenAfter(calls[..0], ps), added)
  {
  }

  /** Any sequence of additions and removals on the linked list does what the same sequence does to a
      queue of items: the nodes left and the nodes taken are those of the tickets left and taken. */
  method Play(queue: Queue, calls: seq<Call>, added: seq<Node>) returns (taken: seq<Node>)
    requires queue.Valid() && queue.nodes == [] && Puts(calls) == |added|
    requires forall i :: 0 <= i < |added| ==> added[i].next == null
    requires forall i, j :: 0 <= i < j < |added| ==> added[i] != added[j]
    modifies queue, added`next
    ensures queue.Valid()
    ensures Holds(queue.nodes, QueueAfter(calls, old(PrioritiesOf(added))), added, |added|)
    ensures AreTickets(taken, TakenAfter(calls, old(PrioritiesOf(added))), added)
  {
    hide Queue.Valid, Queue.Linked, Mirrors, Insert, QueueAfter, TakenAfter, Puts, AreTickets, PrioritiesOf;
    ghost var ps := PrioritiesOf(added);
    MirrorsStart(queue, added);
    PlayStart(calls, ps, added);
    taken := [];
    var n := 0;
    for i := 0 to |calls|
      invariant n == Puts(calls[..i]) <= |added| == |ps|
      invariant Mirrors(queue, QueueAfter(calls[..i], ps), added, n, ps)
      invariant AreTickets(taken, TakenAfter(calls[..i], ps), added)
    {
      ghost var t;
      var task;
      task, n, t := PlayOne(queue, calls, i, added, n, ps);
      if task != null {
        TicketsNext(taken, TakenAfter(calls[..i], ps), added, t);
        taken := taken + [task];
      }
    }
    MirrorsHolds(queue, QueueAfter(calls, ps), added, n, ps);
  }
}
