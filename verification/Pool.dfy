/**
 The thread pool as a protocol: any number of workers and producers share the task queue under one
 mutex and one condition variable, and a scheduler picks the next step.

 A queued task is known by its ticket, the number of tasks inserted before it.  The queue is the
 value that the linked list of module PoolQueue holds; both insert through the same function.
 */
module Pool {
  import opened Wrappers

  import opened StableQueue

  datatype Task = Task(entry: nat, parameter: nat, priority: int)

  /** Where a worker stands in its endless loop. */
  datatype Worker =
    | AtLock                            // about to lock the mutex
    | Testing                           // holds the mutex, looks at the queue length
    | Waiting                           // asleep on the condition, mutex released
    | Woken                             // awake, has to get the mutex back
    | Taking                            // holds the mutex, about to take the head
    | Unlocking(task: Option<nat>)      // holds the mutex, about to release it
    | Checking(task: Option<nat>)       // looks at what it took
    | Running(ticket: nat)              // about to call the task
    | Freeing(ticket: nat)              // the task has returned

  /** Where a producer stands in its call. */
  datatype Producer =
    | Idle
    | Locking(task: Task)               // has a node, about to lock the mutex
    | Adding(task: Task)                // holds the mutex, about to insert
    | Notifying                         // holds the mutex, about to broadcast
    | Releasing                         // holds the mutex, about to release it

  datatype Owner = Nobody | ByWorker(w: nat) | ByProducer(p: nat)

  datatype State = State(
    workers: seq<Worker>,
    producers: seq<Producer>,
    lock: Owner,
    queue: seq<Item>,
    inserted: seq<Task>,                // history: the accepted tasks, by ticket
    taken: seq<nat>,                    // history: tickets in the order they left the queue
    ran: seq<nat>,                      // history: tickets in the order they were executed
    freed: seq<nat>)                    // history: tickets in the order their nodes were freed

  datatype Step =
    | Lock(w: nat) | Reacquire(w: nat) | Test(w: nat) | Take(w: nat) | Unlock(w: nat)
    | Check(w: nat) | Run(w: nat) | Free(w: nat) | Spurious(w: nat)
    | Call(p: nat, task: Task, memory: bool)
    | AddLock(p: nat) | AddInsert(p: nat) | AddBroadcast(p: nat) | AddUnlock(p: nat)

  /** Nothing is queued and the mutex is free when the threads start. */
  function Start(workers: nat, producers: nat): State {
    State(seq(workers, _ => AtLock), seq(producers, _ => Idle), Nobody, [], [], [], [], [])
  }

  predicate Enabled(s: State, a: Step) {
    match a
    case Lock(w) => w < |s.workers| && s.workers[w].AtLock? && s.lock.Nobody?
    case Reacquire(w) => w < |s.workers| && s.workers[w].Woken? && s.lock.Nobody?
    case Test(w) => w < |s.workers| && s.workers[w].Testing?
    case Take(w) => w < |s.workers| && s.workers[w].Taking?
    case Unlock(w) => w < |s.workers| && s.workers[w].Unlocking?
    case Check(w) => w < |s.workers| && s.workers[w].Checking?
    case Run(w) => w < |s.workers| && s.workers[w].Running?
    case Free(w) => w < |s.workers| && s.workers[w].Freeing?
    case Spurious(w) => w < |s.workers| && s.workers[w].Waiting?
    case Call(p, _, _) => p < |s.producers| && s.producers[p].Idle?
    case AddLock(p) => p < |s.producers| && s.producers[p].Locking? && s.lock.Nobody?
    case AddInsert(p) => p < |s.producers| && s.producers[p].Adding?
    case AddBroadcast(p) => p < |s.producers| && s.producers[p].Notifying?
    case AddUnlock(p) => p < |s.producers| && s.producers[p].Releasing?
  }

  function WakeAll(ws: seq<Worker>): (r: seq<Worker>)
    ensures |r| == |ws|
    ensures forall i :: 0 <= i < |ws| ==> r[i] == if ws[i].Waiting? then Woken else ws[i]
  {
    seq(|ws|, i requires 0 <= i < |ws| => if ws[i].Waiting? then Woken else ws[i])
  }

  function Next(s: State, a: Step): State
    requires Enabled(s, a)
  {
    match a
    case Lock(w) => s.(workers := s.workers[w := Testing], lock := ByWorker(w))
    case Reacquire(w) => s.(workers := s.workers[w := Testing], lock := ByWorker(w))
    case Test(w) =>
      if |s.queue| <= 0 then s.(workers := s.workers[w := Waiting], lock := Nobody)
      else s.(workers := s.workers[w := Taking])
    case Take(w) =>
      if s.queue == [] then s.(workers := s.workers[w := Unlocking(None)])
      else s.(workers := s.workers[w := Unlocking(Some(s.queue[0].ticket))],
              queue := s.queue[1..], taken := s.taken + [s.queue[0].ticket])
    case Unlock(w) => s.(workers := s.workers[w := Checking(s.workers[w].task)], lock := Nobody)
    case Check(w) =>
      s.(workers := s.workers[w := if s.workers[w].task.None? then AtLock else Running(s.workers[w].task.value)])
    case Run(w) =>
      var t := s.workers[w].ticket;
      s.(workers := s.workers[w := Freeing(t)], ran := s.ran + [t])
    case Free(w) =>
      s.(workers := s.workers[w := AtLock], freed := s.freed + [s.workers[w].ticket])
    case Spurious(w) => s.(workers := s.workers[w := Woken])
    case Call(p, task, memory) =>
      // A task without a function, a negative priority or a refused allocation makes the call return.
      if task.entry == 0 || task.priority < 0 || !memory then s
      else s.(producers := s.producers[p := Locking(task)])
    case AddLock(p) => s.(producers := s.producers[p := Adding(s.producers[p].task)], lock := ByProducer(p))
    case AddInsert(p) =>
      var task := s.producers[p].task;
      s.(producers := s.producers[p := Notifying],
         queue := Insert(s.queue, Item(task.priority, |s.inserted|)),
         inserted := s.inserted + [task])
    case AddBroadcast(p) => s.(producers := s.producers[p := Releasing], workers := WakeAll(s.workers))
    case AddUnlock(p) => s.(producers := s.producers[p := Idle], lock := Nobody)
  }

  predicate IsRun(s: State, run: seq<Step>)
    decreases |run|
  {
    run == [] || (Enabled(s, run[0]) && IsRun(Next(s, run[0]), run[1..]))
  }

  function Exec(s: State, run: seq<Step>): State
    requires IsRun(s, run)
    decreases |run|
  {
    if run == [] then s else Exec(Next(s, run[0]), run[1..])
  }

  // ---------- Mutual exclusion ----------

  predicate HoldsLock(w: Worker) { w.Testing? || w.Taking? || w.Unlocking? }
  predicate AddsUnderLock(p: Producer) { p.Adding? || p.Notifying? || p.Releasing? }

  /** The threads inside the critical section are exactly the owner of the mutex. */
  predicate Exclusive(s: State) {
    && (forall i :: 0 <= i < |s.workers| ==> (HoldsLock(s.workers[i]) <==> s.lock == ByWorker(i)))
    && (forall j :: 0 <= j < |s.producers| ==> (AddsUnderLock(s.producers[j]) <==> s.lock == ByProducer(j)))
    && (s.lock.ByWorker? ==> s.lock.w < |s.workers|)
    && (s.lock.ByProducer? ==> s.lock.p < |s.producers|)
  }

  lemma ExclusiveStep(s: State, a: Step)
    requires Exclusive(s) && Enabled(s, a)
    ensures Exclusive(Next(s, a))
  {
    hide Insert;
  }

  function Actor(a: Step): Owner {
    match a
    case Call(p, _, _) => ByProducer(p)
    case AddLock(p) => ByProducer(p)
    case AddInsert(p) => ByProducer(p)
    case AddBroadcast(p) => ByProducer(p)
    case AddUnlock(p) => ByProducer(p)
    case _ => ByWorker(a.w)
  }

  /** The list is touched only by the thread that holds the mutex. */
  lemma QueueTouchedUnderLock(s: State, a: Step)
    requires Exclusive(s) && Enabled(s, a)
    ensures Next(s, a).queue != s.queue || Next(s, a).taken != s.taken ==> s.lock == Actor(a)
  {
    hide Insert;
  }

  // ---------- Sleeping ----------

  predicate Announcing(s: State)
    requires Exclusive(s)
  {
    s.lock.ByProducer? && s.producers[s.lock.p].Notifying?
  }

  /** No worker sleeps through a queued task, except between an insertion and its broadcast. */
  predicate Awake(s: State)
    requires Exclusive(s)
  {
    s.queue == [] || Announcing(s) || forall i :: 0 <= i < |s.workers| ==> !s.workers[i].Waiting?
  }

  lemma AwakeStep(s: State, a: Step)
    requires Exclusive(s) && Awake(s) && Enabled(s, a)
    ensures Exclusive(Next(s, a)) && Awake(Next(s, a))
  {
    hide Insert;
    ExclusiveStep(s, a);
  }

  /** A worker about to take the head finds one. */
  predicate Served(s: State) {
    forall i :: 0 <= i < |s.workers| ==>
      && (s.workers[i].Taking? ==> s.queue != [])
      && (s.workers[i].Unlocking? || s.workers[i].Checking? ==> s.workers[i].task.Some?)
  }

  lemma ServedStep(s: State, a: Step)
    requires Exclusive(s) && Served(s) && Enabled(s, a)
    ensures Served(Next(s, a))
  {
    hide Insert;
    if a.AddInsert? {
      InsertLength(s.queue, Item(s.producers[a.p].task.priority, |s.inserted|));
    }
  }

  // ---------- Conservation ----------

  function Gather<T, E(==)>(f: T -> multiset<E>, ws: seq<T>): multiset<E> {
    if ws == [] then multiset{} else f(ws[0]) + Gather(f, ws[1..])
  }

  lemma {:induction false} GatherUpdate<T, E>(f: T -> multiset<E>, ws: seq<T>, i: nat, w: T)
    requires i < |ws|
    ensures f(ws[i]) <= Gather(f, ws)
    ensures Gather(f, ws[i := w]) == Gather(f, ws) - f(ws[i]) + f(w)
    decreases |ws|
  {
    var us := ws[i := w];
    if i == 0 {
      assert us[1..] == ws[1..];
    } else {
      GatherUpdate(f, ws[1..], i - 1, w);
      assert us[1..] == ws[1..][i - 1 := w];
      assert Gather(f, us) == f(ws[0]) + Gather(f, us[1..]);
    }
  }

  lemma {:induction false} GatherSame<T, E>(f: T -> multiset<E>, us: seq<T>, ws: seq<T>)
    requires |us| == |ws| && forall i :: 0 <= i < |us| ==> f(us[i]) == f(ws[i])
    ensures Gather(f, us) == Gather(f, ws)
    decreases |us|
  {
    if us != [] {
      GatherSame(f, us[1..], ws[1..]);
    }
  }

  lemma {:induction false} GatherNothing<T, E>(f: T -> multiset<E>, ws: seq<T>)
    requires forall i :: 0 <= i < |ws| ==> f(ws[i]) == multiset{}
    ensures Gather(f, ws) == multiset{}
    decreases |ws|
  {
    if ws != [] {
      GatherNothing(f, ws[1..]);
    }
  }

  /** The node a worker has in its hand, from the dequeue to the free. */
  function Held(w: Worker): Option<nat> {
    if w.Unlocking? || w.Checking? then w.task
    else if w.Running? || w.Freeing? then Some(w.ticket)
    else None
  }

  function Hand(w: Worker): multiset<nat> {
    if Held(w).Some? then multiset{Held(w).value} else multiset{}
  }

  /** The node in its hand whose task has already returned. */
  function Returned(w: Worker): multiset<nat> {
    if w.Freeing? then multiset{w.ticket} else multiset{}
  }

  function Tickets(q: seq<Item>): (ts: seq<nat>)
    ensures |ts| == |q| && forall i :: 0 <= i < |q| ==> ts[i] == q[i].ticket
  {
    seq(|q|, i requires 0 <= i < |q| => q[i].ticket)
  }

  function UpTo(n: nat): (ts: seq<nat>)
    ensures |ts| == n && forall i :: 0 <= i < n ==> ts[i] == i
  {
    seq(n, i => i)
  }

  /** Every accepted task is either queued or has left the queue, once. */
  predicate Accounted(s: State) {
    multiset(Tickets(s.queue)) + multiset(s.taken) == multiset(UpTo(|s.inserted|))
  }

  /** What has left the queue is in a hand or freed. */
  predicate HeldOrFreed(s: State) {
    multiset(s.taken) == Gather(Hand, s.workers) + multiset(s.freed)
  }

  /** What has run is being freed or has been. */
  predicate RanThenFreed(s: State) {
    multiset(s.ran) == Gather(Returned, s.workers) + multiset(s.freed)
  }

  lemma InsertTickets(q: seq<Item>, x: Item)
    ensures multiset(Tickets(Insert(q, x))) == multiset(Tickets(q)) + multiset{x.ticket}
  {
    var k := InsertPos(Priorities(q), x.priority);
    var ts := Tickets(q);
    assert Tickets(Insert(q, x)) == ts[..k] + [x.ticket] + ts[k..];
    assert ts == ts[..k] + ts[k..];
  }

  lemma TakeTickets(q: seq<Item>)
    requires q != []
    ensures multiset(Tickets(q)) == multiset{q[0].ticket} + multiset(Tickets(q[1..]))
  {
    assert Tickets(q) == [q[0].ticket] + Tickets(q[1..]);
  }

  lemma UpToNext(n: nat)
    ensures multiset(UpTo(n + 1)) == multiset(UpTo(n)) + multiset{n}
  {
    assert UpTo(n + 1) == UpTo(n) + [n];
  }

  lemma AccountedPut(s: State, n: State, x: Item)
    requires Accounted(s) && x.ticket == |s.inserted| && |n.inserted| == |s.inserted| + 1
    requires n.queue == Insert(s.queue, x) && n.taken == s.taken
    ensures Accounted(n)
  {
    hide Insert, Tickets, UpTo;
    InsertTickets(s.queue, x);
    UpToNext(|s.inserted|);
  }

  lemma AccountedTake(s: State, n: State)
    requires Accounted(s) && s.queue != [] && n.inserted == s.inserted
    requires n.queue == s.queue[1..] && n.taken == s.taken + [s.queue[0].ticket]
    ensures Accounted(n)
  {
    hide Tickets, UpTo;
    TakeTickets(s.queue);
  }

  lemma AccountedStep(s: State, a: Step)
    requires Accounted(s) && Enabled(s, a)
    ensures Accounted(Next(s, a))
  {
    hide Insert, WakeAll, Accounted;
    var n := Next(s, a);
    if a.AddInsert? {
      AccountedPut(s, n, Item(s.producers[a.p].task.priority, |s.inserted|));
    } else if a.Take? && s.queue != [] {
      AccountedTake(s, n);
    } else {
      assert n.queue == s.queue && n.taken == s.taken && n.inserted == s.inserted;
      AccountedSame(s, n);
    }
  }

  lemma AccountedSame(s: State, n: State)
    requires Accounted(s) && n.queue == s.queue && n.taken == s.taken && n.inserted == s.inserted
    ensures Accounted(n)
  {
  }

  lemma WorkerStep(s: State, a: Step)
    requires Enabled(s, a) && Actor(a).ByWorker?
    ensures var n := Next(s, a); n.workers == s.workers[a.w := n.workers[a.w]]
  {
  }

  /** A hand that fills is listed as taken, one that empties as freed, and no other step changes a hand. */
  lemma HeldMoves(s: State, a: Step)
    requires Enabled(s, a) && Actor(a).ByWorker?
    ensures var n := Next(s, a); var h0 := Held(s.workers[a.w]); var h1 := Held(n.workers[a.w]);
      || (h0 == h1 && n.taken == s.taken && n.freed == s.freed)
      || (h0.None? && h1.Some? && n.taken == s.taken + [h1.value] && n.freed == s.freed)
      || (h0.Some? && h1.None? && n.taken == s.taken && n.freed == s.freed + [h0.value])
  {
  }

  lemma HandMoves(s: State, a: Step)
    requires Enabled(s, a) && Actor(a).ByWorker?
    ensures var n := Next(s, a); multiset(n.taken) + Hand(s.workers[a.w]) + multiset(s.freed)
                                 == multiset(s.taken) + Hand(n.workers[a.w]) + multiset(n.freed)
  {
    hide Next, Enabled, Held;
    HeldMoves(s, a);
  }

  /** A task that returns is listed as executed, a node given up as freed, and no other step counts. */
  lemma ReturnedChanges(s: State, a: Step)
    requires Enabled(s, a) && Actor(a).ByWorker?
    ensures var n := Next(s, a); var w0 := s.workers[a.w]; var w1 := n.workers[a.w];
      || (!w0.Freeing? && !w1.Freeing? && n.ran == s.ran && n.freed == s.freed)
      || (!w0.Freeing? && w1.Freeing? && n.ran == s.ran + [w1.ticket] && n.freed == s.freed)
      || (w0.Freeing? && !w1.Freeing? && n.ran == s.ran && n.freed == s.freed + [w0.ticket])
  {
  }

  lemma ReturnedMoves(s: State, a: Step)
    requires Enabled(s, a) && Actor(a).ByWorker?
    ensures var n := Next(s, a); multiset(n.ran) + Returned(s.workers[a.w]) + multiset(s.freed)
                                 == multiset(s.ran) + Returned(n.workers[a.w]) + multiset(n.freed)
  {
    hide Next, Enabled;
    ReturnedChanges(s, a);
  }

  lemma Balance(t0: multiset<nat>, t1: multiset<nat>, g: multiset<nat>, h0: multiset<nat>, h1: multiset<nat>,
                f0: multiset<nat>, f1: multiset<nat>)
    requires t0 == g + f0 && h0 <= g && t1 + h0 + f0 == t0 + h1 + f1
    ensures t1 == g - h0 + h1 + f1
  {
    forall x: nat ensures t1[x] == (g - h0 + h1 + f1)[x] {
      assert (t1 + h0 + f0)[x] == (t0 + h1 + f1)[x];
    }
  }

  lemma HeldOrFreedStep(s: State, a: Step)
    requires HeldOrFreed(s) && RanThenFreed(s) && Enabled(s, a)
    ensures HeldOrFreed(Next(s, a)) && RanThenFreed(Next(s, a))
  {
    hide Gather, Hand, Returned, Insert;
    var n := Next(s, a);
    if a.AddBroadcast? {
      WakeAllKeeps(s.workers);
    } else if Actor(a).ByWorker? {
      WorkerStep(s, a);
      HandMoves(s, a);
      ReturnedMoves(s, a);
      hide Next, Enabled;
      GatherUpdate(Hand, s.workers, a.w, n.workers[a.w]);
      GatherUpdate(Returned, s.workers, a.w, n.workers[a.w]);
      Balance(multiset(s.taken), multiset(n.taken), Gather(Hand, s.workers),
              Hand(s.workers[a.w]), Hand(n.workers[a.w]), multiset(s.freed), multiset(n.freed));
      Balance(multiset(s.ran), multiset(n.ran), Gather(Returned, s.workers),
              Returned(s.workers[a.w]), Returned(n.workers[a.w]), multiset(s.freed), multiset(n.freed));
    }
  }

  lemma WakeAllKeeps(ws: seq<Worker>)
    ensures Gather(Hand, WakeAll(ws)) == Gather(Hand, ws)
    ensures Gather(Returned, WakeAll(ws)) == Gather(Returned, ws)
  {
    GatherSame(Hand, WakeAll(ws), ws);
    GatherSame(Returned, WakeAll(ws), ws);
  }

  // ---------- Order ----------

  /** The queue is sorted and holds what was inserted under each ticket. */
  predicate Sorted(s: State) {
    && Ordered(s.queue)
    && (forall x :: x in s.queue ==> x.ticket < |s.inserted| && x.priority == s.inserted[x.ticket].priority)
    && (forall t :: t in s.taken ==> t < |s.inserted|)
  }

  lemma SortedStep(s: State, a: Step)
    requires Sorted(s) && Enabled(s, a)
    ensures Sorted(Next(s, a))
  {
    hide Insert, Ordered, WakeAll;
    if a.AddInsert? {
      var x := Item(s.producers[a.p].task.priority, |s.inserted|);
      assert forall i :: 0 <= i < |s.queue| ==> s.queue[i] in s.queue;
      InsertOrdered(s.queue, x);
      forall y | y in Next(s, a).queue
        ensures y.ticket < |s.inserted| + 1 && y.priority == Next(s, a).inserted[y.ticket].priority
      {
        InsertMembers(s.queue, x, y);
      }
    } else if a.Take? && s.queue != [] {
      assert s.queue[0] in s.queue;
      TailOrdered(s.queue);
    }
  }

  lemma TailOrdered(q: seq<Item>)
    requires Ordered(q) && q != []
    ensures Ordered(q[1..])
  {
    forall i, j | 0 <= i < j < |q| - 1 ensures Before(q[1..][i], q[1..][j]) {
      assert Before(q[i + 1], q[j + 1]);
    }
  }

  /** Ticket `a` was given out before ticket `b`, to a task that is at least as urgent. */
  predicate Precedes(inserted: seq<Task>, a: nat, b: nat) {
    a < b < |inserted| && inserted[a].priority <= inserted[b].priority
  }

  /** When a task has left the queue, so has every earlier one that is at least as urgent, before it. */
  ghost predicate NoOvertaking(s: State) {
    forall k, a :: 0 <= k < |s.taken| && Precedes(s.inserted, a, s.taken[k]) ==> a in s.taken[..k]
  }

  lemma Somewhere(s: State, t: nat)
    requires Accounted(s) && t < |s.inserted|
    ensures t in s.taken || exists i :: 0 <= i < |s.queue| && s.queue[i].ticket == t
  {
    assert UpTo(|s.inserted|)[t] == t;
    assert t in multiset(UpTo(|s.inserted|));
    if t !in s.taken {
      assert t in multiset(Tickets(s.queue));
      assert t in Tickets(s.queue);
    }
  }

  /** At a dequeue, whatever is earlier and at least as urgent has already gone. */
  lemma HeadIsNext(s: State, a: nat)
    requires Sorted(s) && Accounted(s) && s.queue != []
    requires Precedes(s.inserted, a, s.queue[0].ticket)
    ensures a in s.taken
  {
    assert forall i :: 0 <= i < |s.queue| ==> s.queue[i] in s.queue;
    assert forall i :: 0 < i < |s.queue| ==> Before(s.queue[0], s.queue[i]);
    Somewhere(s, a);
  }

  lemma NoOvertakingTake(s: State, n: State)
    requires Sorted(s) && Accounted(s) && NoOvertaking(s) && s.queue != []
    requires n.taken == s.taken + [s.queue[0].ticket] && n.inserted == s.inserted
    ensures NoOvertaking(n)
  {
    forall k, a | 0 <= k < |n.taken| && Precedes(n.inserted, a, n.taken[k]) ensures a in n.taken[..k] {
      assert n.taken[..k] == s.taken[..k];
      if k == |s.taken| {
        HeadIsNext(s, a);
        assert s.taken[..k] == s.taken;
      }
    }
  }

  lemma NoOvertakingStep(s: State, a: Step)
    requires Sorted(s) && Accounted(s) && NoOvertaking(s) && Enabled(s, a)
    ensures NoOvertaking(Next(s, a))
  {
    if a.Take? && s.queue != [] {
      hide Sorted, NoOvertaking, Accounted;
      NoOvertakingTake(s, Next(s, a));
    } else {
      hide Insert, Accounted, WakeAll;
      var n := Next(s, a);
      assert s.inserted <= n.inserted && n.taken == s.taken;
      hide Next;
      forall k, b | 0 <= k < |n.taken| && Precedes(n.inserted, b, n.taken[k]) ensures b in n.taken[..k] {
        assert s.taken[k] in s.taken;
        assert Precedes(s.inserted, b, s.taken[k]);
      }
    }
  }

  // ---------- Runs ----------

  ghost predicate Inv(s: State) {
    && Exclusive(s) && Awake(s) && Served(s)
    && Accounted(s) && HeldOrFreed(s) && RanThenFreed(s)
    && Sorted(s) && NoOvertaking(s)
  }

  lemma InvStart(workers: nat, producers: nat)
    ensures Inv(Start(workers, producers))
  {
    var s := Start(workers, producers);
    GatherNothing(Hand, s.workers);
    GatherNothing(Returned, s.workers);
  }

  lemma InvStep(s: State, a: Step)
    requires Inv(s) && Enabled(s, a)
    ensures Inv(Next(s, a))
  {
    hide Next, Enabled, Exclusive, Awake, Served, Accounted, HeldOrFreed, RanThenFreed, Sorted, NoOvertaking;
    AwakeStep(s, a);
    ServedStep(s, a);
    AccountedStep(s, a);
    HeldOrFreedStep(s, a);
    SortedStep(s, a);
    NoOvertakingStep(s, a);
  }

  lemma {:induction false} InvRun(s: State, run: seq<Step>)
    requires Inv(s) && IsRun(s, run)
    ensures Inv(Exec(s, run))
    decreases |run|
  {
    hide Inv, Next, Enabled;
    if run != [] {
      InvStep(s, run[0]);
      InvRun(Next(s, run[0]), run[1..]);
    }
  }

  /** Everything below holds in every state that any interleaving of any number of threads can reach. */
  lemma Reachable(workers: nat, producers: nat, run: seq<Step>)
    requires IsRun(Start(workers, producers), run)
    ensures Inv(Exec(Start(workers, producers), run))
  {
    hide Inv, IsRun, Exec, Start;
    InvStart(workers, producers);
    InvRun(Start(workers, producers), run);
  }

  /** In no run does a worker sleep while a task is queued, unless a producer is about to broadcast. */
  lemma NoLostWakeUp(workers: nat, producers: nat, run: seq<Step>, i: nat)
    requires IsRun(Start(workers, producers), run)
    requires var s := Exec(Start(workers, producers), run);
      i < |s.workers| && s.queue != [] && forall p :: 0 <= p < |s.producers| ==> !s.producers[p].Notifying?
    ensures !Exec(Start(workers, producers), run).workers[i].Waiting?
  {
    Reachable(workers, producers, run);
    hide IsRun, Exec, Start, Accounted, HeldOrFreed, RanThenFreed, Sorted, NoOvertaking;
  }

  /** In no run does a worker come back from the queue without an accepted task. */
  lemma NullNeverTaken(workers: nat, producers: nat, run: seq<Step>, i: nat)
    requires IsRun(Start(workers, producers), run)
    requires var s := Exec(Start(workers, producers), run); i < |s.workers| && s.workers[i].Checking?
    ensures var s := Exec(Start(workers, producers), run);
      s.workers[i].task.Some? && s.workers[i].task.value < |s.inserted|
  {
    var s := Exec(Start(workers, producers), run);
    Reachable(workers, producers, run);
    hide IsRun, Exec, Start, Exclusive, Awake, NoOvertaking, Gather;
    assert s.workers[i].task.Some?;
    HandAccepted(s, i);
  }

  lemma HandAccepted(s: State, i: nat)
    requires HeldOrFreed(s) && Sorted(s) && i < |s.workers| && Held(s.workers[i]).Some?
    ensures Held(s.workers[i]).value < |s.inserted|
  {
    var t := Held(s.workers[i]).value;
    GatherUpdate(Hand, s.workers, i, s.workers[i]);
    hide Gather;
    assert t in Hand(s.workers[i]);
    assert t in multiset(s.taken);
    assert t in s.taken;
  }

  /** Each accepted task is in exactly one place, and has been executed once or not yet. */
  lemma ExactlyOnce(s: State, t: nat)
    requires Inv(s)
    ensures multiset(Tickets(s.queue))[t] + Gather(Hand, s.workers)[t] + multiset(s.freed)[t]
            == if t < |s.inserted| then 1 else 0
    ensures multiset(s.ran)[t] == Gather(Returned, s.workers)[t] + multiset(s.freed)[t] <= 1
  {
    UpToOnce(|s.inserted|, t);
    GatherLess(s.workers);
  }

  lemma {:induction false} UpToOnce(n: nat, t: nat)
    ensures multiset(UpTo(n))[t] == if t < n then 1 else 0
  {
    if n == 0 {
      assert UpTo(0) == [];
    } else {
      UpToNext(n - 1);
      UpToOnce(n - 1, t);
    }
  }

  lemma {:induction false} GatherLess(ws: seq<Worker>)
    ensures Gather(Returned, ws) <= Gather(Hand, ws)
    decreases |ws|
  {
    if ws != [] {
      GatherLess(ws[1..]);
    }
  }

  /** No task is taken twice, and an earlier task that is at least as urgent is always taken first. */
  lemma TakenInOrder(s: State, i: nat, j: nat)
    requires Inv(s) && i < |s.taken| && j < |s.taken|
    ensures s.taken[i] == s.taken[j] ==> i == j
    ensures Precedes(s.inserted, s.taken[i], s.taken[j]) ==> i < j
  {
    hide Exclusive, Awake, Served, HeldOrFreed, RanThenFreed, Sorted;
    if s.taken[i] == s.taken[j] {
      TakenOnce(s, i, j);
    }
    if Precedes(s.inserted, s.taken[i], s.taken[j]) {
      var k :| 0 <= k < j && s.taken[..j][k] == s.taken[i];
      TakenOnce(s, i, k);
    }
  }

  /** What is queued has not been taken. */
  lemma QueuedNotTaken(s: State, x: Item)
    requires Accounted(s) && x in s.queue
    ensures x.ticket !in s.taken
  {
    UpToOnce(|s.inserted|, x.ticket);
    var i :| 0 <= i < |s.queue| && s.queue[i] == x;
    assert Tickets(s.queue)[i] == x.ticket;
    assert multiset(Tickets(s.queue))[x.ticket] >= 1;
  }

  /** A step leaves a queued item where it is, or takes it from the head. */
  lemma QueuedStep(s: State, a: Step, x: Item)
    requires Enabled(s, a) && x in s.queue
    ensures var n := Next(s, a);
      || x in n.queue
      || (s.queue[0] == x && n.taken == s.taken + [x.ticket])
  {
    hide Insert, WakeAll;
    if a.AddInsert? {
      InsertMembers(s.queue, Item(s.producers[a.p].task.priority, |s.inserted|), x);
    }
  }

  lemma {:induction false} TakenGrows(s: State, run: seq<Step>)
    requires IsRun(s, run)
    ensures s.taken <= Exec(s, run).taken
    decreases |run|
  {
    if run != [] {
      TakenStep(s, run[0]);
      hide Next, Enabled;
      TakenGrows(Next(s, run[0]), run[1..]);
    }
  }

  lemma TakenStep(s: State, a: Step)
    requires Enabled(s, a)
    ensures s.taken <= Next(s, a).taken
  {
    hide Insert, WakeAll;
  }

  /** `x` comes before `y` in a record of tickets: where `y` occurs, `x` occurs, and no `y` up to there. */
  ghost predicate ComesFirst(ts: seq<nat>, x: nat, y: nat) {
    y in ts ==> exists k :: 0 <= k < |ts| && ts[k] == x && y !in ts[..k + 1]
  }

  lemma HeadFirst(s: State, x: Item, y: Item)
    requires Sorted(s) && x in s.queue && y in s.queue && Before(x, y)
    ensures s.queue[0] != y
  {
  }

  /** Of two waiting tasks the more urgent one, or the earlier of equals, is always taken first,
      whatever is added and whoever runs in between. */
  lemma {:induction false} QueuedInOrder(s: State, run: seq<Step>, x: Item, y: Item)
    requires Inv(s) && x in s.queue && y in s.queue && Before(x, y) && IsRun(s, run)
    ensures ComesFirst(Exec(s, run).taken, x.ticket, y.ticket)
    decreases |run|
  {
    QueuedNotTaken(s, x);
    QueuedNotTaken(s, y);
    if run != [] {
      var n := Next(s, run[0]);
      InvStep(s, run[0]);
      QueuedStep(s, run[0], x);
      QueuedStep(s, run[0], y);
      HeadFirst(s, x, y);
      if x in n.queue {
        hide Inv, Next, Enabled, ComesFirst, Before;
        QueuedInOrder(n, run[1..], x, y);
      } else {
        HeadTaken(s, run, x, y);
      }
    }
  }

  lemma HeadTaken(s: State, run: seq<Step>, x: Item, y: Item)
    requires Inv(s) && IsRun(s, run) && run != [] && x in s.queue && y in s.queue && Before(x, y)
    requires Next(s, run[0]).taken == s.taken + [x.ticket]
    ensures ComesFirst(Exec(s, run).taken, x.ticket, y.ticket)
  {
    var k, t := |s.taken|, Exec(s, run).taken;
    QueuedNotTaken(s, y);
    TicketsDiffer(s, x, y);
    TakenGrows(Next(s, run[0]), run[1..]);
    hide Inv, Next, Enabled;
    assert t[..k + 1] == s.taken + [x.ticket];
    assert t[k] == x.ticket;
  }

  lemma TicketsDiffer(s: State, x: Item, y: Item)
    requires Sorted(s) && x in s.queue && y in s.queue && Before(x, y)
    ensures x.ticket != y.ticket
  {
  }

  lemma TakenOnce(s: State, i: nat, j: nat)
    requires Accounted(s) && i < |s.taken| && j < |s.taken| && s.taken[i] == s.taken[j]
    ensures i == j
  {
    UpToOnce(|s.inserted|, s.taken[i]);
    if i != j {
      Repeated(s.taken, if i < j then i else j, if i < j then j else i);
    }
  }

  lemma Repeated(ts: seq<nat>, i: nat, j: nat)
    requires i < j < |ts| && ts[i] == ts[j]
    ensures multiset(ts)[ts[i]] >= 2
  {
    assert ts == ts[..j] + ts[j..];
    assert ts[..j][i] == ts[j..][0] == ts[i];
  }

  // ---------- One worker ----------

  /** What a worker has taken and not executed yet. */
  function Pending(w: Worker): seq<nat> {
    if (w.Unlocking? || w.Checking?) && w.task.Some? then [w.task.value]
    else if w.Running? then [w.ticket]
    else []
  }

  /** A sole worker executes what it takes before it takes the next. */
  predicate InTurn(s: State) {
    |s.workers| == 1 ==> s.taken == s.ran + Pending(s.workers[0])
  }

  lemma InTurnStep(s: State, a: Step)
    requires InTurn(s) && Enabled(s, a)
    ensures InTurn(Next(s, a))
  {
    hide Insert;
  }

  lemma {:induction false} InTurnRun(s: State, run: seq<Step>)
    requires InTurn(s) && IsRun(s, run)
    ensures InTurn(Exec(s, run))
    decreases |run|
  {
    hide InTurn, Next, Enabled;
    if run != [] {
      InTurnStep(s, run[0]);
      InTurnRun(Next(s, run[0]), run[1..]);
    }
  }

  lemma {:induction false} WorkersKept(s: State, run: seq<Step>)
    requires IsRun(s, run)
    ensures |Exec(s, run).workers| == |s.workers|
    decreases |run|
  {
    hide Insert;
    if run != [] {
      WorkersKept(Next(s, run[0]), run[1..]);
    }
  }

  /** With one worker the order holds for the executions themselves: whatever precedes an executed
      task has been executed before it. */
  lemma ExecutedInOrder(producers: nat, run: seq<Step>, j: nat, a: nat)
    requires IsRun(Start(1, producers), run)
    requires var s := Exec(Start(1, producers), run); j < |s.ran| && Precedes(s.inserted, a, s.ran[j])
    ensures a in Exec(Start(1, producers), run).ran[..j]
  {
    var start := Start(1, producers);
    var s := Exec(start, run);
    Reachable(1, producers, run);
    InTurnRun(start, run);
    WorkersKept(start, run);
    assert s.taken[..j] == s.ran[..j] && s.taken[j] == s.ran[j];
  }

  lemma {:induction false} RunConcat(s: State, a: seq<Step>, b: seq<Step>)
    requires IsRun(s, a) && IsRun(Exec(s, a), b)
    ensures IsRun(s, a + b) && Exec(s, a + b) == Exec(Exec(s, a), b)
    decreases |a|
  {
    hide Next, Enabled;
    if a == [] {
      assert a + b == b;
    } else {
      assert (a + b)[0] == a[0] && (a + b)[1..] == a[1..] + b;
      RunConcat(Next(s, a[0]), a[1..], b);
    }
  }

  /** Urgent tasks overtake: once two tasks wait at the same time, in any run of any pool, the more
      urgent one is taken first, also when it was inserted later; a sole worker executes it first. */
  lemma UrgentFirst(workers: nat, producers: nat, before: seq<Step>, after: seq<Step>, x: Item, y: Item)
    requires IsRun(Start(workers, producers), before)
    requires IsRun(Exec(Start(workers, producers), before), after)
    requires var s := Exec(Start(workers, producers), before); x in s.queue && y in s.queue && Before(x, y)
    ensures var t := Exec(Exec(Start(workers, producers), before), after);
      && ComesFirst(t.taken, x.ticket, y.ticket)
      && (workers == 1 ==> ComesFirst(t.ran, x.ticket, y.ticket))
  {
    var start := Start(workers, producers);
    var s := Exec(start, before);
    Reachable(workers, producers, before);
    QueuedInOrder(s, after, x, y);
    if workers == 1 {
      RunConcat(start, before, after);
      InTurnRun(start, before + after);
      WorkersKept(start, before + after);
      ExecutedFirst(Exec(s, after), x.ticket, y.ticket);
    }
  }

  lemma ExecutedFirst(s: State, x: nat, y: nat)
    requires InTurn(s) && |s.workers| == 1 && ComesFirst(s.taken, x, y)
    ensures ComesFirst(s.ran, x, y)
  {
    if y in s.ran {
      var j :| 0 <= j < |s.ran| && s.ran[j] == y;
      assert s.taken[j] == y;
      var k :| 0 <= k < |s.taken| && s.taken[k] == x && y !in s.taken[..k + 1];
      assert forall i :: 0 <= i <= k ==> s.taken[..k + 1][i] == s.taken[i];
      assert s.ran[k] == x && s.ran[..k + 1] == s.taken[..k + 1];
    }
  }

  // ---------- The queue of a run ----------

  /** What a run does to the queue. */
  function CallsOf(run: seq<Step>): seq<Call> {
    if run == [] then [] else
      var a := run[|run| - 1];
      CallsOf(run[..|run| - 1]) + if a.AddInsert? then [Put] else if a.Take? then [Get] else []
  }

  function PrioritiesOf(tasks: seq<Task>): (ps: seq<int>)
    ensures |ps| == |tasks| && forall i :: 0 <= i < |tasks| ==> ps[i] == tasks[i].priority
  {
    seq(|tasks|, i requires 0 <= i < |tasks| => tasks[i].priority)
  }

  /** Queue and dequeues are those of the calls, made one after the other on a queue of its own. */
  predicate Played(s: State, calls: seq<Call>) {
    && Puts(calls) == |s.inserted|
    && s.queue == QueueAfter(calls, PrioritiesOf(s.inserted))
    && s.taken == TakenAfter(calls, PrioritiesOf(s.inserted))
  }

  lemma {:induction false} LaterPriorities(calls: seq<Call>, ps: seq<int>, qs: seq<int>)
    requires Puts(calls) <= |ps| && ps <= qs
    ensures QueueAfter(calls, ps) == QueueAfter(calls, qs) && TakenAfter(calls, ps) == TakenAfter(calls, qs)
    decreases |calls|
  {
    hide Insert;
    if calls != [] {
      LaterPriorities(calls[..|calls| - 1], ps, qs);
    }
  }

  lemma PlayedPut(s: State, calls: seq<Call>, task: Task, n: State)
    requires Played(s, calls) && n.inserted == s.inserted + [task] && n.taken == s.taken
    requires n.queue == Insert(s.queue, Item(task.priority, |s.inserted|))
    ensures Played(n, calls + [Put])
  {
    hide Insert;
    var ps, qs := PrioritiesOf(s.inserted), PrioritiesOf(n.inserted);
    assert (calls + [Put])[..|calls|] == calls && ps <= qs;
    LaterPriorities(calls, ps, qs);
  }

  lemma PlayedGet(s: State, calls: seq<Call>, n: State)
    requires Played(s, calls) && n.inserted == s.inserted
    requires n.queue == if s.queue == [] then [] else s.queue[1..]
    requires n.taken == if s.queue == [] then s.taken else s.taken + [s.queue[0].ticket]
    ensures Played(n, calls + [Get])
  {
    hide Insert;
    assert (calls + [Get])[..|calls|] == calls;
  }

  lemma PlayedStep(s: State, calls: seq<Call>, a: Step)
    requires Played(s, calls) && Enabled(s, a)
    ensures Played(Next(s, a), calls + if a.AddInsert? then [Put] else if a.Take? then [Get] else [])
  {
    hide Insert, WakeAll, Puts, QueueAfter, TakenAfter;
    var n := Next(s, a);
    if a.AddInsert? {
      PlayedPut(s, calls, s.producers[a.p].task, n);
    } else if a.Take? {
      PlayedGet(s, calls, n);
    } else {
      assert calls + [] == calls;
    }
  }

  /** In every run the queue of the pool is what its insertions and dequeues, one after the other, make
      of a queue that starts empty; the linked list does the same with them. */
  lemma {:induction false} QueueOfRun(workers: nat, producers: nat, run: seq<Step>)
    requires IsRun(Start(workers, producers), run)
    ensures Played(Exec(Start(workers, producers), run), CallsOf(run))
    decreases |run|
  {
    var start := Start(workers, producers);
    if run != [] {
      var n := |run| - 1;
      RunPrefix(start, run, n);
      hide Played, Next, Enabled, Start;
      QueueOfRun(workers, producers, run[..n]);
      PlayedStep(Exec(start, run[..n]), CallsOf(run[..n]), run[n]);
    }
  }

  lemma {:induction false} RunPrefix(s: State, run: seq<Step>, n: nat)
    requires IsRun(s, run) && n == |run| - 1
    ensures IsRun(s, run[..n])
    ensures Enabled(Exec(s, run[..n]), run[n]) && Exec(s, run) == Next(Exec(s, run[..n]), run[n])
    decreases |run|
  {
    hide Next, Enabled;
    if n == 0 {
      assert run[1..] == [];
    } else {
      RunPrefix(Next(s, run[0]), run[1..], n - 1);
      assert run[1..][..n - 1] == run[..n][1..];
    }
  }

  // ---------- What the calls offered ----------

  /** The task of a call that is not refused: it has a function, its priority is not negative, and there
      is memory for its node. */
  function Offer(a: Step): seq<Task> {
    if a.Call? && a.task.entry != 0 && a.task.priority >= 0 && a.memory then [a.task] else []
  }

  function Offered(run: seq<Step>): seq<Task> {
    if run == [] then [] else Offered(run[..|run| - 1]) + Offer(run[|run| - 1])
  }

  /** The task that a producer has accepted and not inserted yet. */
  function Carried(p: Producer): seq<Task> {
    if p.Locking? || p.Adding? then [p.task] else []
  }

  function Underway(p: Producer): multiset<Task> {
    multiset(Carried(p))
  }

  /** A call that is not refused makes its task the caller's, an insertion lists it, unchanged, and no
      other step has to do with tasks. */
  lemma OfferMoves(s: State, a: Step)
    requires Enabled(s, a) && Actor(a).ByProducer?
    ensures a.p < |s.producers|
    ensures var n := Next(s, a); var p0 := s.producers[a.p]; var p1 := n.producers[a.p];
      n.producers == s.producers[a.p := p1] && OfferMove(p0, p1, s.inserted, n.inserted, Offer(a))
  {
    hide Insert, WakeAll, Underway;
    if a.Call? {
      assert Next(s, a).inserted == s.inserted;
    }
  }

  predicate OfferMove(p0: Producer, p1: Producer, before: seq<Task>, after: seq<Task>, offer: seq<Task>) {
    || (Carried(p0) == Carried(p1) && after == before && offer == [])
    || (Carried(p0) == [] && Carried(p1) == offer && after == before)
    || (Carried(p1) == [] && after == before + Carried(p0) && offer == [])
  }

  lemma WorkersOfferNothing(s: State, a: Step)
    requires Enabled(s, a) && Actor(a).ByWorker?
    ensures Next(s, a).producers == s.producers && Next(s, a).inserted == s.inserted && Offer(a) == []
  {
    hide Insert;
  }

  lemma OfferedStep(s: State, a: Step)
    requires Enabled(s, a)
    ensures multiset(Next(s, a).inserted) + Gather(Underway, Next(s, a).producers)
            == multiset(s.inserted) + Gather(Underway, s.producers) + multiset(Offer(a))
  {
    hide Next, Enabled, Gather, Offer, OfferMove, Carried, Underway;
    var n := Next(s, a);
    if Actor(a).ByWorker? {
      WorkersOfferNothing(s, a);
    } else {
      OfferMoves(s, a);
      var p0, p1 := s.producers[a.p], n.producers[a.p];
      GatherUpdate(Underway, s.producers, a.p, p1);
      MoveBalance(p0, p1, s.inserted, n.inserted, Offer(a));
      OfferBalance(multiset(s.inserted), multiset(n.inserted), Gather(Underway, s.producers),
                   Underway(p0), Underway(p1), multiset(Offer(a)));
    }
  }

  lemma MoveBalance(p0: Producer, p1: Producer, before: seq<Task>, after: seq<Task>, offer: seq<Task>)
    requires OfferMove(p0, p1, before, after, offer)
    ensures multiset(after) + Underway(p1) == multiset(before) + Underway(p0) + multiset(offer)
  {
    hide Carried;
  }

  lemma OfferBalance(i0: multiset<Task>, i1: multiset<Task>, g: multiset<Task>, h0: multiset<Task>,
                     h1: multiset<Task>, o: multiset<Task>)
    requires h0 <= g && i1 + h1 == i0 + h0 + o
    ensures i1 + (g - h0 + h1) == i0 + g + o
  {
    forall x: Task ensures (i1 + (g - h0 + h1))[x] == (i0 + g + o)[x] {
      assert (i1 + h1)[x] == (i0 + h0 + o)[x];
    }
  }

  /** In every run the inserted tasks and those on their way are the offered ones, unchanged. */
  lemma {:induction false} OfferedTasks(workers: nat, producers: nat, run: seq<Step>)
    requires IsRun(Start(workers, producers), run)
    ensures var s := Exec(Start(workers, producers), run);
      multiset(s.inserted) + Gather(Underway, s.producers) == multiset(Offered(run))
    decreases |run|
  {
    var start := Start(workers, producers);
    if run == [] {
      GatherNothing(Underway, start.producers);
    } else {
      var n := |run| - 1;
      RunPrefix(start, run, n);
      hide Next, Enabled, Start, Gather, Underway, Offer;
      OfferedTasks(workers, producers, run[..n]);
      OfferedStep(Exec(start, run[..n]), run[n]);
      assert multiset(Offered(run)) == multiset(Offered(run[..n])) + multiset(Offer(run[n]));
    }
  }

  /** When no producer is in a call, exactly the offered tasks have been inserted. */
  lemma OfferedInserted(workers: nat, producers: nat, run: seq<Step>)
    requires IsRun(Start(workers, producers), run)
    requires var s := Exec(Start(workers, producers), run);
      forall j :: 0 <= j < |s.producers| ==> s.producers[j].Idle?
    ensures multiset(Exec(Start(workers, producers), run).inserted) == multiset(Offered(run))
  {
    OfferedTasks(workers, producers, run);
    GatherNothing(Underway, Exec(Start(workers, producers), run).producers);
  }
}
