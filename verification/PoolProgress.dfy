/**
 Progress of the thread pool: as long as a task is queued some thread can move, and every move brings
 the pool closer to an empty queue and to rest.
 */
module PoolProgress {
  import opened Pool
  import opened StableQueue

  // ---------- Sums over threads ----------

  function Total<T>(f: T -> nat, ts: seq<T>): nat {
    if ts == [] then 0 else f(ts[0]) + Total(f, ts[1..])
  }

  lemma {:induction false} TotalUpdate<T>(f: T -> nat, ts: seq<T>, i: nat, t: T)
    requires i < |ts|
    ensures Total(f, ts[i := t]) + f(ts[i]) == Total(f, ts) + f(t)
    decreases |ts|
  {
    var us := ts[i := t];
    if i == 0 {
      assert us[1..] == ts[1..];
    } else {
      TotalUpdate(f, ts[1..], i - 1, t);
      assert us[1..] == ts[1..][i - 1 := t];
    }
  }

  lemma {:induction false} TotalGrows<T>(f: T -> nat, ts: seq<T>, us: seq<T>, d: nat)
    requires |us| == |ts| && forall i :: 0 <= i < |ts| ==> f(us[i]) <= f(ts[i]) + d
    ensures Total(f, us) <= Total(f, ts) + d * |ts|
    decreases |ts|
  {
    if ts != [] {
      TotalGrows(f, ts[1..], us[1..], d);
    }
  }

  // ---------- Somebody can move ----------

  /** Calls bring in new work and spurious wake-ups come from outside; all other steps are the pool's own. */
  predicate Own(a: Step) {
    !a.Call? && !a.Spurious?
  }

  /** While something is queued there is always a thread that can take a step of its own. */
  lemma CanStep(s: State) returns (a: Step)
    requires Inv(s) && s.queue != [] && |s.workers| > 0
    ensures Enabled(s, a) && Own(a)
  {
    hide Accounted, HeldOrFreed, RanThenFreed, Sorted, NoOvertaking;
    if s.lock.ByProducer? {
      a := NextOfProducer(s.producers[s.lock.p], s.lock.p);
    } else {
      var w := if s.lock.ByWorker? then s.lock.w else 0;
      a := NextOfWorker(s.workers[w], w);
    }
  }

  /** What a worker that is not asleep does next. */
  function NextOfWorker(worker: Worker, w: nat): Step
    requires !worker.Waiting?
  {
    match worker
    case AtLock => Lock(w)
    case Woken => Reacquire(w)
    case Testing => Test(w)
    case Taking => Take(w)
    case Unlocking(_) => Unlock(w)
    case Checking(_) => Check(w)
    case Running(_) => Run(w)
    case Freeing(_) => Free(w)
  }

  function NextOfProducer(producer: Producer, p: nat): Step
    requires !producer.Idle?
  {
    match producer
    case Locking(_) => AddLock(p)
    case Adding(_) => AddInsert(p)
    case Notifying => AddBroadcast(p)
    case Releasing => AddUnlock(p)
  }

  // ---------- Emptying the queue ----------

  /** How far a worker is from its next dequeue, when it will not have to sleep. */
  function ToTake(w: Worker): nat {
    match w
    case Taking => 1
    case Testing => 2
    case AtLock => 3
    case Woken => 3
    case Waiting => 4
    case Freeing(_) => 4
    case Running(_) => 5
    case Checking(_) => 6
    case Unlocking(_) => 7
  }

  function ToReturn(p: Producer): nat {
    match p
    case Idle => 0
    case Releasing => 1
    case Notifying => 2
    case Adding(_) => 11
    case Locking(_) => 12
  }

  function Backlog(s: State): nat {
    8 * |s.queue| + Total(ToTake, s.workers) + Total(ToReturn, s.producers)
  }

  /** With a queued task, every step but a new call lowers the backlog, spurious wake-ups included. */
  lemma BacklogFalls(s: State, a: Step)
    requires Served(s) && s.queue != [] && Enabled(s, a) && !a.Call?
    ensures Backlog(Next(s, a)) < Backlog(s)
  {
    hide Insert, Total;
    var n := Next(s, a);
    if Actor(a).ByWorker? {
      TotalUpdate(ToTake, s.workers, a.w, n.workers[a.w]);
    } else {
      TotalUpdate(ToReturn, s.producers, a.p, n.producers[a.p]);
      if a.AddBroadcast? {
        TotalGrows(ToTake, s.workers, n.workers, 0);
      } else if a.AddInsert? {
        InsertLength(s.queue, Item(s.producers[a.p].task.priority, |s.inserted|));
      }
    }
  }

  /** A run without new calls in which a task is queued before every step. */
  predicate Busy(s: State, run: seq<Step>)
    decreases |run|
  {
    run == [] || (s.queue != [] && Enabled(s, run[0]) && !run[0].Call? && Busy(Next(s, run[0]), run[1..]))
  }

  /** However the scheduler chooses, the queue is empty after at most `Backlog` steps. */
  lemma {:induction false} QueueEmpties(s: State, run: seq<Step>)
    requires Inv(s) && Busy(s, run)
    ensures |run| <= Backlog(s)
    decreases |run|
  {
    if run != [] {
      hide Next, Enabled, Backlog;
      BacklogFalls(s, run[0]);
      InvStep(s, run[0]);
      hide Inv;
      QueueEmpties(Next(s, run[0]), run[1..]);
    }
  }

  // ---------- Coming to rest ----------

  /** How far a worker is from sleeping. */
  function ToSleep(w: Worker): nat {
    match w
    case Waiting => 0
    case Taking => 2
    case Testing => 3
    case AtLock => 4
    case Woken => 4
    case Freeing(_) => 6
    case Running(_) => 7
    case Checking(_) => 8
    case Unlocking(_) => 9
  }

  /** A producer's remaining steps, where its broadcast may send `n` workers round their loop. */
  function ToIdle(p: Producer, n: nat): nat {
    match p
    case Idle => 0
    case Releasing => 1
    case Notifying => 2 + 4 * n
    case Adding(_) => 11 + 4 * n
    case Locking(_) => 12 + 4 * n
  }

  function Work(s: State): nat {
    var n := |s.workers|;
    8 * |s.queue| + Total(ToSleep, s.workers) + Total((p: Producer) => ToIdle(p, n), s.producers)
  }

  /** Every step of the pool's own lowers the work that is left; a spurious wake-up adds at most four. */
  lemma WorkFalls(s: State, a: Step)
    requires Served(s) && Enabled(s, a) && !a.Call?
    ensures |Next(s, a).workers| == |s.workers|
    ensures Work(Next(s, a)) <= Work(s) + if a.Spurious? then 4 else -1
  {
    hide Insert, Total;
    var n := Next(s, a);
    var m := |s.workers|;
    var f := (p: Producer) => ToIdle(p, m);
    if Actor(a).ByWorker? {
      TotalUpdate(ToSleep, s.workers, a.w, n.workers[a.w]);
    } else {
      TotalUpdate(f, s.producers, a.p, n.producers[a.p]);
      if a.AddBroadcast? {
        TotalGrows(ToSleep, s.workers, n.workers, 4);
      } else if a.AddInsert? {
        InsertLength(s.queue, Item(s.producers[a.p].task.priority, |s.inserted|));
      }
    }
  }

  function SpuriousWakeUps(run: seq<Step>): nat {
    if run == [] then 0 else (if run[0].Spurious? then 1 else 0) + SpuriousWakeUps(run[1..])
  }

  /** Without new calls a run can only be prolonged by spurious wake-ups, each by at most five steps. */
  lemma {:induction false} RunEnds(s: State, run: seq<Step>)
    requires Inv(s) && IsRun(s, run) && forall a :: a in run ==> !a.Call?
    ensures |run| <= Work(s) + 5 * SpuriousWakeUps(run)
    decreases |run|
  {
    if run != [] {
      hide Next, Enabled, Work;
      assert run[0] in run;
      WorkFalls(s, run[0]);
      InvStep(s, run[0]);
      hide Inv;
      RunEnds(Next(s, run[0]), run[1..]);
    }
  }

  /** The pool has nothing to do of its own accord. */
  ghost predicate AtRest(s: State) {
    forall a :: Own(a) ==> !Enabled(s, a)
  }

  /** What a pool at rest looks like, and that nothing less is rest. */
  lemma RestMeansIdle(s: State)
    requires Inv(s) && |s.workers| > 0
    ensures AtRest(s) <==> (s.queue == []
                            && (forall i :: 0 <= i < |s.workers| ==> s.workers[i].Waiting?)
                            && (forall j :: 0 <= j < |s.producers| ==> s.producers[j].Idle?))
  {
    hide Accounted, HeldOrFreed, RanThenFreed, Sorted, NoOvertaking;
    if AtRest(s) {
      assert s.lock.ByWorker? ==> Own(NextOfWorker(s.workers[s.lock.w], s.lock.w));
      assert s.lock.ByProducer? ==> Own(NextOfProducer(s.producers[s.lock.p], s.lock.p));
      forall i | 0 <= i < |s.workers| ensures s.workers[i].Waiting? {
        assert !s.workers[i].Waiting? ==> Own(NextOfWorker(s.workers[i], i));
      }
      forall j | 0 <= j < |s.producers| ensures s.producers[j].Idle? {
        assert !s.producers[j].Idle? ==> Own(NextOfProducer(s.producers[j], j));
      }
      assert s.workers[0].Waiting?;
    }
  }

  /** When the pool has come to rest, every accepted task was executed once and its node freed once. */
  lemma RestMeansDone(s: State)
    requires Inv(s) && |s.workers| > 0 && AtRest(s)
    ensures multiset(s.ran) == multiset(s.freed) == multiset(UpTo(|s.inserted|))
  {
    RestMeansIdle(s);
    GatherNothing(Hand, s.workers);
    GatherNothing(Returned, s.workers);
  }

  /** The tasks with these tickets; a ticket that was never given out has none. */
  function TasksOf(tasks: seq<Task>, ts: seq<nat>): (r: seq<Task>)
    ensures |r| == |ts|
    ensures forall i :: 0 <= i < |ts| && ts[i] < |tasks| ==> r[i] == tasks[ts[i]]
  {
    seq(|ts|, i requires 0 <= i < |ts| => TaskOf(tasks, ts[i]))
  }

  function TaskOf(tasks: seq<Task>, t: nat): Task {
    if t < |tasks| then tasks[t] else Task(0, 0, 0)
  }

  function Omit<T>(s: seq<T>, j: nat): (r: seq<T>)
    requires j < |s|
    ensures |r| == |s| - 1
  {
    s[..j] + s[j + 1..]
  }

  lemma OmitOne<T>(s: seq<T>, j: nat)
    requires j < |s|
    ensures multiset(s) == multiset(Omit(s, j)) + multiset{s[j]}
  {
    assert s == s[..j] + [s[j]] + s[j + 1..];
  }

  lemma OmitBoth(ts: seq<nat>, us: seq<nat>, i: nat, j: nat)
    requires i < |ts| && j < |us| && ts[i] == us[j] && multiset(ts) == multiset(us)
    ensures multiset(Omit(ts, i)) == multiset(Omit(us, j))
  {
    hide Omit;
    OmitOne(ts, i);
    OmitOne(us, j);
    assert multiset(Omit(ts, i)) == multiset(ts) - multiset{ts[i]};
  }

  lemma OmitTask(tasks: seq<Task>, ts: seq<nat>, j: nat)
    requires j < |ts|
    ensures multiset(TasksOf(tasks, ts)) == multiset(TasksOf(tasks, Omit(ts, j))) + multiset{TaskOf(tasks, ts[j])}
  {
    hide TaskOf;
    OmitOne(TasksOf(tasks, ts), j);
    assert Omit(TasksOf(tasks, ts), j) == TasksOf(tasks, Omit(ts, j));
  }

  lemma PlaceOf(us: seq<nat>, t: nat) returns (j: nat)
    requires t in multiset(us)
    ensures j < |us| && us[j] == t
  {
    j :| j < |us| && us[j] == t;
  }

  lemma {:induction false} SameTickets(tasks: seq<Task>, ts: seq<nat>, us: seq<nat>)
    requires multiset(ts) == multiset(us)
    ensures multiset(TasksOf(tasks, ts)) == multiset(TasksOf(tasks, us))
    decreases |ts|
  {
    if ts == [] {
      NoTickets(us);
    } else {
      hide Omit, TasksOf, TaskOf;
      assert ts[0] in multiset(ts);
      var j := PlaceOf(us, ts[0]);
      OmitBoth(ts, us, 0, j);
      SameTickets(tasks, Omit(ts, 0), Omit(us, j));
      OmitTask(tasks, ts, 0);
      OmitTask(tasks, us, j);
    }
  }

  lemma NoTickets(us: seq<nat>)
    requires multiset(us) == multiset{}
    ensures us == []
  {
    assert |us| == |multiset(us)|;
  }

  /** From end to end: when the pool has come to rest, the executed tasks are exactly the offered ones. */
  lemma OfferedExecuted(workers: nat, producers: nat, run: seq<Step>)
    requires workers > 0 && IsRun(Start(workers, producers), run)
    requires AtRest(Exec(Start(workers, producers), run))
    ensures var s := Exec(Start(workers, producers), run);
      && (forall i :: 0 <= i < |s.ran| ==> s.ran[i] < |s.inserted|)
      && multiset(TasksOf(s.inserted, s.ran)) == multiset(Offered(run))
  {
    var s := Exec(Start(workers, producers), run);
    Reachable(workers, producers, run);
    WorkersKept(Start(workers, producers), run);
    hide IsRun, Exec, Inv, AtRest;
    RestMeansIdle(s);
    RestMeansDone(s);
    OfferedInserted(workers, producers, run);
    AllTickets(s.ran, |s.inserted|);
    SameTickets(s.inserted, s.ran, UpTo(|s.inserted|));
    assert TasksOf(s.inserted, UpTo(|s.inserted|)) == s.inserted;
  }

  lemma AllTickets(ts: seq<nat>, n: nat)
    requires multiset(ts) == multiset(UpTo(n))
    ensures forall i :: 0 <= i < |ts| ==> ts[i] < n
  {
    forall i | 0 <= i < |ts| ensures ts[i] < n {
      assert ts[i] in multiset(ts);
      assert ts[i] in multiset(UpTo(n));
      assert ts[i] in UpTo(n);
    }
  }
}
