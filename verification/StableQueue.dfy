/**
 Insertion into a priority list as a function on values, and what a queue built by it is: the stable
 sort of everything that was added.
 */
module StableQueue {

  /** The number of leading elements that stay in front of a newcomer of priority `p`. */
  function InsertPos(ps: seq<int>, p: int): (k: nat)
    ensures k <= |ps|
    ensures forall i :: 0 <= i < k ==> ps[i] <= p
    ensures k < |ps| ==> p < ps[k]
  {
    if ps == [] || p < ps[0] then 0 else 1 + InsertPos(ps[1..], p)
  }

  lemma {:induction false} InsertPosUnique(ps: seq<int>, p: int, k: nat)
    requires k <= |ps|
    requires forall i :: 0 <= i < k ==> ps[i] <= p
    requires k < |ps| ==> p < ps[k]
    ensures k == InsertPos(ps, p)
    decreases |ps|
  {
    if ps != [] && k > 0 {
      assert ps[0] <= p;
      InsertPosUnique(ps[1..], p, k - 1);
    }
  }

  function InsertAt<T>(s: seq<T>, k: nat, x: T): (r: seq<T>)
    requires k <= |s|
    ensures |r| == |s| + 1 && r[k] == x
    ensures forall i :: 0 <= i < k ==> r[i] == s[i]
    ensures forall i :: k < i <= |s| ==> r[i] == s[i - 1]
  {
    s[..k] + [x] + s[k..]
  }

  predicate Ascending(ps: seq<int>) {
    forall i, j :: 0 <= i < j < |ps| ==> ps[i] <= ps[j]
  }

  lemma InsertAscending(ps: seq<int>, p: int)
    requires Ascending(ps)
    ensures Ascending(InsertAt(ps, InsertPos(ps, p), p))
  {
    var k := InsertPos(ps, p);
    var r := InsertAt(ps, k, p);
    forall i, j | 0 <= i < j < |r| ensures r[i] <= r[j] {
      if i == k {
        assert r[j] == ps[j - 1];
      }
    }
  }

  /** What waits in the queue: a priority, and a ticket that numbers the insertions. */
  datatype Item = Item(priority: int, ticket: nat)

  function Priorities(q: seq<Item>): (ps: seq<int>)
    ensures |ps| == |q| && forall i :: 0 <= i < |q| ==> ps[i] == q[i].priority
  {
    seq(|q|, i requires 0 <= i < |q| => q[i].priority)
  }

  function Insert(q: seq<Item>, x: Item): seq<Item> {
    InsertAt(q, InsertPos(Priorities(q), x.priority), x)
  }

  /** Lower priority numbers first, and earlier insertions first among equals. */
  predicate Before(a: Item, b: Item) {
    a.priority < b.priority || (a.priority == b.priority && a.ticket < b.ticket)
  }

  predicate Ordered(q: seq<Item>) {
    forall i, j :: 0 <= i < j < |q| ==> Before(q[i], q[j])
  }

  /** A newcomer with the next ticket keeps the queue ordered, although its ticket is not looked at. */
  lemma InsertOrdered(q: seq<Item>, x: Item)
    requires Ordered(q) && forall i :: 0 <= i < |q| ==> q[i].ticket < x.ticket
    ensures Ordered(Insert(q, x))
  {
    var k := InsertPos(Priorities(q), x.priority);
    var r := Insert(q, x);
    forall i, j | 0 <= i < j < |r| ensures Before(r[i], r[j]) {
      if i == k {
        assert r[j] == q[j - 1];
        assert q[k] == q[j - 1] || Before(q[k], q[j - 1]);
        assert x.priority < Priorities(q)[k];
      } else if j == k {
        assert Priorities(q)[i] <= x.priority;
      }
    }
  }

  lemma InsertContents(q: seq<Item>, x: Item)
    ensures multiset(Insert(q, x)) == multiset(q) + multiset{x}
  {
    var k := InsertPos(Priorities(q), x.priority);
    assert q == q[..k] + q[k..];
  }

  lemma InsertMembers(q: seq<Item>, x: Item, y: Item)
    ensures y in Insert(q, x) <==> y in q || y == x
  {
    InsertContents(q, x);
    assert y in Insert(q, x) <==> y in multiset(Insert(q, x));
    assert y in q <==> y in multiset(q);
  }

  // ---------- Adding a whole sequence ----------

  /** The queue after insertions with priorities `ps`, numbered in this order. */
  function InsertAll(ps: seq<int>): seq<Item> {
    if ps == [] then [] else
      Insert(InsertAll(ps[..|ps| - 1]), Item(ps[|ps| - 1], |ps| - 1))
  }

  /** `q` holds exactly the elements of `ps`, each once, in stable priority order. */
  ghost predicate IsStableSort(q: seq<Item>, ps: seq<int>) {
    && |q| == |ps| && Ordered(q)
    && (forall x :: x in q <==> x.ticket < |ps| && x.priority == ps[x.ticket])
  }

  lemma InsertSorts(q: seq<Item>, ps: seq<int>, p: int)
    requires IsStableSort(q, ps)
    ensures IsStableSort(Insert(q, Item(p, |ps|)), ps + [p])
  {
    hide Insert;
    var x := Item(p, |ps|);
    assert forall i :: 0 <= i < |q| ==> q[i] in q;
    InsertOrdered(q, x);
    InsertLength(q, x);
    forall y ensures y in Insert(q, x) <==> y.ticket < |ps + [p]| && y.priority == (ps + [p])[y.ticket] {
      InsertMembers(q, x, y);
    }
  }

  lemma InsertLength(q: seq<Item>, x: Item)
    ensures |Insert(q, x)| == |q| + 1
  {
  }

  lemma {:induction false} InsertAllSorts(ps: seq<int>)
    ensures IsStableSort(InsertAll(ps), ps)
    decreases |ps|
  {
    hide Insert, IsStableSort;
    if ps == [] {
      EmptyIsStableSort();
    } else {
      var n := |ps| - 1;
      InsertAllSorts(ps[..n]);
      InsertSorts(InsertAll(ps[..n]), ps[..n], ps[n]);
      assert ps[..n] + [ps[n]] == ps;
    }
  }

  lemma InsertAllNext(ps: seq<int>, n: nat)
    requires n < |ps|
    ensures InsertAll(ps[..n + 1]) == Insert(InsertAll(ps[..n]), Item(ps[n], n))
  {
    hide Insert;
    assert ps[..n + 1][..n] == ps[..n];
  }

  lemma EmptyIsStableSort()
    ensures IsStableSort([], [])
  {
  }

  /** There is only one stable sort, so the queue is it. */
  lemma StableSortUnique(q1: seq<Item>, q2: seq<Item>, ps: seq<int>)
    requires IsStableSort(q1, ps) && IsStableSort(q2, ps)
    ensures q1 == q2
  {
    OrderedUnique(q1, q2);
  }

  lemma {:induction false} OrderedUnique(q1: seq<Item>, q2: seq<Item>)
    requires Ordered(q1) && Ordered(q2) && |q1| == |q2|
    requires forall x :: x in q1 <==> x in q2
    ensures q1 == q2
    decreases |q1|
  {
    if q1 != [] {
      assert q1[0] in q2;
      assert q2[0] in q1;
      assert q1[0] == q2[0];
      forall x ensures x in q1[1..] <==> x in q2[1..] {
        TailMembers(q1, x);
        TailMembers(q2, x);
      }
      OrderedUnique(q1[1..], q2[1..]);
    }
  }

  lemma TailMembers(q: seq<Item>, x: Item)
    requires Ordered(q) && q != []
    ensures x in q[1..] <==> x in q && x != q[0]
  {
    if x in q && x != q[0] {
      var i :| 0 <= i < |q| && q[i] == x;
      assert q[1..][i - 1] == x;
    }
    if x in q[1..] {
      var i :| 0 <= i < |q| - 1 && q[1..][i] == x;
      assert Before(q[0], q[i + 1]);
    }
  }

  // ---------- Additions and removals in any order ----------

  datatype Call = Put | Get

  function Puts(calls: seq<Call>): (n: nat)
    ensures n <= |calls|
  {
    if calls == [] then 0 else Puts(calls[..|calls| - 1]) + if calls[|calls| - 1].Put? then 1 else 0
  }

  /** The queue after `calls`, where the n-th addition has priority `ps[n]` and ticket `n`. */
  function QueueAfter(calls: seq<Call>, ps: seq<int>): seq<Item>
    requires Puts(calls) <= |ps|
  {
    if calls == [] then [] else
      var before := calls[..|calls| - 1];
      var q := QueueAfter(before, ps);
      if calls[|calls| - 1].Put? then Insert(q, Item(ps[Puts(before)], Puts(before)))
      else if q == [] then []
      else q[1..]
  }

  /** The tickets that `calls` took out, in order; a removal from an empty queue takes nothing. */
  function TakenAfter(calls: seq<Call>, ps: seq<int>): seq<nat>
    requires Puts(calls) <= |ps|
  {
    if calls == [] then [] else
      var before := calls[..|calls| - 1];
      var q := QueueAfter(before, ps);
      if calls[|calls| - 1].Put? || q == [] then TakenAfter(before, ps)
      else TakenAfter(before, ps) + [q[0].ticket]
  }

  /** The items of `q` have tickets below `n` and the priorities that `ps` gives these. */
  predicate Matches(q: seq<Item>, ps: seq<int>, n: nat)
    requires n <= |ps|
  {
    forall i :: 0 <= i < |q| ==> q[i].ticket < n && q[i].priority == ps[q[i].ticket]
  }

  lemma InsertMatches(q: seq<Item>, ps: seq<int>, n: nat)
    requires n < |ps| && Matches(q, ps, n)
    ensures Matches(Insert(q, Item(ps[n], n)), ps, n + 1)
  {
    var k := InsertPos(Priorities(q), ps[n]);
    var r := Insert(q, Item(ps[n], n));
    assert forall i :: 0 <= i < |r| ==> r[i] == if i < k then q[i] else if i == k then Item(ps[n], n) else q[i - 1];
  }

  lemma PutNext(calls: seq<Call>, ps: seq<int>, i: nat)
    requires i < |calls| && calls[i].Put? && Puts(calls[..i + 1]) <= |ps|
    ensures Puts(calls[..i + 1]) == Puts(calls[..i]) + 1
    ensures var n := Puts(calls[..i]);
      QueueAfter(calls[..i + 1], ps) == Insert(QueueAfter(calls[..i], ps), Item(ps[n], n))
    ensures TakenAfter(calls[..i + 1], ps) == TakenAfter(calls[..i], ps)
  {
    hide Insert;
    assert calls[..i + 1][..i] == calls[..i];
  }

  lemma GetNext(calls: seq<Call>, ps: seq<int>, i: nat)
    requires i < |calls| && calls[i].Get? && Puts(calls[..i + 1]) <= |ps|
    ensures Puts(calls[..i + 1]) == Puts(calls[..i])
    ensures var q := QueueAfter(calls[..i], ps);
      && QueueAfter(calls[..i + 1], ps) == (if q == [] then [] else q[1..])
      && TakenAfter(calls[..i + 1], ps) == TakenAfter(calls[..i], ps) + if q == [] then [] else [q[0].ticket]
  {
    hide Insert;
    assert calls[..i + 1][..i] == calls[..i];
  }

  lemma {:induction false} PutsGrow(calls: seq<Call>, i: nat)
    requires i <= |calls|
    ensures Puts(calls[..i]) <= Puts(calls)
    decreases |calls| - i
  {
    if i < |calls| {
      assert calls[..i + 1][..i] == calls[..i];
      PutsGrow(calls, i + 1);
    } else {
      assert calls[..i] == calls;
    }
  }
}
