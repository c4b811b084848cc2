/**
 What the node registry means: a map from names to what is known of the node, and the order in which
 the names came in.  Operations, and the history that every run of them leaves visible.
 */
module NodeDirectory {
  import opened Wrappers

  import opened NodeNames

  /** The fields of a record beside its name. */
  datatype Info = Info(nodeId: bv16, kind: int, state: int, heartbeat: bv32, userData: nat)

  datatype Record = Record(name: NameBuffer, info: Info)

  const OK: int := 0
  const EINVAL: int := -1
  const ENOSPC: int := -2
  const ENOTFOUND: int := -3
  const EDUP: int := -4

  datatype Directory = Directory(order: seq<string>, infos: map<string, Info>)

  const EMPTY: Directory := Directory([], map[])

  datatype Op =
    | Register(record: Option<Record>)
    | Unregister(name: Option<Chars>)
    | UpdateState(name: Option<Chars>, state: int)
    | Heartbeat(name: Option<Chars>, now: bv32)
    | Clear

  /** The key that a name argument stands for, if it is a name at all. */
  function Target(name: Option<Chars>): (k: Option<string>)
    ensures k.Some? ==> ValidKey(k.value)
  {
    if name.Some? && ValidKey(Key(name.value)) then Some(Key(name.value)) else None
  }

  function Without<T(==,!new)>(order: seq<T>, k: T): (r: seq<T>)
    ensures |r| <= |order| && forall x :: x in r <==> x in order && x != k
  {
    if order == [] then [] else (if order[0] == k then [] else [order[0]]) + Without(order[1..], k)
  }

  function Apply(d: Directory, capacity: nat, op: Op): (Directory, int) {
    match op
    case Clear => (EMPTY, OK)
    case Register(None) => (d, EINVAL)
    case Register(Some(r)) =>
      var k := Key(r.name);
      if !ValidKey(k) then (d, EINVAL)
      else if |d.order| >= capacity then (d, ENOSPC)
      else if k in d.infos then (d, EDUP)
      else (Directory(d.order + [k], d.infos[k := r.info]), OK)
    case Unregister(name) =>
      var k := Target(name);
      if k.None? then (d, EINVAL)
      else if k.value !in d.infos then (d, ENOTFOUND)
      else (Directory(Without(d.order, k.value), d.infos - {k.value}), OK)
    case UpdateState(name, state) =>
      var k := Target(name);
      if k.None? || k.value !in d.infos then (d, ENOTFOUND)
      else (d.(infos := d.infos[k.value := d.infos[k.value].(state := state)]), OK)
    case Heartbeat(name, now) =>
      var k := Target(name);
      if k.None? || k.value !in d.infos then (d, ENOTFOUND)
      else (d.(infos := d.infos[k.value := d.infos[k.value].(heartbeat := now)]), OK)
  }

  // ---------- What every operation keeps ----------

  predicate Distinct<T(==)>(order: seq<T>) {
    forall i, j :: 0 <= i < j < |order| ==> order[i] != order[j]
  }

  /** Exactly the listed names are known, each listed once, and all of them are names. */
  ghost predicate WellFormed(d: Directory) {
    && Distinct(d.order)
    && (forall k :: k in d.infos <==> k in d.order)
    && (forall k :: k in d.infos ==> ValidKey(k))
  }

  lemma TailDistinct<T>(order: seq<T>)
    requires Distinct(order) && order != []
    ensures Distinct(order[1..]) && order[0] !in order[1..]
  {
  }

  lemma GapMoves<T>(order: seq<T>, i: nat)
    requires 0 < i < |order|
    ensures [order[0]] + (order[1..][..i - 1] + order[1..][i..]) == order[..i] + order[i + 1..]
    ensures order[1..][i - 1] == order[i]
  {
  }

  lemma WithoutFirst<T(!new)>(order: seq<T>, k: T)
    requires order != []
    ensures Without(order, k) == (if order[0] == k then [] else [order[0]]) + Without(order[1..], k)
  {
  }

  /** Removal of a listed name takes out one place and closes the gap. */
  lemma {:induction false} WithoutAt<T(!new)>(order: seq<T>, i: nat)
    requires Distinct(order) && i < |order|
    ensures Without(order, order[i]) == order[..i] + order[i + 1..]
    decreases |order|
  {
    hide Without;
    TailDistinct(order);
    WithoutFirst(order, order[i]);
    if i == 0 {
      WithoutAbsent(order[1..], order[0]);
      assert [] + order[1..] == order[..0] + order[1..];
    } else {
      assert order[0] != order[i];
      hide Distinct;
      GapMoves(order, i);
      WithoutAt(order[1..], i - 1);
    }
  }

  lemma {:induction false} WithoutAbsent<T(!new)>(order: seq<T>, k: T)
    requires k !in order
    ensures Without(order, k) == order
    decreases |order|
  {
    if order != [] {
      WithoutAbsent(order[1..], k);
      assert order == [order[0]] + order[1..];
    }
  }

  lemma WithoutDistinct<T(!new)>(order: seq<T>, k: T)
    requires Distinct(order)
    ensures Distinct(Without(order, k))
  {
    if k in order {
      var i :| 0 <= i < |order| && order[i] == k;
      WithoutAt(order, i);
    } else {
      WithoutAbsent(order, k);
    }
  }

  lemma ApplyKeeps(d: Directory, capacity: nat, op: Op)
    requires WellFormed(d) && |d.order| <= capacity
    ensures WellFormed(Apply(d, capacity, op).0) && |Apply(d, capacity, op).0.order| <= capacity
  {
    hide Key, Without;
    if op.Unregister? && Target(op.name).Some? {
      WithoutDistinct(d.order, Target(op.name).value);
    }
  }

  /** Registering a node and unregistering it again leaves no trace. */
  lemma RegisterUnregister(d: Directory, capacity: nat, record: Record)
    requires WellFormed(d) && Apply(d, capacity, Register(Some(record))).1 == OK
    ensures var (e, _) := Apply(d, capacity, Register(Some(record)));
            Apply(e, capacity, Unregister(Some(record.name))) == (d, OK)
  {
    hide Key, Without;
    var k := Key(record.name);
    var e := Apply(d, capacity, Register(Some(record))).0;
    ApplyKeeps(d, capacity, Register(Some(record)));
    WithoutAt(e.order, |d.order|);
    assert e.order[..|d.order|] + e.order[|d.order| + 1..] == d.order;
    assert e.infos - {k} == d.infos;
  }

  // ---------- Runs and their history ----------

  datatype Event = Event(op: Op, code: int)

  function Replay(capacity: nat, trace: seq<Event>): Directory {
    if trace == [] then EMPTY
    else Apply(Replay(capacity, trace[..|trace| - 1]), capacity, trace[|trace| - 1].op).0
  }

  /** Every event carries the code that its operation returned at that point of the run. */
  predicate Honest(capacity: nat, trace: seq<Event>) {
    trace == [] ||
    var n := |trace| - 1;
    Honest(capacity, trace[..n]) && trace[n].code == Apply(Replay(capacity, trace[..n]), capacity, trace[n].op).1
  }

  lemma {:induction false} ReplayKeeps(capacity: nat, trace: seq<Event>)
    ensures WellFormed(Replay(capacity, trace)) && |Replay(capacity, trace).order| <= capacity
    decreases |trace|
  {
    hide Apply;
    if trace != [] {
      var n := |trace| - 1;
      ReplayKeeps(capacity, trace[..n]);
      ApplyKeeps(Replay(capacity, trace[..n]), capacity, trace[n].op);
    }
  }

  predicate Registers(e: Event, k: string) {
    e.code == OK && e.op.Register? && e.op.record.Some? && Key(e.op.record.value.name) == k
  }

  predicate Removes(e: Event, k: string) {
    e.code == OK && (e.op.Clear? || (e.op.Unregister? && Target(e.op.name) == Some(k)))
  }

  predicate SetsState(e: Event, k: string) {
    e.code == OK && e.op.UpdateState? && Target(e.op.name) == Some(k)
  }

  predicate SetsHeartbeat(e: Event, k: string) {
    e.code == OK && e.op.Heartbeat? && Target(e.op.name) == Some(k)
  }

  /** The event that registered the node now known as `k`, if there is one. */
  function Registration(trace: seq<Event>, k: string): (i: Option<nat>)
    ensures i.Some? ==> i.value < |trace| && Registers(trace[i.value], k)
  {
    if trace == [] then None else
    var n := |trace| - 1;
    if Registers(trace[n], k) then Some(n)
    else if Removes(trace[n], k) then None
    else Registration(trace[..n], k)
  }

  /** The state last given to the node now known as `k`. */
  function LastState(trace: seq<Event>, k: string): int
    requires Registration(trace, k).Some?
  {
    var n := |trace| - 1;
    if Registers(trace[n], k) then trace[n].op.record.value.info.state
    else if SetsState(trace[n], k) then trace[n].op.state
    else LastState(trace[..n], k)
  }

  /** The last heartbeat of the node now known as `k`. */
  function LastHeartbeat(trace: seq<Event>, k: string): bv32
    requires Registration(trace, k).Some?
  {
    var n := |trace| - 1;
    if Registers(trace[n], k) then trace[n].op.record.value.info.heartbeat
    else if SetsHeartbeat(trace[n], k) then trace[n].op.now
    else LastHeartbeat(trace[..n], k)
  }

  /** What a run leaves known of a node: its registration, and the last state and heartbeat since. */
  function Remembered(trace: seq<Event>, k: string): Info
    requires Registration(trace, k).Some?
  {
    trace[Registration(trace, k).value].op.record.value.info
      .(state := LastState(trace, k), heartbeat := LastHeartbeat(trace, k))
  }

  lemma {:induction false} History(capacity: nat, trace: seq<Event>, k: string)
    requires Honest(capacity, trace)
    ensures k in Replay(capacity, trace).infos <==> Registration(trace, k).Some?
    ensures k in Replay(capacity, trace).infos ==> Replay(capacity, trace).infos[k] == Remembered(trace, k)
    decreases |trace|
  {
    hide Key, ValidKey;
    if trace != [] {
      History(capacity, trace[..|trace| - 1], k);
    }
  }

  /** The listing is by time of registration. */
  ghost predicate ByRegistration(order: seq<string>, trace: seq<Event>) {
    && (forall i :: 0 <= i < |order| ==> Registration(trace, order[i]).Some?)
    && (forall i, j :: 0 <= i < j < |order| ==>
        Registration(trace, order[i]).value < Registration(trace, order[j]).value)
  }

  lemma {:induction false} ListedByRegistration(capacity: nat, trace: seq<Event>)
    requires Honest(capacity, trace)
    ensures ByRegistration(Replay(capacity, trace).order, trace)
    decreases |trace|
  {
    if trace != [] {
      var n := |trace| - 1;
      ListedByRegistration(capacity, trace[..n]);
      ReplayKeeps(capacity, trace[..n]);
      StillByRegistration(Replay(capacity, trace[..n]), capacity, trace);
    }
  }

  lemma StillByRegistration(d: Directory, capacity: nat, trace: seq<Event>)
    requires trace != [] && WellFormed(d) && ByRegistration(d.order, trace[..|trace| - 1])
    requires trace[|trace| - 1].code == Apply(d, capacity, trace[|trace| - 1].op).1
    ensures ByRegistration(Apply(d, capacity, trace[|trace| - 1].op).0.order, trace)
  {
    var n := |trace| - 1;
    var e := trace[n];
    hide Key, Without, ByRegistration, ValidKey, Target;
    var order := Apply(d, capacity, e.op).0.order;
    if e.op.Clear? {
      Empty(trace);
    } else if e.op.Register? && e.code == OK {
      Appended(d.order, trace, Key(e.op.record.value.name));
    } else if e.op.Unregister? && e.code == OK {
      Thinned(d.order, trace, Target(e.op.name).value);
    } else {
      Untouched(d.order, trace);
    }
  }

  lemma Empty(trace: seq<Event>)
    ensures ByRegistration([], trace)
  {
  }

  lemma Untouched(order: seq<string>, trace: seq<Event>)
    requires trace != [] && ByRegistration(order, trace[..|trace| - 1])
    requires forall k :: k in order ==> !Registers(trace[|trace| - 1], k) && !Removes(trace[|trace| - 1], k)
    ensures ByRegistration(order, trace)
  {
    hide Registers, Removes;
    assert forall i :: 0 <= i < |order| ==> order[i] in order;
  }

  lemma Appended(order: seq<string>, trace: seq<Event>, k: string)
    requires trace != [] && ByRegistration(order, trace[..|trace| - 1]) && k !in order
    requires Registers(trace[|trace| - 1], k)
    ensures ByRegistration(order + [k], trace)
  {
    assert forall i :: 0 <= i < |order| ==> order[i] in order;
    Untouched(order, trace);
  }

  lemma Thinned(order: seq<string>, trace: seq<Event>, k: string)
    requires trace != [] && ByRegistration(order, trace[..|trace| - 1]) && Distinct(order) && k in order
    requires trace[|trace| - 1].op.Unregister? && Target(trace[|trace| - 1].op.name) == Some(k)
    ensures ByRegistration(Without(order, k), trace)
  {
    hide Target, Without, ByRegistration, Registration;
    var i :| 0 <= i < |order| && order[i] == k;
    WithoutAt(order, i);
    var r := order[..i] + order[i + 1..];
    Subsequence(order, trace[..|trace| - 1], i);
    assert forall j :: 0 <= j < |r| ==> r[j] == order[if j < i then j else j + 1] != k;
    Untouched(r, trace);
  }

  lemma Subsequence(order: seq<string>, trace: seq<Event>, i: nat)
    requires ByRegistration(order, trace) && i < |order|
    ensures ByRegistration(order[..i] + order[i + 1..], trace)
  {
    hide Registration;
    var r := order[..i] + order[i + 1..];
    assert forall j :: 0 <= j < |r| ==> r[j] == order[if j < i then j else j + 1];
  }

  // ---------- The codes of a run ----------

  /** A name argument that is a name: one to 31 characters before the first NUL. */
  predicate IsName(name: Option<Chars>) {
    name.Some? && 1 <= |Prefix(name.value)| <= 31
  }

  /** What an event does to the names that are registered. */
  function NamesAfter(names: set<string>, e: Event): set<string> {
    if e.code != 0 then names else
      match e.op
      case Register(record) => if record.Some? then names + {Prefix(record.value.name)} else names
      case Unregister(name) => if name.Some? then names - {Prefix(name.value)} else names
      case Clear => {}
      case _ => names
  }

  /** The names that a run leaves registered, as its successful events tell it. */
  function Live(trace: seq<Event>): set<string> {
    if trace == [] then {} else NamesAfter(Live(trace[..|trace| - 1]), trace[|trace| - 1])
  }

  lemma TargetOfName(name: Option<Chars>)
    ensures Target(name) == if IsName(name) then Some(Prefix(name.value)) else None
  {
    hide Prefix;
  }

  lemma KeyOfRecord(r: Record)
    ensures ValidKey(Key(r.name)) <==> IsName(Some(r.name))
    ensures IsName(Some(r.name)) ==> Key(r.name) == Prefix(r.name)
  {
    hide Prefix;
  }

  lemma ApplyNames(d: Directory, capacity: nat, op: Op)
    ensures var (e, code) := Apply(d, capacity, op); e.infos.Keys == NamesAfter(d.infos.Keys, Event(op, code))
  {
    hide Prefix, Key, ValidKey, Target;
    var (e, code) := Apply(d, capacity, op);
    match op
    case Register(record) =>
      if code == 0 {
        KeyOfRecord(record.value);
        assert e.infos.Keys == d.infos.Keys + {Prefix(record.value.name)};
      }
    case Unregister(name) =>
      TargetOfName(name);
      assert code == 0 ==> e.infos.Keys == d.infos.Keys - {Prefix(name.value)};
    case UpdateState(name, _) =>
      TargetOfName(name);
      assert e.infos.Keys == d.infos.Keys;
    case Heartbeat(name, _) =>
      TargetOfName(name);
      assert e.infos.Keys == d.infos.Keys;
    case Clear =>
      assert e.infos.Keys == {};
  }

  lemma {:induction false} LiveAgrees(capacity: nat, trace: seq<Event>)
    requires Honest(capacity, trace)
    ensures Live(trace) == Replay(capacity, trace).infos.Keys
    decreases |trace|
  {
    hide Apply, NamesAfter;
    if trace != [] {
      var n := |trace| - 1;
      LiveAgrees(capacity, trace[..n]);
      ApplyNames(Replay(capacity, trace[..n]), capacity, trace[n].op);
    }
  }

  lemma {:induction false} DistinctCount<T>(order: seq<T>, keys: set<T>)
    requires Distinct(order) && forall i :: 0 <= i < |order| ==> order[i] in keys
    requires forall k :: k in keys ==> k in order
    ensures |keys| == |order|
    decreases |order|
  {
    if order == [] {
      assert keys == {};
    } else {
      var rest := keys - {order[0]};
      forall k | k in rest ensures k in order[1..] {
        var i :| 0 <= i < |order| && order[i] == k;
        assert order[1..][i - 1] == k;
      }
      DistinctCount(order[1..], rest);
    }
  }

  lemma LiveCount(capacity: nat, trace: seq<Event>)
    requires Honest(capacity, trace)
    ensures |Live(trace)| == |Replay(capacity, trace).order|
  {
    hide Replay, Honest, Live;
    LiveAgrees(capacity, trace);
    ReplayKeeps(capacity, trace);
    var d := Replay(capacity, trace);
    DistinctCount(d.order, d.infos.Keys);
  }

  lemma {:induction false} HonestAt(capacity: nat, trace: seq<Event>, i: nat)
    requires Honest(capacity, trace) && i < |trace|
    ensures Honest(capacity, trace[..i])
    ensures trace[i].code == Apply(Replay(capacity, trace[..i]), capacity, trace[i].op).1
    decreases |trace|
  {
    hide Apply, Replay;
    var n := |trace| - 1;
    if i < n {
      HonestAt(capacity, trace[..n], i);
      assert trace[..n][..i] == trace[..i];
    }
  }

  /** When each operation of a run succeeds, and how it fails otherwise, told from the events before it. */
  lemma CodeOfEvent(capacity: nat, trace: seq<Event>, i: nat)
    requires Honest(capacity, trace) && i < |trace|
    ensures var live := Live(trace[..i]);
      trace[i].code ==
        match trace[i].op
        case Register(record) =>
          if record.None? || !IsName(Some(record.value.name)) then -1
          else if |live| >= capacity then -2
          else if Prefix(record.value.name) in live then -4
          else 0
        case Unregister(name) => if !IsName(name) then -1 else if Prefix(name.value) !in live then -3 else 0
        case UpdateState(name, _) => if !IsName(name) || Prefix(name.value) !in live then -3 else 0
        case Heartbeat(name, _) => if !IsName(name) || Prefix(name.value) !in live then -3 else 0
        case Clear => 0
  {
    HonestAt(capacity, trace, i);
    LiveAgrees(capacity, trace[..i]);
    LiveCount(capacity, trace[..i]);
    hide Prefix, Key, ValidKey, Target, IsName, Honest, Live, Replay;
    match trace[i].op
    case Register(record) =>
      if record.Some? {
        KeyOfRecord(record.value);
      }
    case Unregister(name) => TargetOfName(name);
    case UpdateState(name, _) => TargetOfName(name);
    case Heartbeat(name, _) => TargetOfName(name);
    case Clear =>
  }
}
