/**
 The node registry: a caller-supplied array of records, filled from the front, of which every slot is
 determined by the directory that it stands for.
 */
module NodeRegistry {
  import opened Wrappers

  import opened NodeDirectory
  import opened NodeNames

  function Blank(): Record {
    Record(Padded(""), Info(0, 0, 0, 0, 0))
  }

  /** All bytes zero. */
  predicate Zeroed(r: Record) {
    (forall j :: 0 <= j < |r.name| ==> r.name[j] == '\0') && r.info == Info(0, 0, 0, 0, 0)
  }

  lemma BlankIsZeroed()
    ensures Zeroed(Blank())
  {
  }

  /** The contents of the first `capacity` slots: the known nodes in order, then zeroes. */
  function Image(d: Directory, capacity: nat): (s: seq<Record>)
    requires WellFormed(d)
    ensures |s| == capacity
    ensures forall i :: 0 <= i < capacity ==>
      s[i] == if i < |d.order| then Record(Padded(d.order[i]), d.infos[d.order[i]]) else Blank()
  {
    seq(capacity, i requires 0 <= i =>
      if i < |d.order| then assert d.order[i] in d.order; Record(Padded(d.order[i]), d.infos[d.order[i]])
      else Blank())
  }

  lemma NameAt(d: Directory, capacity: nat, i: nat)
    requires WellFormed(d) && i < |d.order| <= capacity
    ensures Key(Image(d, capacity)[i].name) == d.order[i]
    ensures d.order[i] in d.infos && Image(d, capacity)[i].info == d.infos[d.order[i]]
  {
    assert d.order[i] in d.order;
    KeyOfPadded(d.order[i]);
  }

  lemma RegisterImage(d: Directory, capacity: nat, r: Record)
    requires WellFormed(d) && |d.order| < capacity && Apply(d, capacity, Register(Some(r))).1 == OK
    ensures var e := Apply(d, capacity, Register(Some(r))).0;
      WellFormed(e)
      && Image(e, capacity) == Image(d, capacity)[|d.order| := Record(Padded(Key(r.name)), r.info)]
  {
    ApplyKeeps(d, capacity, Register(Some(r)));
    hide Key, Padded;
    assert forall i :: 0 <= i < |d.order| ==> d.order[i] in d.order;
  }

  lemma UnregisterFound(d: Directory, capacity: nat, name: Option<Chars>, i: nat)
    requires WellFormed(d) && i < |d.order| <= capacity && Target(name) == Some(d.order[i])
    ensures WellFormed(Apply(d, capacity, Unregister(name)).0)
    ensures Apply(d, capacity, Unregister(name))
            == (Directory(d.order[..i] + d.order[i + 1..], d.infos - {d.order[i]}), OK)
  {
    assert d.order[i] in d.order;
    ApplyKeeps(d, capacity, Unregister(name));
    WithoutAt(d.order, i);
  }

  lemma UnregisterMissing(d: Directory, capacity: nat, name: Option<Chars>)
    ensures Target(name).None? ==> Apply(d, capacity, Unregister(name)) == (d, EINVAL)
    ensures Target(name).Some? && WellFormed(d) && Target(name).value !in d.order ==>
      Apply(d, capacity, Unregister(name)) == (d, ENOTFOUND)
  {
    hide Target;
  }

  function Removed(s: seq<Record>, i: nat, count: nat): (r: seq<Record>)
    requires i < count <= |s|
    ensures |r| == |s|
    ensures forall j :: 0 <= j < |s| ==>
      r[j] == if i <= j < count - 1 then s[j + 1] else if j == count - 1 then Blank() else s[j]
  {
    seq(|s|, j requires 0 <= j < |s| =>
      if i <= j < count - 1 then s[j + 1] else if j == count - 1 then Blank() else s[j])
  }

  /** Taking out entry `i` moves the later records one slot down and blanks the last one. */
  lemma RemovedImage(d: Directory, e: Directory, capacity: nat, i: nat)
    requires WellFormed(d) && WellFormed(e) && i < |d.order| <= capacity
    requires e == Directory(d.order[..i] + d.order[i + 1..], d.infos - {d.order[i]})
    ensures Image(e, capacity) == Removed(Image(d, capacity), i, |d.order|)
  {
    hide WellFormed, Image, Removed;
    forall j | 0 <= j < capacity ensures Image(e, capacity)[j] == Removed(Image(d, capacity), i, |d.order|)[j] {
      RemovedAt(d, e, capacity, i, j);
    }
  }

  lemma RemovedAt(d: Directory, e: Directory, capacity: nat, i: nat, j: nat)
    requires WellFormed(d) && WellFormed(e) && i < |d.order| <= capacity && j < capacity
    requires e == Directory(d.order[..i] + d.order[i + 1..], d.infos - {d.order[i]})
    ensures Image(e, capacity)[j] == Removed(Image(d, capacity), i, |d.order|)[j]
  {
    hide WellFormed, Image, Padded;
    if j < |e.order| {
      RemovedEntry(d, e, i, j);
    }
  }

  lemma RemovedEntry(d: Directory, e: Directory, i: nat, j: nat)
    requires WellFormed(d) && WellFormed(e) && i < |d.order| && j < |e.order|
    requires e == Directory(d.order[..i] + d.order[i + 1..], d.infos - {d.order[i]})
    ensures var x := if j < i then j else j + 1;
      && e.order[j] == d.order[x] && d.order[x] in d.infos && e.order[j] in e.infos
      && e.infos[e.order[j]] == d.infos[d.order[x]]
  {
    hide ValidKey;
    var x := if j < i then j else j + 1;
    assert d.order[x] in d.order && d.order[x] != d.order[i];
  }

  lemma UpdateImage(d: Directory, capacity: nat, i: nat, info: Info)
    requires WellFormed(d) && i < |d.order| <= capacity && d.order[i] in d.infos
    ensures var e := d.(infos := d.infos[d.order[i] := info]);
      WellFormed(e) && Image(e, capacity) == Image(d, capacity)[i := Image(d, capacity)[i].(info := info)]
  {
    hide Padded;
    assert forall j :: 0 <= j < |d.order| ==> d.order[j] in d.order;
  }

  lemma SlackZeroed(d: Directory, capacity: nat, i: nat)
    requires WellFormed(d) && |d.order| <= i < capacity
    ensures Zeroed(Image(d, capacity)[i])
  {
    BlankIsZeroed();
  }

  /** The name is cut to 31 characters and padded with NULs, the rest is copied. */
  method RecordCopy(src: Record) returns (dst: Record)
    ensures var p := Prefix(src.name);
      dst == Record(Padded(if |p| < NAME_MAX then p else p[..NAME_MAX - 1]), src.info)
    ensures |dst.name| == 32 && dst.name[31] == '\0'
    ensures forall i :: 0 <= i < 31 ==> dst.name[i] == if i < |Prefix(src.name)| then src.name[i] else '\0'
  {
    var name: string := Padded("");
    var i := 0;
    while i < NAME_MAX - 1 && src.name[i] != '\0'
      invariant i <= NAME_MAX - 1 && i <= |Prefix(src.name)| && |name| == NAME_MAX
      invariant forall j :: 0 <= j < NAME_MAX ==> name[j] == if j < i then src.name[j] else '\0'
    {
      name := name[i := src.name[i]];
      i := i + 1;
    }
    dst := Record(name, src.info);
    ghost var p := Prefix(src.name);
    assert name == Padded(if |p| < NAME_MAX then p else p[..NAME_MAX - 1]);
  }

  lemma RemovedStart(s: seq<Record>, capacity: nat, i: nat, count: nat)
    requires i < count <= capacity <= |s|
    ensures Removed(s, i, count)[..capacity] == Removed(s[..capacity], i, count)
    ensures Removed(s, i, count)[capacity..] == s[capacity..]
  {
  }

  lemma RemovedStorage(d: Directory, e: Directory, s: seq<Record>, capacity: nat, i: nat)
    requires WellFormed(d) && WellFormed(e) && i < |d.order| <= capacity <= |s|
    requires s[..capacity] == Image(d, capacity)
    requires e == Directory(d.order[..i] + d.order[i + 1..], d.infos - {d.order[i]})
    ensures Removed(s, i, |d.order|)[..capacity] == Image(e, capacity)
    ensures Removed(s, i, |d.order|)[capacity..] == s[capacity..]
  {
    hide WellFormed, Image, Removed;
    RemovedStart(s, capacity, i, |d.order|);
    RemovedImage(d, e, capacity, i);
  }

  lemma RegisterAccepted(d: Directory, capacity: nat, r: Record)
    requires Apply(d, capacity, Register(Some(r))).1 == OK
    ensures Prefix(r.name) == Key(r.name) && |Key(r.name)| < NAME_MAX
    ensures |Apply(d, capacity, Register(Some(r))).0.order| == |d.order| + 1
  {
    hide Prefix;
  }

  class Registry {
    var records: array?<Record>
    var capacity: nat
    var count: nat
    ghost var directory: Directory

    ghost predicate Valid()
      reads this, records
    {
      if records == null then count == 0
      else
        && WellFormed(directory)
        && count == |directory.order| <= capacity <= records.Length
        && records[..capacity] == Image(directory, capacity)
    }

    /** A registry structure that is all zeroes. */
    constructor ()
      ensures Valid() && records == null
    {
      records, capacity, count := null, 0, 0;
      directory := EMPTY;
    }

    method Init(storage: array?<Record>, capacity: nat) returns (code: int)
      requires storage != null ==> capacity <= storage.Length
      modifies this, storage
      ensures code == if storage == null || capacity == 0 then EINVAL else OK
      ensures code == OK ==> Valid() && records == storage && this.capacity == capacity && directory == EMPTY
      ensures code == OK ==> forall i :: 0 <= i < capacity ==> Zeroed(storage[i])
      ensures code == OK ==> storage[capacity..] == old(storage[capacity..])
      ensures code != OK ==> unchanged(this) && (storage != null ==> storage[..] == old(storage[..]))
    {
      if storage == null || capacity == 0 {
        return EINVAL;
      }
      records := storage;
      this.capacity := capacity;
      count := 0;
      forall i | 0 <= i < capacity {
        storage[i] := Blank();
      }
      directory := EMPTY;
      code := OK;
    }

    method Clear()
      requires Valid()
      modifies this`count, this`directory, records
      ensures Valid()
      ensures records != null ==> directory == Apply(old(directory), capacity, Op.Clear).0
      ensures records != null ==> forall i :: 0 <= i < capacity ==> Zeroed(records[i])
      ensures records != null ==> records[capacity..] == old(records[capacity..])
    {
      if records == null {
        return;
      }
      forall i | 0 <= i < capacity {
        records[i] := Blank();
      }
      count := 0;
      directory := EMPTY;
    }

    method Count() returns (n: nat)
      requires Valid()
      ensures n == if records == null then 0 else |directory.order|
    {
      n := count;
    }

    /** The slot of the record that a name finds, which is there exactly when the directory knows the name. */
    method Find(name: Option<Chars>) returns (slot: Option<nat>)
      requires Valid()
      ensures slot.Some? <==> records != null && Target(name).Some? && Target(name).value in directory.infos
      ensures slot.Some? ==> slot.value < count && directory.order[slot.value] == Target(name).value
      ensures slot.Some? ==> records[slot.value].info == directory.infos[Target(name).value]
    {
      hide Key, Prefix, Image;
      if records == null {
        return None;
      }
      var valid := NameValid(name);
      if !valid {
        return None;
      }
      var i := 0;
      while i < count
        invariant i <= count
        invariant forall j :: 0 <= j < i ==> directory.order[j] != Key(name.value)
      {
        NameAt(directory, capacity, i);
        assert records[i] == records[..capacity][i];
        var same := SameName(records[i].name, name.value);
        if same {
          return Some(i);
        }
        i := i + 1;
      }
      slot := None;
    }

    /** Enumeration: the records come in the directory's order. */
    method At(index: nat) returns (slot: Option<nat>)
      requires Valid()
      ensures slot == if records != null && index < |directory.order| then Some(index) else None
      ensures slot.Some? ==>
        directory.order[index] in directory.infos && Key(records[index].name) == directory.order[index]
        && records[index].info == directory.infos[directory.order[index]]
    {
      if records == null || index >= count {
        return None;
      }
      NameAt(directory, capacity, index);
      assert records[index] == records[..capacity][index];
      slot := Some(index);
    }

    method Register(record: Option<Record>) returns (code: int)
      requires Valid()
      modifies this`count, this`directory, records
      ensures Valid()
      ensures records == null ==> code == EINVAL
      ensures records != null ==>
        (directory, code) == Apply(old(directory), capacity, Op.Register(record))
        && records[capacity..] == old(records[capacity..])
    {
      hide Key, Image;
      if records == null || record.None? {
        return EINVAL;
      }
      var valid := NameValid(Some(record.value.name));
      if !valid {
        return EINVAL;
      }
      if count >= capacity {
        return ENOSPC;
      }
      var slot := Find(Some(record.value.name));
      if slot.Some? {
        return EDUP;
      }
      Append(record.value);
      code := OK;
    }

    /** The part of `Register` after all checks. */
    method Append(record: Record)
      requires Valid() && records != null && count < capacity
      requires Apply(directory, capacity, Op.Register(Some(record))).1 == OK
      modifies this`count, this`directory, records
      ensures Valid()
      ensures directory == Apply(old(directory), capacity, Op.Register(Some(record))).0
      ensures records[capacity..] == old(records[capacity..])
    {
      hide Key, ValidKey, Image, Apply, WellFormed, Padded, Prefix;
      RegisterAccepted(directory, capacity, record);
      RegisterImage(directory, capacity, record);
      var copy := RecordCopy(record);
      ghost var was := records[..capacity];
      records[count] := copy;
      assert records[..capacity] == was[count := copy];
      directory := Apply(directory, capacity, Op.Register(Some(record))).0;
      count := count + 1;
    }

    method Unregister(name: Option<Chars>) returns (code: int)
      requires Valid()
      modifies this`count, this`directory, records
      ensures Valid()
      ensures records == null ==> code == EINVAL
      ensures records != null ==>
        (directory, code) == Apply(old(directory), capacity, Op.Unregister(name))
        && records[capacity..] == old(records[capacity..])
    {
      hide Key, Prefix, Image, Apply, WellFormed;
      UnregisterMissing(directory, capacity, name);
      if records == null {
        return EINVAL;
      }
      var valid := NameValid(name);
      if !valid {
        return EINVAL;
      }
      var i := 0;
      while i < count
        invariant i <= count && count == old(count) && directory == old(directory)
        invariant Valid() && records[..] == old(records[..])
        invariant forall j :: 0 <= j < i ==> directory.order[j] != Key(name.value)
      {
        NameAt(directory, capacity, i);
        assert records[i] == records[..capacity][i];
        var same := SameName(records[i].name, name.value);
        if same {
          RemoveNode(name, i);
          return OK;
        }
        i := i + 1;
      }
      code := ENOTFOUND;
    }

    /** The part of `Unregister` after the name was found. */
    method RemoveNode(name: Option<Chars>, i: nat)
      requires Valid() && records != null && i < count && Target(name) == Some(directory.order[i])
      modifies this`count, this`directory, records
      ensures Valid()
      ensures (directory, OK) == Apply(old(directory), capacity, Op.Unregister(name))
      ensures records[capacity..] == old(records[capacity..])
    {
      hide Image, Removed, Target, Apply, WellFormed;
      UnregisterFound(directory, capacity, name, i);
      ghost var was := records[..];
      RemoveSlot(i);
      RemovedStorage(directory, Apply(directory, capacity, Op.Unregister(name)).0, was, capacity, i);
      assert records[..capacity] == records[..][..capacity] && records[capacity..] == records[..][capacity..];
      directory := Apply(directory, capacity, Op.Unregister(name)).0;
    }

    /** Closes the gap at slot `i` and zeroes the slot that becomes free. */
    method RemoveSlot(i: nat)
      requires records != null && i < count <= capacity <= records.Length
      modifies this`count, records
      ensures count == old(count) - 1
      ensures records[..] == Removed(old(records[..]), i, old(count))
    {
      var j := i + 1;
      while j < count
        invariant i < j <= count == old(count)
        invariant forall k :: 0 <= k < records.Length ==>
          records[k] == if i <= k < j - 1 then old(records[k + 1]) else old(records[k])
      {
        records[j - 1] := records[j];
        j := j + 1;
      }
      count := count - 1;
      records[count] := Blank();
    }

    method UpdateState(name: Option<Chars>, state: int) returns (code: int)
      requires Valid()
      modifies this`directory, records
      ensures Valid()
      ensures records == null ==> code == ENOTFOUND
      ensures records != null ==>
        (directory, code) == Apply(old(directory), capacity, Op.UpdateState(name, state))
        && records[capacity..] == old(records[capacity..])
    {
      hide Key, Image;
      var slot := Find(name);
      if slot.None? {
        return ENOTFOUND;
      }
      var info := records[slot.value].info.(state := state);
      SetInfo(slot.value, info);
      code := OK;
    }

    method Heartbeat(name: Option<Chars>, now: bv32) returns (code: int)
      requires Valid()
      modifies this`directory, records
      ensures Valid()
      ensures records == null ==> code == ENOTFOUND
      ensures records != null ==>
        (directory, code) == Apply(old(directory), capacity, Op.Heartbeat(name, now))
        && records[capacity..] == old(records[capacity..])
    {
      hide Key, Image;
      var slot := Find(name);
      if slot.None? {
        return ENOTFOUND;
      }
      var info := records[slot.value].info.(heartbeat := now);
      SetInfo(slot.value, info);
      code := OK;
    }

    /** A write to the fields of a live record other than its name. */
    method SetInfo(slot: nat, info: Info)
      requires Valid() && records != null && slot < count
      modifies this`directory, records
      ensures Valid()
      ensures directory == old(directory).(infos := old(directory).infos[old(directory).order[slot] := info])
      ensures records[capacity..] == old(records[capacity..])
    {
      hide Key, Image;
      NameAt(directory, capacity, slot);
      UpdateImage(directory, capacity, slot, info);
      ghost var was := records[..capacity];
      records[slot] := records[slot].(info := info);
      assert records[..capacity] == was[slot := was[slot].(info := info)];
      directory := directory.(infos := directory.infos[directory.order[slot] := info]);
    }

    /** Any one operation. */
    method Perform(op: Op) returns (code: int)
      requires Valid() && records != null
      modifies this`count, this`directory, records
      ensures Valid()
      ensures (directory, code) == Apply(old(directory), capacity, op)
      ensures records[capacity..] == old(records[capacity..])
    {
      hide Valid;
      match op
      case Register(record) => code := Register(record);
      case Unregister(name) => code := Unregister(name);
      case UpdateState(name, state) => code := UpdateState(name, state);
      case Heartbeat(name, now) => code := Heartbeat(name, now);
      case Clear =>
        Clear();
        code := OK;
    }
  }

  /** Any run of operations on a fresh registry: the storage always shows the directory of the run so far. */
  method PerformAll(storage: array<Record>, ops: seq<Op>) returns (registry: Registry, trace: seq<Event>)
    requires storage.Length > 0
    modifies storage
    ensures |trace| == |ops| && forall i :: 0 <= i < |ops| ==> trace[i].op == ops[i]
    ensures Honest(storage.Length, trace)
    ensures WellFormed(Replay(storage.Length, trace))
    ensures storage[..] == Image(Replay(storage.Length, trace), storage.Length)
  {
    hide Apply, Image, WellFormed;
    registry := new Registry();
    var _ := registry.Init(storage, storage.Length);
    trace := [];
    for i := 0 to |ops|
      invariant fresh(registry) && registry.Valid()
      invariant registry.records == storage && registry.capacity == storage.Length
      invariant |trace| == i && forall k :: 0 <= k < i ==> trace[k].op == ops[k]
      invariant Honest(storage.Length, trace) && registry.directory == Replay(storage.Length, trace)
    {
      var code := registry.Perform(ops[i]);
      ghost var was := trace;
      trace := trace + [Event(ops[i], code)];
      assert trace[..i] == was;
    }
    assert storage[..] == storage[..storage.Length];
  }

  /** Registering a node and unregistering its name again leaves the whole storage as it was, in every
      field of every record; a refused registration changes nothing in the first place. */
  method RegisterThenUnregister(registry: Registry, record: Record) returns (c1: int, c2: int)
    requires registry.Valid()
    modifies registry`count, registry`directory, registry.records
    ensures registry.Valid() && registry.count == old(registry.count)
    ensures c1 == OK ==> c2 == OK
    ensures registry.records != null ==> registry.records[..] == old(registry.records[..])
  {
    hide Apply, Image, WellFormed;
    ghost var d := registry.directory;
    c1 := registry.Register(Some(record));
    c2 := EINVAL;
    if registry.records != null {
      if c1 == OK {
        RegisterUnregister(d, registry.capacity, record);
        c2 := registry.Unregister(Some(record.name));
      } else {
        RefusedKeeps(d, registry.capacity, record);
      }
      SameWhole(registry.records[..], old(registry.records[..]), registry.capacity);
    }
  }

  lemma RefusedKeeps(d: Directory, capacity: nat, record: Record)
    requires Apply(d, capacity, Register(Some(record))).1 != OK
    ensures Apply(d, capacity, Register(Some(record))).0 == d
  {
  }

  lemma SameWhole(s: seq<Record>, t: seq<Record>, n: nat)
    requires n <= |s| == |t| && s[..n] == t[..n] && s[n..] == t[n..]
    ensures s == t
  {
    assert s == s[..n] + s[n..] && t == t[..n] + t[n..];
  }
}
