/** The tracked-changes log a task subprocess keeps instead of writing to the
    database, and the parent's application of that log to storage.

    SQLAlchemy events become explicit listener calls; the model storage becomes
    a map from model names to tables of rows, with a row's id its position. */
module Instrumentation {
  import opened Base
  import opened Dicts

  const VersionIdCol: string := "version"
  const NewInstancePrefix: string := "NEW_INSTANCE"
  const ModelClsKey: string := "_MODEL_CLS"

  /** The Python values the log holds. `Stub` is the `_STUB` sentinel, equal
      to nothing but itself. */
  datatype PyVal = PNone | PBool(b: bool) | PInt(i: int) | PStr(s: string) | Stub

  predicate Truthy(v: PyVal) {
    match v
    case PNone => false
    case PBool(b) => b
    case PInt(i) => i != 0
    case PStr(s) => s != ""
    case Stub => true
  }

  /** `_Value(initial, current)`. */
  datatype Value = Value(initial: PyVal, current: PyVal)

  /** A tracked attribute: a scalar's `_Value`, or the items appended to a
      collection, each a `to_dict()` tagged with its model name. */
  datatype Tracked = Scalar(value: Value) | Collection(items: seq<Item>)

  type Item = map<string, PyVal>

  /** attribute name -> tracked value, for one instance. */
  type Attrs = Dict<string, Tracked>

  /** model name -> instance id -> attributes: `tracked_changes`. */
  type Changes = Dict<string, Dict<nat, Attrs>>

  /** model name -> temporary id -> fields: `new_instances_as_dict`. */
  type NewInstances = Dict<string, Dict<string, Item>>

  /** An instance attached to the session: its class, its `__modelname__`, and
      `to_dict()` together with its private fields. */
  datatype Instance = Instance(cls: string, modelName: string, fields: Item)

  /** The identity (`__modelname__`, `id`) of an instance an event fires on. */
  datatype Ref = Ref(model: string, id: nat)

  /** `_Instrumentation`'s state. */
  datatype Instr = Instr(changes: Changes, newInstances: NewInstances, toExpunge: seq<Instance>)

  const Fresh: Instr := Instr([], [], [])

  /** `_Value.__eq__`: equal to another `_Value` with the same initial and
      current values, and to nothing else. */
  function ValueEquals(v: Value, other: Tracked): (b: bool)
    ensures b <==> other == Scalar(v)
  {
    match other
    case Scalar(w) => v.initial == w.initial && v.current == w.current
    case Collection(_) => false
  }

  /** The id a newly attached instance is tracked under, given the length of
      the expunge list after it was appended. */
  function NewInstanceId(k: nat): (id: string)
    ensures |id| == |NewInstancePrefix| + 1 + |Decimal(k)|
    ensures id[..|NewInstancePrefix| + 1] == "NEW_INSTANCE_"
    ensures id[|NewInstancePrefix| + 1..] == Decimal(k)
  {
    NewInstancePrefix + "_" + Decimal(k)
  }

  lemma NewInstanceIdInjective(j: nat, k: nat)
    requires NewInstanceId(j) == NewInstanceId(k)
    ensures j == k
  {
    DecimalInjective(j, k);
  }

  /** `id` is `NEW_INSTANCE_j` for some `1 <= j <= n`. */
  predicate NumberedUpTo(id: string, n: nat) {
    && |id| > 13
    && id[..13] == "NEW_INSTANCE_"
    && IsDigits(id[13..])
    && 1 <= ParseDecimal(id[13..]) <= n
  }

  /** Every new-instance id in the log is numbered within the expunge list. */
  ghost predicate NewIdsNumbered(ins: Instr) {
    IdsNumbered(ins.newInstances, |ins.toExpunge|)
  }

  ghost predicate IdsNumbered(n: NewInstances, k: nat) {
    forall m, e :: HasKey(Lookup(n, m).GetOr([]), e) ==> NumberedUpTo(e, k)
  }

  /** The tracked attributes of one instance (`{}` when none). */
  function GetAttrs(c: Changes, model: string, id: nat): Attrs {
    match Lookup(c, model)
    case None => []
    case Some(insts) => Lookup(insts, id).GetOr([])
  }

  /** `tracked_changes.setdefault(model, {})[id] = a`. */
  function PutAttrs(c: Changes, model: string, id: nat, a: Attrs): Changes {
    Put(c, model, Put(Lookup(c, model).GetOr([]), id, a))
  }

  lemma GetPutAttrs(c: Changes, model: string, id: nat, a: Attrs, model': string, id': nat)
    ensures GetAttrs(PutAttrs(c, model, id, a), model', id') ==
            if model' == model && id' == id then a else GetAttrs(c, model', id')
  {
    var insts := Lookup(c, model).GetOr([]);
    LookupPut(c, model, Put(insts, id, a), model');
    LookupPut(insts, id, a, id');
  }

  /** The fields tracked for a new instance (`{}` when none). */
  function NewEntry(n: NewInstances, model: string, id: string): Item {
    match Lookup(n, model)
    case None => map[]
    case Some(insts) => Lookup(insts, id).GetOr(map[])
  }

  /** `new_instances.setdefault(model, {}).setdefault(id, {}).update(fields)`. */
  function AddNewInstance(n: NewInstances, model: string, id: string, fields: Item): (r: NewInstances)
    ensures var insts := Lookup(n, model).GetOr([]);
            Lookup(r, model) == Some(Put(insts, id, Lookup(insts, id).GetOr(map[]) + fields))
  {
    var insts := Lookup(n, model).GetOr([]);
    var inner := Put(insts, id, Lookup(insts, id).GetOr(map[]) + fields);
    LookupPut(n, model, inner, model);
    Put(n, model, inner)
  }

  /** The entry a log holds, read through its inner dict. */
  lemma NewEntryInner(n: NewInstances, model: string, id: string)
    ensures NewEntry(n, model, id) == Lookup(Lookup(n, model).GetOr([]), id).GetOr(map[])
  {
    match Lookup(n, model)
    case None =>
      var none: Dict<string, Item> := [];
      assert Lookup(none, id) == None;
    case Some(_) =>
  }

  /** The entry written is the old entry updated with the fields. */
  lemma NewEntryAfterAddSame(n: NewInstances, model: string, id: string, fields: Item)
    ensures NewEntry(AddNewInstance(n, model, id, fields), model, id) == NewEntry(n, model, id) + fields
  {
    var insts := Lookup(n, model).GetOr([]);
    var before := Lookup(insts, id).GetOr(map[]);
    var r := AddNewInstance(n, model, id, fields);
    NewEntryInner(n, model, id);
    NewEntryInner(r, model, id);
    assert Lookup(r, model).GetOr([]) == Put(insts, id, before + fields);
    LookupPut(insts, id, before + fields, id);
  }

  /** Every other entry stays as it was. */
  lemma NewEntryAfterAddOther(n: NewInstances, model: string, id: string, fields: Item, m: string, e: string)
    requires (m, e) != (model, id)
    ensures NewEntry(AddNewInstance(n, model, id, fields), m, e) == NewEntry(n, m, e)
  {
    var insts := Lookup(n, model).GetOr([]);
    var entry := Lookup(insts, id).GetOr(map[]) + fields;
    NewEntryInner(n, m, e);
    NewEntryInner(AddNewInstance(n, model, id, fields), m, e);
    LookupPut(n, model, Put(insts, id, entry), m);
    if m == model {
      LookupPut(insts, id, entry, e);
    }
  }

  /** The new-instance listener: an instance of the instrumented class is
      queued for expunging and its fields are recorded under the next
      `NEW_INSTANCE_k`; any other instance is ignored. */
  function OnAttach(ins: Instr, instrumentedClass: string, inst: Instance): (r: Instr)
    ensures inst.cls != instrumentedClass ==> r == ins
    ensures inst.cls == instrumentedClass ==>
              && r.toExpunge == ins.toExpunge + [inst]
              && r.changes == ins.changes
              && HasKey(r.newInstances, inst.modelName)
  {
    if inst.cls != instrumentedClass then ins
    else
      var expunge := ins.toExpunge + [inst];
      var id := NewInstanceId(|expunge|);
      var n := AddNewInstance(ins.newInstances, inst.modelName, id, inst.fields);
      assert HasKey(n, inst.modelName) by {
        var insts := Lookup(ins.newInstances, inst.modelName).GetOr([]);
        LookupPut(ins.newInstances, inst.modelName, Put(insts, id, Lookup(insts, id).GetOr(map[]) + inst.fields),
                  inst.modelName);
      }
      Instr(ins.changes, n, expunge)
  }

  lemma FreshIdNotNumbered(n: nat)
    ensures !NumberedUpTo(NewInstanceId(n + 1), n)
  {
    var id := NewInstanceId(n + 1);
    assert id[13..] == Decimal(n + 1);
    DecimalRoundTrip(n + 1);
  }

  lemma IdNumbered(n: nat)
    requires n >= 1
    ensures NumberedUpTo(NewInstanceId(n), n)
  {
    var id := NewInstanceId(n);
    assert id[13..] == Decimal(n);
    DecimalRoundTrip(n);
  }

  lemma IdsNumberedGrows(n: NewInstances, k: nat)
    requires IdsNumbered(n, k)
    ensures IdsNumbered(n, k + 1)
  {
    forall m, e | HasKey(Lookup(n, m).GetOr([]), e)
      ensures NumberedUpTo(e, k + 1)
    {
      assert NumberedUpTo(e, k);
    }
  }

  /** Recording an instance under a numbered id keeps every id numbered. */
  lemma AddKeepsNumbering(n: NewInstances, model: string, id: string, fields: Item, k: nat)
    requires IdsNumbered(n, k) && NumberedUpTo(id, k)
    ensures IdsNumbered(AddNewInstance(n, model, id, fields), k)
  {
    var insts := Lookup(n, model).GetOr([]);
    var entry := Lookup(insts, id).GetOr(map[]) + fields;
    var r := AddNewInstance(n, model, id, fields);
    forall m, e | HasKey(Lookup(r, m).GetOr([]), e)
      ensures NumberedUpTo(e, k)
    {
      if m == model {
        HasKeyPut(insts, id, entry, e);
      } else {
        LookupPut(n, model, Put(insts, id, entry), m);
      }
    }
  }

  /** The next id is not yet used under any model. */
  lemma FreshIdAbsent(ins: Instr, model: string)
    requires NewIdsNumbered(ins)
    ensures !HasKey(Lookup(ins.newInstances, model).GetOr([]), NewInstanceId(|ins.toExpunge| + 1))
  {
    FreshIdNotNumbered(|ins.toExpunge|);
  }

  /** The k-th instance attached since the last clear is stored under
      `NEW_INSTANCE_k`, an id nobody has yet, so its entry is exactly its
      fields. */
  lemma AttachUsesFreshId(ins: Instr, instrumentedClass: string, inst: Instance)
    requires NewIdsNumbered(ins)
    requires inst.cls == instrumentedClass
    ensures NewEntry(OnAttach(ins, instrumentedClass, inst).newInstances, inst.modelName,
                     NewInstanceId(|ins.toExpunge| + 1)) == inst.fields
  {
    var id := NewInstanceId(|ins.toExpunge| + 1);
    assert |ins.toExpunge + [inst]| == |ins.toExpunge| + 1;
    assert OnAttach(ins, instrumentedClass, inst).newInstances
           == AddNewInstance(ins.newInstances, inst.modelName, id, inst.fields);
    FreshEntryIsFields(ins, inst.modelName, inst.fields);
  }

  lemma FreshEntryIsFields(ins: Instr, model: string, fields: Item)
    requires NewIdsNumbered(ins)
    ensures var id := NewInstanceId(|ins.toExpunge| + 1);
            NewEntry(AddNewInstance(ins.newInstances, model, id, fields), model, id) == fields
  {
    var id := NewInstanceId(|ins.toExpunge| + 1);
    FreshIdAbsent(ins, model);
    AddToAbsentEntry(ins.newInstances, model, id, fields);
  }

  /** Adding under an id the model has no entry for records exactly the fields. */
  lemma AddToAbsentEntry(n: NewInstances, model: string, id: string, fields: Item)
    requires !HasKey(Lookup(n, model).GetOr([]), id)
    ensures NewEntry(AddNewInstance(n, model, id, fields), model, id) == fields
  {
    NoEntryWhenAbsent(n, model, id);
    NewEntryAfterAddSame(n, model, id, fields);
    assert NewEntry(n, model, id) + fields == fields;
  }

  lemma NoEntryWhenAbsent(n: NewInstances, model: string, id: string)
    requires !HasKey(Lookup(n, model).GetOr([]), id)
    ensures NewEntry(n, model, id) == map[]
  {
    var insts := Lookup(n, model).GetOr([]);
    assert Lookup(insts, id).None?;
    NewEntryInner(n, model, id);
  }

  /** Attaching touches no other new-instance entry. */
  lemma AttachLeavesOtherEntries(ins: Instr, instrumentedClass: string, inst: Instance, m: string, e: string)
    requires inst.cls == instrumentedClass
    requires (m, e) != (inst.modelName, NewInstanceId(|ins.toExpunge| + 1))
    ensures NewEntry(OnAttach(ins, instrumentedClass, inst).newInstances, m, e) == NewEntry(ins.newInstances, m, e)
  {
    NewEntryAfterAddOther(ins.newInstances, inst.modelName, NewInstanceId(|ins.toExpunge| + 1), inst.fields, m, e);
  }

  /** Attaching keeps every new-instance id numbered within the expunge list. */
  lemma AttachKeepsNumbering(ins: Instr, instrumentedClass: string, inst: Instance)
    requires NewIdsNumbered(ins)
    ensures NewIdsNumbered(OnAttach(ins, instrumentedClass, inst))
  {
    if inst.cls == instrumentedClass {
      var n := |ins.toExpunge|;
      IdNumbered(n + 1);
      IdsNumberedGrows(ins.newInstances, n);
      AddKeepsNumbering(ins.newInstances, inst.modelName, NewInstanceId(n + 1), inst.fields, n + 1);
    }
  }

  /** The set listener: records `_Value(_STUB, current)` for the attribute,
      replacing any earlier entry, and returns `current` as the value to
      store; `convert` is the attribute's Python type. */
  function OnSet(ins: Instr, target: Ref, key: string, value: PyVal, convert: PyVal -> PyVal): (r: (Instr, PyVal))
    ensures r.1 == if value == PNone then PNone else convert(value)
    ensures Lookup(GetAttrs(r.0.changes, target.model, target.id), key) == Some(Scalar(Value(Stub, r.1)))
    ensures forall k :: k != key ==>
              Lookup(GetAttrs(r.0.changes, target.model, target.id), k) ==
              Lookup(GetAttrs(ins.changes, target.model, target.id), k)
    ensures forall m, id: nat :: (m, id) != (target.model, target.id) ==>
              GetAttrs(r.0.changes, m, id) == GetAttrs(ins.changes, m, id)
    ensures r.0.newInstances == ins.newInstances && r.0.toExpunge == ins.toExpunge
  {
    var current := if value == PNone then PNone else convert(value);
    var attrs := GetAttrs(ins.changes, target.model, target.id);
    var attrs' := Put(attrs, key, Scalar(Value(Stub, current)));
    var changes := PutAttrs(ins.changes, target.model, target.id, attrs');
    GetPutAttrs(ins.changes, target.model, target.id, attrs', target.model, target.id);
    assert forall k :: Lookup(attrs', k) == if k == key then Some(Scalar(Value(Stub, current))) else Lookup(attrs, k) by {
      forall k {
        LookupPut(attrs, key, Scalar(Value(Stub, current)), k);
      }
    }
    assert forall m, id: nat :: (m, id) != (target.model, target.id) ==>
             GetAttrs(changes, m, id) == GetAttrs(ins.changes, m, id) by {
      forall m, id {
        GetPutAttrs(ins.changes, target.model, target.id, attrs', m, id);
      }
    }
    (ins.(changes := changes), current)
  }

  /** A `_STUB` initial value differs from every converted value, so applying
      the log always writes an attribute that was set. */
  lemma SetAlwaysApplies(ins: Instr, target: Ref, key: string, value: PyVal, convert: PyVal -> PyVal)
    requires forall v :: convert(v) != Stub
    ensures var r := OnSet(ins, target, key, value, convert);
            var t := Lookup(GetAttrs(r.0.changes, target.model, target.id), key);
            t.Some? && t.value.Scalar? && t.value.value.initial != t.value.value.current
  {
  }

  /** The items tracked so far for a collection attribute. */
  function ItemsOf(attrs: Attrs, key: string): seq<Item> {
    var t: Option<Tracked> := Lookup(attrs, key);
    if t.Some? && t.value.Collection? then t.value.items else []
  }

  lemma ItemsOfCollection(attrs: Attrs, key: string, items: seq<Item>)
    requires Lookup(attrs, key) == Some(Collection(items))
    ensures ItemsOf(attrs, key) == items
  {
  }

  /** `value.to_dict()` with its model name under `_MODEL_CLS`. */
  function Tagged(value: Instance): (item: Item)
    ensures ModelClsKey in item && item[ModelClsKey] == PStr(value.modelName)
    ensures forall k :: k in value.fields && k != ModelClsKey ==> k in item && item[k] == value.fields[k]
  {
    value.fields[ModelClsKey := PStr(value.modelName)]
  }

  /** The append listener: the tagged item joins the end of the attribute's
      list. An attribute already holding a scalar `_Value` has no `append`. */
  function OnAppend(ins: Instr, target: Ref, key: string, value: Instance): (r: Result<Instr>)
    ensures var t := Lookup(GetAttrs(ins.changes, target.model, target.id), key);
            r.Err? <==> t.Some? && t.value.Scalar?
    ensures r.Ok? ==>
              var before := GetAttrs(ins.changes, target.model, target.id);
              var after := GetAttrs(r.value.changes, target.model, target.id);
              && Lookup(after, key) == Some(Collection(ItemsOf(before, key) + [Tagged(value)]))
              && (forall k :: k != key ==> Lookup(after, k) == Lookup(before, k))
    ensures r.Ok? ==> forall m, id: nat :: (m, id) != (target.model, target.id) ==>
              GetAttrs(r.value.changes, m, id) == GetAttrs(ins.changes, m, id)
    ensures r.Ok? ==> r.value.newInstances == ins.newInstances && r.value.toExpunge == ins.toExpunge
  {
    var attrs := GetAttrs(ins.changes, target.model, target.id);
    var existing: Option<Tracked> := Lookup(attrs, key);
    if existing.Some? && existing.value.Scalar? then Err("'_Value' object has no attribute 'append'")
    else
      var t := Collection(ItemsOf(attrs, key) + [Tagged(value)]);
      var attrs' := Put(attrs, key, t);
      var changes := PutAttrs(ins.changes, target.model, target.id, attrs');
      GetPutAttrs(ins.changes, target.model, target.id, attrs', target.model, target.id);
      assert forall k :: Lookup(attrs', k) == if k == key then Some(t) else Lookup(attrs, k) by {
        forall k {
          LookupPut(attrs, key, t, k);
        }
      }
      assert forall m, id: nat :: (m, id) != (target.model, target.id) ==>
               GetAttrs(changes, m, id) == GetAttrs(ins.changes, m, id) by {
        forall m, id {
          GetPutAttrs(ins.changes, target.model, target.id, attrs', m, id);
        }
      }
      Ok(ins.(changes := changes))
  }

  /** Successive appends to one collection keep their order. */
  lemma AppendsKeepOrder(ins: Instr, target: Ref, key: string, a: Instance, b: Instance)
    requires OnAppend(ins, target, key, a).Ok?
    ensures var r1 := OnAppend(ins, target, key, a).value;
            var r2 := OnAppend(r1, target, key, b);
            && r2.Ok?
            && ItemsOf(GetAttrs(r2.value.changes, target.model, target.id), key) ==
               ItemsOf(GetAttrs(ins.changes, target.model, target.id), key) + [Tagged(a)] + [Tagged(b)]
  {
    var attrs := GetAttrs(ins.changes, target.model, target.id);
    var before := ItemsOf(attrs, key);
    var c1 := Collection(before + [Tagged(a)]);
    var mid := Put(attrs, key, c1);
    GetPutAttrs(ins.changes, target.model, target.id, mid, target.model, target.id);
    var r1 := OnAppend(ins, target, key, a).value;
    assert GetAttrs(r1.changes, target.model, target.id) == mid;
    LookupPut(attrs, key, c1, key);
    ItemsOfCollection(mid, key, c1.items);
    var c2 := Collection(before + [Tagged(a)] + [Tagged(b)]);
    GetPutAttrs(r1.changes, target.model, target.id, Put(mid, key, c2), target.model, target.id);
    LookupPut(mid, key, c2, key);
    var r2 := OnAppend(r1, target, key, b);
    assert r2.Ok?;
    assert r2.value.changes == PutAttrs(r1.changes, target.model, target.id, Put(mid, key, c2));
    ItemsOfCollection(Put(mid, key, c2), key, c2.items);
  }

  /** An instance as loaded or refreshed: its id, its `version` column if it
      has one, and its column values. */
  datatype Loaded = Loaded(id: nat, version: Option<PyVal>, columns: map<string, PyVal>)

  /** The value an instance listener tracks as current for a loaded column. */
  function Converted(name: string, initial: PyVal, convert: (string, PyVal) -> PyVal): PyVal {
    if initial == PNone then PNone else convert(name, initial)
  }

  /** The version setdefault of the instance listener: only the first version
      seen is kept. */
  function TrackVersion(attrs: Attrs, version: Option<PyVal>): (r: Attrs)
    ensures HasKey(attrs, VersionIdCol) || version.None? ==> r == attrs
    ensures version.Some? ==> HasKey(r, VersionIdCol)
    ensures forall k :: k != VersionIdCol ==> Lookup(r, k) == Lookup(attrs, k)
  {
    if version.Some? && !HasKey(attrs, VersionIdCol) then
      var r := Put(attrs, VersionIdCol, Scalar(Value(Stub, version.value)));
      LookupPut(attrs, VersionIdCol, Scalar(Value(Stub, version.value)), VersionIdCol);
      assert forall k :: Lookup(r, k) == if k == VersionIdCol then Some(Scalar(Value(Stub, version.value))) else Lookup(attrs, k) by {
        forall k {
          LookupPut(attrs, VersionIdCol, Scalar(Value(Stub, version.value)), k);
        }
      }
      r
    else attrs
  }

  /** Tracks one loaded column as `_Value(initial, current)` unless it is
      tracked already. */
  function TrackColumn(attrs: Attrs, name: string, initial: PyVal, convert: (string, PyVal) -> PyVal): (r: Attrs)
    ensures forall k :: Lookup(r, k) ==
              if k == name && !HasKey(attrs, name) then Some(Scalar(Value(initial, Converted(name, initial, convert))))
              else Lookup(attrs, k)
  {
    if HasKey(attrs, name) then attrs
    else
      var t := Scalar(Value(initial, Converted(name, initial, convert)));
      assert forall k :: Lookup(Put(attrs, name, t), k) == if k == name then Some(t) else Lookup(attrs, k) by {
        forall k {
          LookupPut(attrs, name, t, k);
        }
      }
      Put(attrs, name, t)
  }

  /** The per-attribute loop of the instance listener: each column is tracked
      if new, and the instance's attribute is replaced by the tracked current
      value; a column tracked as a collection has no current value. */
  function LoadColumns(attrs: Attrs, names: seq<string>, columns: map<string, PyVal>,
                       convert: (string, PyVal) -> PyVal, dict: map<string, PyVal>): (r: Result<(Attrs, map<string, PyVal>)>)
    requires forall i :: 0 <= i < |names| ==> names[i] in columns
    ensures r.Ok? ==> forall k :: k in r.value.1 <==> k in dict || k in names
    ensures r.Ok? ==> forall k :: k in dict && k !in names ==> r.value.1[k] == dict[k]
    decreases |names|
  {
    if |names| == 0 then Ok((attrs, dict))
    else
      var name := names[0];
      var attrs' := TrackColumn(attrs, name, columns[name], convert);
      var t := Lookup(attrs', name);
      if t.None? || t.value.Collection? then Err("'list' object has no attribute 'current'")
      else
        LoadColumns(attrs', names[1..], columns, convert, dict[name := t.value.value.current])
  }

  /** After the loop every column is tracked. */
  lemma {:induction false} LoadColumnsTracksAll(attrs: Attrs, names: seq<string>, columns: map<string, PyVal>,
                                                convert: (string, PyVal) -> PyVal, dict: map<string, PyVal>)
    requires forall i :: 0 <= i < |names| ==> names[i] in columns
    requires LoadColumns(attrs, names, columns, convert, dict).Ok?
    ensures forall i :: 0 <= i < |names| ==> HasKey(LoadColumns(attrs, names, columns, convert, dict).value.0, names[i])
    decreases |names|
  {
    if |names| > 0 {
      var name := names[0];
      var attrs' := TrackColumn(attrs, name, columns[name], convert);
      var t := Lookup(attrs', name);
      var dict' := dict[name := t.value.value.current];
      var r := LoadColumns(attrs', names[1..], columns, convert, dict').value.0;
      LoadColumnsTracksAll(attrs', names[1..], columns, convert, dict');
      LoadColumnsKeeps(attrs', names[1..], columns, convert, dict');
      assert HasKey(attrs', name);
      forall i | 1 <= i < |names|
        ensures HasKey(r, names[i])
      {
        assert names[i] == names[1..][i - 1];
      }
    }
  }

  /** The loop never changes an attribute that is already tracked. */
  lemma {:induction false} LoadColumnsKeeps(attrs: Attrs, names: seq<string>, columns: map<string, PyVal>,
                                            convert: (string, PyVal) -> PyVal, dict: map<string, PyVal>)
    requires forall i :: 0 <= i < |names| ==> names[i] in columns
    requires LoadColumns(attrs, names, columns, convert, dict).Ok?
    ensures forall k :: HasKey(attrs, k) ==> Lookup(LoadColumns(attrs, names, columns, convert, dict).value.0, k) == Lookup(attrs, k)
    decreases |names|
  {
    if |names| > 0 {
      var name := names[0];
      var attrs' := TrackColumn(attrs, name, columns[name], convert);
      var t := Lookup(attrs', name);
      LoadColumnsKeeps(attrs', names[1..], columns, convert, dict[name := t.value.value.current]);
      forall k | HasKey(attrs, k)
        ensures HasKey(attrs', k)
      {
        assert Lookup(attrs', k) == Lookup(attrs, k);
      }
    }
  }

  /** The loop tracks each column met untracked as `_Value(initial, current)`. */
  lemma {:induction false} LoadColumnsAdds(attrs: Attrs, names: seq<string>, columns: map<string, PyVal>,
                                           convert: (string, PyVal) -> PyVal, dict: map<string, PyVal>)
    requires forall i :: 0 <= i < |names| ==> names[i] in columns
    requires LoadColumns(attrs, names, columns, convert, dict).Ok?
    ensures forall i :: 0 <= i < |names| && !HasKey(attrs, names[i]) ==>
              Lookup(LoadColumns(attrs, names, columns, convert, dict).value.0, names[i]) ==
              Some(Scalar(Value(columns[names[i]], Converted(names[i], columns[names[i]], convert))))
    decreases |names|
  {
    if |names| > 0 {
      var name := names[0];
      var attrs' := TrackColumn(attrs, name, columns[name], convert);
      var t := Lookup(attrs', name);
      var dict' := dict[name := t.value.value.current];
      var r := LoadColumns(attrs', names[1..], columns, convert, dict').value.0;
      LoadColumnsAdds(attrs', names[1..], columns, convert, dict');
      LoadColumnsKeeps(attrs', names[1..], columns, convert, dict');
      forall i | 0 <= i < |names| && !HasKey(attrs, names[i])
        ensures Lookup(r, names[i]) == Some(Scalar(Value(columns[names[i]], Converted(names[i], columns[names[i]], convert))))
      {
        if names[i] == name {
          assert HasKey(attrs', name);
        } else {
          assert names[i] == names[1..][i - 1];
          assert Lookup(attrs', names[i]) == Lookup(attrs, names[i]);
        }
      }
    }
  }

  predicate IsCollection(attrs: Attrs, k: string) {
    var t := Lookup(attrs, k);
    t.Some? && t.value.Collection?
  }

  /** Tracking a column adds a scalar, so which attributes hold collections
      does not change. */
  lemma TrackColumnCollections(attrs: Attrs, name: string, initial: PyVal, convert: (string, PyVal) -> PyVal)
    ensures forall k :: IsCollection(TrackColumn(attrs, name, initial, convert), k) == IsCollection(attrs, k)
  {
  }

  lemma CollectionAmongSplit(attrs: Attrs, attrs': Attrs, names: seq<string>)
    requires |names| > 0
    requires forall i :: 1 <= i < |names| ==> IsCollection(attrs', names[i]) == IsCollection(attrs, names[i])
    ensures (exists i :: 0 <= i < |names| && IsCollection(attrs, names[i])) <==>
            IsCollection(attrs, names[0]) || exists i :: 0 <= i < |names[1..]| && IsCollection(attrs', names[1..][i])
  {
    if exists i :: 0 <= i < |names| && IsCollection(attrs, names[i]) {
      var i :| 0 <= i < |names| && IsCollection(attrs, names[i]);
      if i > 0 {
        assert IsCollection(attrs', names[1..][i - 1]);
      }
    }
    if exists i :: 0 <= i < |names[1..]| && IsCollection(attrs', names[1..][i]) {
      var i :| 0 <= i < |names[1..]| && IsCollection(attrs', names[1..][i]);
      assert IsCollection(attrs, names[i + 1]);
    }
  }

  /** The loop fails exactly when some column is tracked as a collection. */
  lemma {:induction false} LoadColumnsFails(attrs: Attrs, names: seq<string>, columns: map<string, PyVal>,
                                            convert: (string, PyVal) -> PyVal, dict: map<string, PyVal>)
    requires forall i :: 0 <= i < |names| ==> names[i] in columns
    ensures LoadColumns(attrs, names, columns, convert, dict).Err? <==>
            exists i :: 0 <= i < |names| && IsCollection(attrs, names[i])
    decreases |names|
  {
    if |names| > 0 {
      var name := names[0];
      var attrs' := TrackColumn(attrs, name, columns[name], convert);
      var t := Lookup(attrs', name);
      TrackColumnCollections(attrs, name, columns[name], convert);
      if t.Some? && t.value.Scalar? {
        var dict' := dict[name := t.value.value.current];
        assert LoadColumns(attrs, names, columns, convert, dict) == LoadColumns(attrs', names[1..], columns, convert, dict');
        LoadColumnsFails(attrs', names[1..], columns, convert, dict');
        CollectionAmongSplit(attrs, attrs', names);
      } else {
        assert IsCollection(attrs', name);
      }
    }
  }

  /** The load/refresh listener for one instance of a tracked model. */
  function OnLoad(ins: Instr, model: string, target: Loaded, names: seq<string>,
                  convert: (string, PyVal) -> PyVal): (r: Result<(Instr, map<string, PyVal>)>)
    requires forall i :: 0 <= i < |names| ==> names[i] in target.columns
    ensures r.Ok? ==> r.value.0.newInstances == ins.newInstances && r.value.0.toExpunge == ins.toExpunge
    ensures r.Ok? ==> forall m, id: nat :: (m, id) != (model, target.id) ==>
              GetAttrs(r.value.0.changes, m, id) == GetAttrs(ins.changes, m, id)
  {
    var attrs := TrackVersion(GetAttrs(ins.changes, model, target.id), target.version);
    var loaded :- LoadColumns(attrs, names, target.columns, convert, target.columns);
    var changes := PutAttrs(ins.changes, model, target.id, loaded.0);
    assert forall m, id: nat :: (m, id) != (model, target.id) ==>
             GetAttrs(changes, m, id) == GetAttrs(ins.changes, m, id) by {
      forall m, id {
        GetPutAttrs(ins.changes, model, target.id, loaded.0, m, id);
      }
    }
    Ok((ins.(changes := changes), loaded.1))
  }

  /** Loading records an untracked column as `_Value(initial, current)`, never
      touches what is already tracked, and keeps the first version seen. */
  lemma LoadTracksOnlyNew(ins: Instr, model: string, target: Loaded, names: seq<string>,
                          convert: (string, PyVal) -> PyVal)
    requires forall i :: 0 <= i < |names| ==> names[i] in target.columns
    requires OnLoad(ins, model, target, names, convert).Ok?
    ensures var before := GetAttrs(ins.changes, model, target.id);
            var after := GetAttrs(OnLoad(ins, model, target, names, convert).value.0.changes, model, target.id);
            && (forall k :: HasKey(before, k) ==> Lookup(after, k) == Lookup(before, k))
            && (forall i :: 0 <= i < |names| && names[i] != VersionIdCol && !HasKey(before, names[i]) ==>
                  Lookup(after, names[i]) ==
                  Some(Scalar(Value(target.columns[names[i]], Converted(names[i], target.columns[names[i]], convert)))))
            && (target.version.Some? && !HasKey(before, VersionIdCol) ==>
                  Lookup(after, VersionIdCol) == Some(Scalar(Value(Stub, target.version.value))))
  {
    var before := GetAttrs(ins.changes, model, target.id);
    var attrs := TrackVersion(before, target.version);
    var loaded := LoadColumns(attrs, names, target.columns, convert, target.columns).value;
    GetPutAttrs(ins.changes, model, target.id, loaded.0, model, target.id);
    LoadColumnsKeeps(attrs, names, target.columns, convert, target.columns);
    LoadColumnsAdds(attrs, names, target.columns, convert, target.columns);
    if target.version.Some? && !HasKey(before, VersionIdCol) {
      LookupPut(before, VersionIdCol, Scalar(Value(Stub, target.version.value)), VersionIdCol);
    }
    forall k | HasKey(before, k)
      ensures HasKey(attrs, k)
    {
      if k != VersionIdCol {
        assert Lookup(attrs, k) == Lookup(before, k);
      }
    }
  }

  /** Loading the same instance again changes nothing further. */
  lemma LoadTwiceSameAsOnce(ins: Instr, model: string, target: Loaded, names: seq<string>,
                            convert: (string, PyVal) -> PyVal)
    requires forall i :: 0 <= i < |names| ==> names[i] in target.columns
    requires OnLoad(ins, model, target, names, convert).Ok?
    ensures var once := OnLoad(ins, model, target, names, convert).value;
            var twice := OnLoad(once.0, model, target, names, convert);
            twice.Ok? && GetAttrs(twice.value.0.changes, model, target.id) == GetAttrs(once.0.changes, model, target.id)
  {
    var before := TrackVersion(GetAttrs(ins.changes, model, target.id), target.version);
    var loaded := LoadColumns(before, names, target.columns, convert, target.columns);
    assert loaded.Ok?;
    var attrs1 := loaded.value.0;
    var once := OnLoad(ins, model, target, names, convert).value;
    assert once.0.changes == PutAttrs(ins.changes, model, target.id, attrs1);
    GetPutAttrs(ins.changes, model, target.id, attrs1, model, target.id);
    LoadedColumnsAreScalars(before, names, target.columns, convert, target.columns);
    if target.version.Some? {
      LoadColumnsKeeps(before, names, target.columns, convert, target.columns);
      assert Lookup(attrs1, VersionIdCol).Some?;
    }
    assert TrackVersion(attrs1, target.version) == attrs1;
    LoadColumnsAllTracked(attrs1, names, target.columns, convert, target.columns);
    assert OnLoad(once.0, model, target, names, convert).value.0.changes ==
           PutAttrs(once.0.changes, model, target.id, attrs1);
    GetPutAttrs(once.0.changes, model, target.id, attrs1, model, target.id);
  }

  /** After a successful loop every column is tracked as a scalar. */
  lemma LoadedColumnsAreScalars(attrs: Attrs, names: seq<string>, columns: map<string, PyVal>,
                                convert: (string, PyVal) -> PyVal, dict: map<string, PyVal>)
    requires forall i :: 0 <= i < |names| ==> names[i] in columns
    requires LoadColumns(attrs, names, columns, convert, dict).Ok?
    ensures var r := LoadColumns(attrs, names, columns, convert, dict).value.0;
            forall i :: 0 <= i < |names| ==> HasKey(r, names[i]) && Lookup(r, names[i]).value.Scalar?
  {
    var r := LoadColumns(attrs, names, columns, convert, dict).value.0;
    LoadColumnsFails(attrs, names, columns, convert, dict);
    LoadColumnsKeeps(attrs, names, columns, convert, dict);
    LoadColumnsAdds(attrs, names, columns, convert, dict);
    forall i | 0 <= i < |names|
      ensures HasKey(r, names[i]) && Lookup(r, names[i]).value.Scalar?
    {
      if HasKey(attrs, names[i]) {
        assert !IsCollection(attrs, names[i]);
        assert Lookup(r, names[i]) == Lookup(attrs, names[i]);
      } else {
        assert Lookup(r, names[i]).Some?;
      }
    }
  }

  /** With every column already tracked as a scalar, the loop tracks nothing. */
  lemma {:induction false} LoadColumnsAllTracked(attrs: Attrs, names: seq<string>, columns: map<string, PyVal>,
                                                 convert: (string, PyVal) -> PyVal, dict: map<string, PyVal>)
    requires forall i :: 0 <= i < |names| ==> names[i] in columns
    requires forall i :: 0 <= i < |names| ==> HasKey(attrs, names[i]) && Lookup(attrs, names[i]).value.Scalar?
    ensures LoadColumns(attrs, names, columns, convert, dict).Ok?
    ensures LoadColumns(attrs, names, columns, convert, dict).value.0 == attrs
    decreases |names|
  {
    if |names| > 0 {
      var v := Lookup(attrs, names[0]).value.value;
      LoadColumnsAllTracked(attrs, names[1..], columns, convert, dict[names[0] := v.current]);
    }
  }

  /** `clear(target)` forgets one instance's entry, creating its model's entry
      if absent; `clear()` forgets everything. Both drop the new instances and
      the expunge list. */
  function Clear(ins: Instr, target: Option<Ref>): (r: Instr)
    ensures r.newInstances == [] && r.toExpunge == []
    ensures target.None? ==> r.changes == []
    ensures target.Some? ==>
              && HasKey(r.changes, target.value.model)
              && GetAttrs(r.changes, target.value.model, target.value.id) == []
              && forall m, id: nat :: (m, id) != (target.value.model, target.value.id) ==>
                   GetAttrs(r.changes, m, id) == GetAttrs(ins.changes, m, id)
  {
    match target
    case None => Fresh
    case Some(t) =>
      var insts := Lookup(ins.changes, t.model).GetOr([]);
      var changes := Put(ins.changes, t.model, Remove(insts, t.id));
      assert forall m, id: nat :: (m, id) != (t.model, t.id) ==>
               GetAttrs(changes, m, id) == GetAttrs(ins.changes, m, id) by {
        forall m, id: nat | (m, id) != (t.model, t.id)
          ensures GetAttrs(changes, m, id) == GetAttrs(ins.changes, m, id)
        {
          LookupPut(ins.changes, t.model, Remove(insts, t.id), m);
          LookupRemove(insts, t.id, id);
        }
      }
      LookupPut(ins.changes, t.model, Remove(insts, t.id), t.model);
      LookupRemove(insts, t.id, t.id);
      Instr(changes, [], [])
  }

  /** After a clear, numbering restarts: the next new instance is
      `NEW_INSTANCE_1`. */
  lemma ClearRestartsNumbering(ins: Instr, target: Option<Ref>, instrumentedClass: string, inst: Instance)
    requires inst.cls == instrumentedClass
    ensures NewIdsNumbered(Clear(ins, target))
    ensures NewEntry(OnAttach(Clear(ins, target), instrumentedClass, inst).newInstances,
                     inst.modelName, NewInstanceId(1)) == inst.fields
  {
    AttachUsesFreshId(Clear(ins, target), instrumentedClass, inst);
  }

  /** `_get_session_from_model`: the session of the model's storage API. */
  function SessionFor(model: Option<set<string>>, tablename: string): (r: Result<string>)
    ensures r.Ok? <==> model.Some? && tablename in model.value
    ensures r.Err? ==> r.msg == "Could not retrieve session for " + tablename
  {
    if model.Some? && tablename in model.value then Ok(tablename)
    else Err("Could not retrieve session for " + tablename)
  }

  /** `_register_new_instance_listener`: new instances can only be tracked
      with a model storage that has the class's table. */
  function RegisterNewInstanceListener(model: Option<set<string>>, tablename: string): (r: Result<string>)
    ensures r.Ok? <==> model.Some? && tablename in model.value
    ensures model.None? ==> r == Err("In order to keep track of new instances, a ctx is needed")
  {
    if model.None? then Err("In order to keep track of new instances, a ctx is needed")
    else SessionFor(model, tablename)
  }

  /** A stored instance: its column values and its collections. */
  datatype Row = Row(columns: map<string, PyVal>, collections: map<string, seq<Item>>)

  /** A model's storage API; an instance's id is its position. */
  datatype Table = Table(rows: seq<Row>)

  /** The model storage: one table per model name. */
  type Store = map<string, Table>

  function NoSuchModel(name: string): string {
    "'ModelStorage' object has no attribute '" + name + "'"
  }

  /** A tracked collection item names an existing model under `_MODEL_CLS`. */
  predicate ItemCreatable(item: Item, store: Store) {
    ModelClsKey in item && item[ModelClsKey].PStr? && item[ModelClsKey].s in store
  }

  /** The instance an item creates: its fields without the tag. */
  function Untagged(item: Item): Item {
    item - {ModelClsKey}
  }

  /** The list branch of the apply loop: one new collection member per item. */
  function AddItems(row: Row, name: string, items: seq<Item>, store: Store): (r: Result<Row>)
    ensures r.Ok? <==> name in row.collections && forall i :: 0 <= i < |items| ==> ItemCreatable(items[i], store)
    ensures r.Ok? ==> && r.value.columns == row.columns
                      && name in r.value.collections
                      && |r.value.collections[name]| == |row.collections[name]| + |items|
                      && r.value.collections[name][..|row.collections[name]|] == row.collections[name]
                      && (forall k :: k != name ==> (k in r.value.collections <==> k in row.collections))
                      && (forall k :: k != name && k in row.collections ==> r.value.collections[k] == row.collections[k])
    decreases |items|
  {
    if name !in row.collections then Err("object has no attribute '" + name + "'")
    else if |items| == 0 then Ok(row)
    else if !ItemCreatable(items[0], store) then
      if ModelClsKey !in items[0] then Err("KeyError: " + ModelClsKey) else Err("unknown model class")
    else
      var grown := row.(collections := row.collections[name := row.collections[name] + [Untagged(items[0])]]);
      var r := AddItems(grown, name, items[1..], store);
      assert r.Ok? <==> forall i :: 0 <= i < |items| ==> ItemCreatable(items[i], store) by {
        if r.Ok? {
          forall i | 1 <= i < |items|
            ensures ItemCreatable(items[i], store)
          {
            assert items[i] == items[1..][i - 1];
          }
        }
      }
      assert r.Ok? ==> r.value.collections[name][..|row.collections[name]|] == row.collections[name] by {
        if r.Ok? {
          var n := |row.collections[name]|;
          assert r.value.collections[name][..n + 1] == grown.collections[name];
          assert r.value.collections[name][..n] == r.value.collections[name][..n + 1][..n];
        }
      }
      r
  }

  /** A scalar entry whose initial and current values differ. */
  predicate WritesScalar(t: Tracked) {
    t.Scalar? && t.value.initial != t.value.current
  }

  /** One step of the apply loop: a list adds collection members; a scalar is
      written only when it changed. */
  function ApplyEntry(row: Row, name: string, t: Tracked, store: Store): (r: Result<Row>)
    ensures t.Scalar? ==> r.Ok?
    ensures t.Scalar? ==> r.value.collections == row.collections
    ensures WritesScalar(t) ==> r.value.columns == row.columns[name := t.value.current]
    ensures r.Ok? && !WritesScalar(t) ==> r.value.columns == row.columns
  {
    match t
    case Collection(items) => AddItems(row, name, items, store)
    case Scalar(v) => Ok(if v.initial != v.current then row.(columns := row.columns[name := v.current]) else row)
  }

  /** The per-attribute loop of the apply step for one instance. Returns the
      updated row and whether the `version` column was written. */
  function ApplyAttrs(row: Row, attrs: Attrs, store: Store): (r: Result<(Row, bool)>)
    ensures r.Ok? ==> (r.value.1 <==> exists i :: 0 <= i < |attrs| && attrs[i].0 == VersionIdCol && WritesScalar(attrs[i].1))
    decreases |attrs|
  {
    if |attrs| == 0 then Ok((row, false))
    else
      var next :- ApplyEntry(row, attrs[0].0, attrs[0].1, store);
      var rest :- ApplyAttrs(next, attrs[1..], store);
      Ok((rest.0, rest.1 || (attrs[0].0 == VersionIdCol && WritesScalar(attrs[0].1))))
  }

  /** The entry that writes column `k`, if any. */
  predicate Writes(attrs: Attrs, k: string) {
    exists i :: 0 <= i < |attrs| && attrs[i].0 == k && WritesScalar(attrs[i].1)
  }

  lemma WritesSplit(attrs: Attrs, k: string)
    requires |attrs| > 0
    ensures Writes(attrs, k) <==> (attrs[0].0 == k && WritesScalar(attrs[0].1)) || Writes(attrs[1..], k)
  {
    if Writes(attrs, k) {
      var i :| 0 <= i < |attrs| && attrs[i].0 == k && WritesScalar(attrs[i].1);
      if i > 0 {
        assert attrs[1..][i - 1] == attrs[i];
      }
    }
    if Writes(attrs[1..], k) {
      var i :| 0 <= i < |attrs[1..]| && attrs[1..][i].0 == k && WritesScalar(attrs[1..][i].1);
      assert attrs[i + 1] == attrs[1..][i];
    }
  }

  /** The version flag is raised exactly when the log writes `version`. */
  lemma {:induction false} ApplyAttrsVersion(row: Row, attrs: Attrs, store: Store)
    requires ApplyAttrs(row, attrs, store).Ok?
    ensures ApplyAttrs(row, attrs, store).value.1 <==> Writes(attrs, VersionIdCol)
    decreases |attrs|
  {
    if |attrs| > 0 {
      var next := ApplyEntry(row, attrs[0].0, attrs[0].1, store).value;
      ApplyAttrsVersion(next, attrs[1..], store);
      WritesSplit(attrs, VersionIdCol);
    }
  }

  /** A column no entry writes keeps its value. */
  lemma {:induction false} ApplyAttrsKeeps(row: Row, attrs: Attrs, store: Store, k: string)
    requires ApplyAttrs(row, attrs, store).Ok?
    requires !Writes(attrs, k)
    ensures var r := ApplyAttrs(row, attrs, store).value.0;
            (k in r.columns <==> k in row.columns) && (k in row.columns ==> r.columns[k] == row.columns[k])
    decreases |attrs|
  {
    if |attrs| > 0 {
      var next := ApplyEntry(row, attrs[0].0, attrs[0].1, store).value;
      WritesSplit(attrs, k);
      ApplyAttrsKeeps(next, attrs[1..], store, k);
    }
  }

  /** Every changed scalar is written with its current value (keys are
      unique, as in the Python dict the log comes from). */
  lemma {:induction false} ApplyAttrsWrites(row: Row, attrs: Attrs, store: Store, i: nat)
    requires UniqueKeys(attrs)
    requires ApplyAttrs(row, attrs, store).Ok?
    requires i < |attrs| && WritesScalar(attrs[i].1)
    ensures var r := ApplyAttrs(row, attrs, store).value.0;
            attrs[i].0 in r.columns && r.columns[attrs[i].0] == attrs[i].1.value.current
    decreases |attrs|
  {
    var next := ApplyEntry(row, attrs[0].0, attrs[0].1, store).value;
    var tail := attrs[1..];
    if i == 0 {
      assert !Writes(tail, attrs[0].0);
      ApplyAttrsKeeps(next, tail, store, attrs[0].0);
    } else {
      assert tail[i - 1] == attrs[i];
      ApplyAttrsWrites(next, tail, store, i - 1);
    }
  }

  /** `'{0}'.format(v)` for the values a version column holds. */
  function Show(v: PyVal): (s: string)
    ensures v.PInt? ==> |s| > 0 && (s[0] == '-' <==> v.i < 0)
    ensures v.PInt? && v.i >= 0 ==> IsDigits(s)
  {
    match v
    case PNone => "None"
    case PBool(b) => if b then "True" else "False"
    case PInt(i) => if i < 0 then "-" + Decimal(-i) else Decimal(i)
    case PStr(s) => s
    case Stub => "<object object>"
  }

  /** Distinct integer versions print differently, so a version conflict
      message names the versions it compares. */
  lemma ShowIntInjective(a: int, b: int)
    requires Show(PInt(a)) == Show(PInt(b))
    ensures a == b
  {
    var s := Show(PInt(a));
    assert (a < 0) == (b < 0) by {
      assert s[0] == '-' <==> a < 0;
      assert s[0] == '-' <==> b < 0;
    }
    if a < 0 {
      NegativeMagnitudes(a, b);
    } else {
      DecimalInjective(a, b);
    }
  }

  lemma NegativeMagnitudes(a: int, b: int)
    requires a < 0 && b < 0 && "-" + Decimal(-a) == "-" + Decimal(-b)
    ensures a == b
  {
    DropSign(Decimal(-a), Decimal(-b));
    DecimalInjective(-a, -b);
  }

  lemma DropSign(s: string, t: string)
    requires "-" + s == "-" + t
    ensures s == t
  {
    assert s == ("-" + s)[1..];
    assert t == ("-" + t)[1..];
  }

  /** `_validate_version_id`: a truthy committed version that differs from
      the object's version is a conflict. */
  function ValidateVersion(committed: PyVal, current: PyVal): (r: Result<()>)
    ensures r.Err? <==> Truthy(committed) && current != committed
  {
    if Truthy(committed) && current != committed then
      Err("Version conflict: committed and object " + VersionIdCol + " differ [committed "
          + VersionIdCol + "=" + Show(committed) + ", object " + VersionIdCol + "=" + Show(current) + "]")
    else Ok(())
  }

  /** The committed state of `version` after the loop: the stored value when
      the loop wrote the column, nothing otherwise. */
  function CommittedVersion(row: Row, versionWritten: bool): PyVal {
    if versionWritten && VersionIdCol in row.columns then row.columns[VersionIdCol] else PNone
  }

  function ColumnOr(row: Row, k: string): PyVal {
    if k in row.columns then row.columns[k] else PNone
  }

  /** Applies one instance's tracked attributes: fetched only if there is
      something to apply, then validated against its version and updated. */
  function ApplyInstance(store: Store, mapi: string, id: nat, attrs: Attrs): (r: Result<Store>)
    requires mapi in store
    ensures |attrs| == 0 ==> r == Ok(store)
    ensures |attrs| > 0 && id >= |store[mapi].rows| ==> r.Err?
    ensures r.Ok? ==> r.value.Keys == store.Keys && |r.value[mapi].rows| == |store[mapi].rows|
    ensures r.Ok? ==> forall m :: m in store && m != mapi ==> r.value[m] == store[m]
    ensures r.Ok? && |attrs| > 0 ==>
              var row := store[mapi].rows[id];
              var applied := ApplyAttrs(row, attrs, store);
              && applied.Ok?
              && r.value[mapi].rows == store[mapi].rows[id := applied.value.0]
              && !(Truthy(CommittedVersion(row, applied.value.1))
                   && ColumnOr(applied.value.0, VersionIdCol) != CommittedVersion(row, applied.value.1))
  {
    if |attrs| == 0 then Ok(store)
    else
      var rows := store[mapi].rows;
      if id >= |rows| then Err("Requested " + mapi + " with ID `" + Decimal(id) + "` was not found")
      else
        var applied :- ApplyAttrs(rows[id], attrs, store);
        var _ :- ValidateVersion(CommittedVersion(rows[id], applied.1), ColumnOr(applied.0, VersionIdCol));
        Ok(store[mapi := Table(rows[id := applied.0])])
  }

  /** A version conflict fails the application: the log writes `version`
      (the first value seen), the stored version is truthy and differs. */
  lemma VersionConflictFails(store: Store, mapi: string, id: nat, attrs: Attrs)
    requires mapi in store && id < |store[mapi].rows| && |attrs| > 0
    requires UniqueKeys(attrs)
    requires var row := store[mapi].rows[id];
             && ApplyAttrs(row, attrs, store).Ok?
             && Writes(attrs, VersionIdCol)
             && VersionIdCol in row.columns && Truthy(row.columns[VersionIdCol])
    requires forall i :: 0 <= i < |attrs| && attrs[i].0 == VersionIdCol ==>
               attrs[i].1.Scalar? && attrs[i].1.value.current != store[mapi].rows[id].columns[VersionIdCol]
    ensures ApplyInstance(store, mapi, id, attrs).Err?
  {
    var row := store[mapi].rows[id];
    ApplyAttrsVersion(row, attrs, store);
    var i :| 0 <= i < |attrs| && attrs[i].0 == VersionIdCol && WritesScalar(attrs[i].1);
    ApplyAttrsWrites(row, attrs, store, i);
  }

  /** Applies every tracked instance of one model. */
  function ApplyInstances(store: Store, mapi: string, insts: Dict<nat, Attrs>): (r: Result<Store>)
    requires mapi in store
    ensures r.Ok? ==> r.value.Keys == store.Keys
    ensures r.Ok? ==> forall m :: m in store ==> |r.value[m].rows| == |store[m].rows|
    ensures r.Ok? ==> forall m :: m in store && m != mapi ==> r.value[m] == store[m]
    decreases |insts|
  {
    if |insts| == 0 then Ok(store)
    else
      var s1 :- ApplyInstance(store, mapi, insts[0].0, insts[0].1);
      ApplyInstances(s1, mapi, insts[1..])
  }

  /** The rows `model_cls(**kwargs)` creates for a model's new instances, in
      order. */
  function NewRows(entries: Dict<string, Item>): (rows: seq<Row>)
    ensures |rows| == |entries|
    ensures forall i :: 0 <= i < |entries| ==> rows[i] == Row(entries[i].1, map[])
  {
    if |entries| == 0 then [] else [Row(entries[0].1, map[])] + NewRows(entries[1..])
  }

  /** Number of new instances recorded for one model. */
  function NewCount(newInstances: NewInstances, m: string): nat {
    if |newInstances| == 0 then 0
    else (if newInstances[0].0 == m then |newInstances[0].1| else 0) + NewCount(newInstances[1..], m)
  }

  /** `mapi.put` of every new instance, model by model. */
  function PutNewInstances(store: Store, newInstances: NewInstances): (r: Result<Store>)
    ensures r.Ok? <==> forall i :: 0 <= i < |newInstances| ==> newInstances[i].0 in store
    ensures r.Ok? ==> r.value.Keys == store.Keys
    decreases |newInstances|
  {
    if |newInstances| == 0 then Ok(store)
    else
      var name := newInstances[0].0;
      if name !in store then Err(NoSuchModel(name))
      else
        var grown := store[name := Table(store[name].rows + NewRows(newInstances[0].1))];
        var r := PutNewInstances(grown, newInstances[1..]);
        assert r.Ok? <==> forall i :: 0 <= i < |newInstances| ==> newInstances[i].0 in store by {
          if r.Ok? {
            forall i | 1 <= i < |newInstances|
              ensures newInstances[i].0 in store
            {
              assert newInstances[i] == newInstances[1..][i - 1];
            }
          }
        }
        r
  }

  /** Each new instance is put exactly once: a model's table grows by the
      number of new instances recorded for it. */
  lemma {:induction false} PutNewInstancesCount(store: Store, newInstances: NewInstances, m: string)
    requires PutNewInstances(store, newInstances).Ok?
    requires m in store
    ensures |PutNewInstances(store, newInstances).value[m].rows| == |store[m].rows| + NewCount(newInstances, m)
    decreases |newInstances|
  {
    if |newInstances| > 0 {
      var name := newInstances[0].0;
      var grown := store[name := Table(store[name].rows + NewRows(newInstances[0].1))];
      PutNewInstancesCount(grown, newInstances[1..], m);
    }
  }

  /** The tracked-instance loop over models, each with its own storage API. */
  function ApplyModels(store: Store, changes: Changes): (r: Result<Store>)
    ensures r.Ok? ==> r.value.Keys == store.Keys
    ensures r.Ok? ==> forall m :: m in store ==> |r.value[m].rows| == |store[m].rows|
    decreases |changes|
  {
    if |changes| == 0 then Ok(store)
    else
      var name := changes[0].0;
      if name !in store then Err(NoSuchModel(name))
      else
        var s1 :- ApplyInstances(store, name, changes[0].1);
        ApplyModels(s1, changes[1..])
  }

  /** `apply_tracked_changes` as evidently intended: every new instance put
      once, then each model's tracked changes applied through that model's
      own storage API. */
  function ApplyTrackedChanges(changes: Changes, newInstances: NewInstances, store: Store): (r: Result<Store>)
    ensures r.Ok? ==> r.value.Keys == store.Keys
  {
    var s1 :- PutNewInstances(store, newInstances);
    ApplyModels(s1, changes)
  }

  /** Every new instance lands in storage exactly once, whatever the tracked
      changes. */
  lemma NewInstancesPutOnce(changes: Changes, newInstances: NewInstances, store: Store, m: string)
    requires ApplyTrackedChanges(changes, newInstances, store).Ok?
    requires m in store
    ensures |ApplyTrackedChanges(changes, newInstances, store).value[m].rows| == |store[m].rows| + NewCount(newInstances, m)
  {
    PutNewInstancesCount(store, newInstances, m);
  }

  /** The second pass of the nested new-instance loop: the entries were
      replaced by the instances put in the first pass, and `model_cls(**instance)`
      rejects a non-mapping. */
  function PutAgain(store: Store, newInstances: NewInstances): (r: Result<Store>)
    ensures r.Ok? ==> r == Ok(store) && forall i :: 0 <= i < |newInstances| ==> newInstances[i].0 in store
    ensures (exists i :: 0 <= i < |newInstances| && |newInstances[i].1| > 0) ==> r.Err?
    decreases |newInstances|
  {
    if |newInstances| == 0 then Ok(store)
    else if newInstances[0].0 !in store then Err(NoSuchModel(newInstances[0].0))
    else if |newInstances[0].1| > 0 then Err("TypeError: argument after ** must be a mapping")
    else
      var r := PutAgain(store, newInstances[1..]);
      assert r.Ok? ==> forall i :: 0 <= i < |newInstances| ==> newInstances[i].0 in store by {
        if r.Ok? {
          forall i | 1 <= i < |newInstances|
            ensures newInstances[i].0 in store
          {
            assert newInstances[i] == newInstances[1..][i - 1];
          }
        }
      }
      assert (exists i :: 0 <= i < |newInstances| && |newInstances[i].1| > 0) ==> r.Err? by {
        if exists i :: 0 <= i < |newInstances| && |newInstances[i].1| > 0 {
          var i :| 0 <= i < |newInstances| && |newInstances[i].1| > 0;
          assert newInstances[1..][i - 1] == newInstances[i];
        }
      }
      r
  }

  /** `apply_tracked_changes` as written: the new-instance loop runs inside
      the tracked-changes loop, once per tracked model, and rebinds the model
      name and storage API the instance updates then go through. */
  function ApplyTrackedChangesAsWritten(changes: Changes, newInstances: NewInstances, store: Store, consumed: bool): (r: Result<Store>)
    ensures r.Ok? ==> r.value.Keys == store.Keys
    ensures |changes| == 0 ==> r == Ok(store)
    ensures |newInstances| == 0 ==> r == ApplyTrackedChanges(changes, newInstances, store)
    decreases |changes|
  {
    if |changes| == 0 then Ok(store)
    else
      var name := changes[0].0;
      if name !in store then Err(NoSuchModel(name))
      else if |newInstances| == 0 then
        var s1 :- ApplyInstances(store, name, changes[0].1);
        ApplyTrackedChangesAsWritten(changes[1..], newInstances, s1, consumed)
      else
        var s1 :- if consumed then PutAgain(store, newInstances) else PutNewInstances(store, newInstances);
        var rebound := newInstances[|newInstances| - 1].0;
        var s2 :- ApplyInstances(s1, rebound, changes[0].1);
        ApplyTrackedChangesAsWritten(changes[1..], newInstances, s2, true)
  }

  /** As written, new instances are never stored when no tracked changes
      came with them, while the intended application stores them. */
  lemma NewInstancesLostAsWritten(store: Store, m: string, entries: Dict<string, Item>)
    requires m in store && |entries| > 0
    ensures ApplyTrackedChangesAsWritten([], [(m, entries)], store, false) == Ok(store)
    ensures var r := ApplyTrackedChanges([], [(m, entries)], store);
            r.Ok? && |r.value[m].rows| == |store[m].rows| + |entries|
  {
    NewInstancesPutOnce([], [(m, entries)], store, m);
    assert NewCount([(m, entries)], m) == |entries| + NewCount([], m);
  }

  /** A new-instance entry with no instances leaves storage as it was. */
  lemma PutNoNewInstances(store: Store, m: string)
    requires m in store
    ensures PutNewInstances(store, [(m, [])]) == Ok(store)
  {
    var n: Dict<string, Item> := [];
    assert NewRows(n) == [];
    assert store[m].rows + NewRows(n) == store[m].rows;
    assert store[m := Table(store[m].rows + NewRows(n))] == store;
    var ni: NewInstances := [(m, n)];
    assert ni[1..] == [];
  }

  /** A single tracked instance whose only change is one non-version column. */
  lemma ApplySingleScalar(store: Store, mapi: string, id: nat, col: string, a: PyVal, b: PyVal)
    requires mapi in store && id < |store[mapi].rows|
    requires a != b && col != VersionIdCol
    ensures var row := store[mapi].rows[id];
            ApplyInstances(store, mapi, [(id, [(col, Scalar(Value(a, b)))])])
            == Ok(store[mapi := Table(store[mapi].rows[id := row.(columns := row.columns[col := b])])])
  {
    var row := store[mapi].rows[id];
    var attrs: Attrs := [(col, Scalar(Value(a, b)))];
    var row' := row.(columns := row.columns[col := b]);
    assert attrs[1..] == [];
    assert ApplyAttrs(row, attrs, store) == Ok((row', false));
    assert CommittedVersion(row, false) == PNone;
    var insts: Dict<nat, Attrs> := [(id, attrs)];
    assert insts[1..] == [];
  }

  /** As written, with one tracked model and an empty new-instance entry for
      another, the tracked instances are applied to the other model's table. */
  lemma AsWrittenRoutesToLastNewModel(store: Store, tracked: string, other: string, insts: Dict<nat, Attrs>)
    requires tracked in store && other in store
    ensures ApplyTrackedChangesAsWritten([(tracked, insts)], [(other, [])], store, false)
            == ApplyInstances(store, other, insts)
  {
    var changes: Changes := [(tracked, insts)];
    var newInstances: NewInstances := [(other, [])];
    PutNoNewInstances(store, other);
    assert changes[1..] == [];
    assert newInstances[|newInstances| - 1].0 == other;
  }

  /** The intended application routes them to the tracked model's table. */
  lemma IntendedRoutesToOwnModel(store: Store, tracked: string, other: string, insts: Dict<nat, Attrs>)
    requires tracked in store && other in store
    ensures ApplyTrackedChanges([(tracked, insts)], [(other, [])], store) == ApplyInstances(store, tracked, insts)
  {
    var changes: Changes := [(tracked, insts)];
    PutNoNewInstances(store, other);
    assert changes[1..] == [];
    var r := ApplyInstances(store, tracked, insts);
    if r.Ok? {
      assert ApplyModels(r.value, changes[1..]) == Ok(r.value);
    }
  }

  /** As written, a tracked change of one model is applied to the row with
      the same id in the table of the last model that has new instances;
      the intended application changes the tracked model's row. */
  lemma ChangeMisroutedAsWritten(store: Store, tracked: string, other: string, id: nat, col: string, a: PyVal, b: PyVal)
    requires tracked in store && other in store && tracked != other
    requires id < |store[tracked].rows| && id < |store[other].rows|
    requires a != b && col != VersionIdCol
    ensures var changes: Changes := [(tracked, [(id, [(col, Scalar(Value(a, b)))])])];
            var asWritten := ApplyTrackedChangesAsWritten(changes, [(other, [])], store, false);
            var intended := ApplyTrackedChanges(changes, [(other, [])], store);
            var o := store[other].rows[id];
            var t := store[tracked].rows[id];
            && asWritten == Ok(store[other := Table(store[other].rows[id := o.(columns := o.columns[col := b])])])
            && intended == Ok(store[tracked := Table(store[tracked].rows[id := t.(columns := t.columns[col := b])])])
  {
    var insts: Dict<nat, Attrs> := [(id, [(col, Scalar(Value(a, b)))])];
    AsWrittenRoutesToLastNewModel(store, tracked, other, insts);
    IntendedRoutesToOwnModel(store, tracked, other, insts);
    ApplySingleScalar(store, other, id, col, a, b);
    ApplySingleScalar(store, tracked, id, col, a, b);
  }

  /** As written, a second tracked model makes the nested loop re-create the
      already stored instances from instance objects, which raises; the
      intended application succeeds. */
  lemma SecondModelFailsAsWritten(store: Store, m1: string, m2: string, other: string, tmp: string, fields: Item)
    requires m1 in store && m2 in store && other in store
    ensures var changes: Changes := [(m1, []), (m2, [])];
            var newInstances: NewInstances := [(other, [(tmp, fields)])];
            && ApplyTrackedChangesAsWritten(changes, newInstances, store, false).Err?
            && ApplyTrackedChanges(changes, newInstances, store).Ok?
  {
    var changes: Changes := [(m1, []), (m2, [])];
    var newInstances: NewInstances := [(other, [(tmp, fields)])];
    var none: Dict<nat, Attrs> := [];
    assert newInstances[1..] == [];
    var s1 := PutNewInstances(store, newInstances).value;
    assert ApplyInstances(s1, other, none) == Ok(s1);
    assert changes[1..] == [(m2, none)];
    assert PutAgain(s1, newInstances).Err?;
    assert ApplyTrackedChangesAsWritten(changes[1..], newInstances, s1, true).Err?;
    assert ApplyInstances(s1, m1, none) == Ok(s1);
    assert ApplyInstances(s1, m2, none) == Ok(s1);
    assert changes[1..][1..] == [];
    assert ApplyModels(s1, changes[1..]) == Ok(s1);
  }
}
