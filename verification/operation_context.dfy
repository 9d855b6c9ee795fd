/** The operation context: its flat attribute view over an actor's stored
    parameters, the plugin work directory, and the dictionary a context is
    handed to a subprocess in. Storages are opaque records built from their
    configuration; creating directories is left out. */
module OperationContext {
  import opened Base
  import opened Dicts
  import AttributeDict

  type Val = AttributeDict.Val
  type StorageCall = AttributeDict.StorageCall

  /** A stored parameter: `unwrap()` gives its name and value. */
  datatype Parameter = Parameter(name: string, value: Val)

  /** `_Attributes`: the actor's attributes, keyed by name. */
  type Attributes = Dict<string, Parameter>

  /** `attributes[item]`: the stored parameter's value. */
  function GetAttr(attrs: Attributes, item: string): (r: Result<Val>)
    ensures r.Ok? <==> HasKey(attrs, item)
    ensures r.Ok? ==> exists i :: 0 <= i < |attrs| && attrs[i].0 == item && attrs[i].1.value == r.value
  {
    match Lookup(attrs, item)
    case None => Err("KeyError: " + item)
    case Some(p) => Ok(p.value)
  }

  /** `attributes[key] = value`: an existing parameter gets the value and is
      `update`d; a new key is wrapped and `put`. */
  function SetAttr(attrs: Attributes, key: string, value: Val): (r: (Attributes, StorageCall))
    ensures HasKey(attrs, key) ==> |r.0| == |attrs| && r.1.UpdateCall?
    ensures !HasKey(attrs, key) ==> r == (attrs + [(key, Parameter(key, value))], AttributeDict.PutCall(key))
  {
    match Lookup(attrs, key)
    case Some(p) => (Put(attrs, key, p.(value := value)), AttributeDict.UpdateCall(p.name))
    case None => (Put(attrs, key, Parameter(key, value)), AttributeDict.PutCall(key))
  }

  /** A written value is read back, and no other key changes. */
  lemma SetThenGetAttr(attrs: Attributes, key: string, value: Val, other: string)
    ensures GetAttr(SetAttr(attrs, key, value).0, key) == Ok(value)
    ensures other != key ==> GetAttr(SetAttr(attrs, key, value).0, other) == GetAttr(attrs, other)
  {
    match Lookup(attrs, key)
    case Some(p) =>
      LookupPut(attrs, key, p.(value := value), key);
      LookupPut(attrs, key, p.(value := value), other);
    case None =>
      LookupPut(attrs, key, Parameter(key, value), key);
      LookupPut(attrs, key, Parameter(key, value), other);
  }

  /** `update(dict_, **kwargs)`: each pair in turn, the dict's first. */
  function SetAttrs(attrs: Attributes, pairs: seq<(string, Val)>): (r: (Attributes, seq<StorageCall>))
    ensures |r.1| == |pairs|
    decreases |pairs|
  {
    if |pairs| == 0 then (attrs, [])
    else
      var first := SetAttr(attrs, pairs[0].0, pairs[0].1);
      var rest := SetAttrs(first.0, pairs[1..]);
      (rest.0, [first.1] + rest.1)
  }

  function UpdateAttrs(attrs: Attributes, dict: seq<(string, Val)>, kwargs: seq<(string, Val)>): (r: (Attributes, seq<StorageCall>))
    ensures |r.1| == |dict| + |kwargs|
  {
    var first := SetAttrs(attrs, dict);
    var second := SetAttrs(first.0, kwargs);
    (second.0, first.1 + second.1)
  }

  /** After `update`, a key holds the value of its last write, a keyword
      argument winning over the dict. */
  lemma {:induction false} SetAttrsLastWriteWins(attrs: Attributes, pairs: seq<(string, Val)>, k: string)
    ensures GetAttr(SetAttrs(attrs, pairs).0, k)
            == match AttributeDict.LastValue(pairs, k)
               case Some(v) => Ok(v)
               case None => GetAttr(attrs, k)
    decreases |pairs|
  {
    if |pairs| > 0 {
      var first := SetAttr(attrs, pairs[0].0, pairs[0].1);
      SetAttrsLastWriteWins(first.0, pairs[1..], k);
      SetThenGetAttr(attrs, pairs[0].0, pairs[0].1, k);
    }
  }

  lemma UpdateAttrsKeywordWins(attrs: Attributes, dict: seq<(string, Val)>, kwargs: seq<(string, Val)>, k: string)
    requires AttributeDict.LastValue(kwargs, k).Some?
    ensures GetAttr(UpdateAttrs(attrs, dict, kwargs).0, k) == Ok(AttributeDict.LastValue(kwargs, k).value)
  {
    SetAttrsLastWriteWins(SetAttrs(attrs, dict).0, kwargs, k);
  }

  /** `keys()`, `values()`, `items()`: the parameters' own names and values,
      in attribute order. */
  function AttrItems(attrs: Attributes): (r: seq<(string, Val)>)
    ensures |r| == |attrs|
    ensures forall i :: 0 <= i < |attrs| ==> r[i] == (attrs[i].1.name, attrs[i].1.value)
  {
    if |attrs| == 0 then [] else [(attrs[0].1.name, attrs[0].1.value)] + AttrItems(attrs[1..])
  }

  /** `keys()`: the name each stored parameter unwraps to. */
  function AttrKeys(attrs: Attributes): (ks: seq<string>)
    ensures |ks| == |attrs|
  {
    if |attrs| == 0 then [] else [attrs[0].1.name] + AttrKeys(attrs[1..])
  }

  /** `values()`: the value each stored parameter unwraps to. */
  function AttrValues(attrs: Attributes): (vs: seq<Val>)
    ensures |vs| == |attrs|
  {
    if |attrs| == 0 then [] else [attrs[0].1.value] + AttrValues(attrs[1..])
  }

  /** `keys()`, `values()` and `items()` walk the attributes alike: the i-th
      item is the i-th key with the i-th value. */
  lemma {:induction false} ItemsAlign(attrs: Attributes)
    ensures forall i :: 0 <= i < |attrs| ==> AttrItems(attrs)[i] == (AttrKeys(attrs)[i], AttrValues(attrs)[i])
  {
    if |attrs| > 0 {
      ItemsAlign(attrs[1..]);
      forall i | 0 <= i < |attrs|
        ensures AttrItems(attrs)[i] == (AttrKeys(attrs)[i], AttrValues(attrs)[i])
      {
        if i > 0 {
          assert AttrKeys(attrs)[i] == AttrKeys(attrs[1..])[i - 1];
          assert AttrValues(attrs)[i] == AttrValues(attrs[1..])[i - 1];
        }
      }
    }
  }

  /** Attributes created through the view carry their key as their name. */
  predicate NamedByKey(attrs: Attributes) {
    forall i :: 0 <= i < |attrs| ==> attrs[i].1.name == attrs[i].0
  }

  /** When parameters are named by their key, `keys()` gives the keys the
      attributes are stored under. */
  lemma {:induction false} KeysAreStoredKeys(attrs: Attributes)
    requires NamedByKey(attrs)
    ensures AttrKeys(attrs) == Keys(attrs)
  {
    if |attrs| > 0 {
      KeysAreStoredKeys(attrs[1..]);
    }
  }

  /** Reading back each key `keys()` yields gives the matching entry of
      `values()`. */
  lemma KeysLookUpValues(attrs: Attributes, i: nat)
    requires NamedByKey(attrs) && UniqueKeys(attrs) && i < |attrs|
    ensures GetAttr(attrs, AttrKeys(attrs)[i]) == Ok(AttrValues(attrs)[i])
  {
    KeysAreStoredKeys(attrs);
    ItemsAlign(attrs);
    LookupAt(attrs, i);
  }

  /** Writes keep parameters named by their key, so the keys `keys()` yields
      are the old ones and the written one. A new key comes last in the
      insertion order these dicts keep. */
  lemma SetAttrKeys(attrs: Attributes, key: string, value: Val)
    requires NamedByKey(attrs)
    ensures NamedByKey(SetAttr(attrs, key, value).0)
    ensures forall k :: k in AttrKeys(SetAttr(attrs, key, value).0) <==> k == key || k in AttrKeys(attrs)
    ensures AttrKeys(SetAttr(attrs, key, value).0) == if HasKey(attrs, key) then AttrKeys(attrs) else AttrKeys(attrs) + [key]
  {
    var r := SetAttr(attrs, key, value).0;
    match Lookup(attrs, key)
    case Some(p) =>
      PutElements(attrs, key, p.(value := value));
      assert Keys(r) == Keys(attrs);
      forall i | 0 <= i < |r|
        ensures r[i].1.name == r[i].0
      {
        assert r[i] in r;
        if r[i] != (key, p.(value := value)) {
          var j :| 0 <= j < |attrs| && attrs[j] == r[i];
        } else {
          var j :| 0 <= j < |attrs| && attrs[j] == (key, p);
        }
      }
      KeysAreStoredKeys(r);
      KeysAreStoredKeys(attrs);
      var j :| 0 <= j < |attrs| && attrs[j].0 == key;
      assert Keys(attrs)[j] == key;
    case None =>
      KeysAreStoredKeys(r);
      KeysAreStoredKeys(attrs);
  }

  /** `plugin_workdir`: nothing without a plugin, otherwise a directory named
      by the work directory, the service id and the plugin name. */
  function PluginWorkdir(workdir: string, serviceId: nat, plugin: Option<string>): (r: Option<string>)
    ensures r.None? <==> plugin.None?
    ensures r.Some? ==> |workdir| + |plugin.value| < |r.value|
    ensures r.Some? ==> r.value[..|workdir|] == workdir && r.value[|r.value| - |plugin.value|..] == plugin.value
    ensures r.Some? ==> r.value == workdir + "/plugins/" + Decimal(serviceId) + "/" + plugin.value
  {
    match plugin
    case None => None
    case Some(name) => Some(workdir + "/plugins/" + Decimal(serviceId) + "/" + name)
  }

  /** `a/b` splits back at its first `/` when `a` has none. */
  lemma SplitAtFirstSlash(a1: string, b1: string, a2: string, b2: string)
    requires '/' !in a1 && '/' !in a2
    requires a1 + "/" + b1 == a2 + "/" + b2
    ensures a1 == a2 && b1 == b2
  {
    var t := a1 + "/" + b1;
    assert t == a1 + ['/'] + b1 && t == a2 + ['/'] + b2;
    FindFirstAfter(a1, '/', b1);
    FindFirstAfter(a2, '/', b2);
    assert a1 == t[..|a1|] && a2 == t[..|a2|];
    assert b1 == t[|a1| + 1..] && b2 == t[|a2| + 1..];
  }

  lemma PluginWorkdirParts(workdir: string, serviceId: nat, plugin: string)
    ensures PluginWorkdir(workdir, serviceId, Some(plugin))
            == Some((workdir + "/plugins/") + (Decimal(serviceId) + "/" + plugin))
  {
    assert workdir + "/plugins/" + Decimal(serviceId) + "/" + plugin
           == (workdir + "/plugins/") + (Decimal(serviceId) + "/" + plugin);
  }

  lemma SamePrefix(prefix: string, t1: string, t2: string)
    requires prefix + t1 == prefix + t2
    ensures t1 == t2
  {
    assert (prefix + t1)[|prefix|..] == t1;
    assert (prefix + t2)[|prefix|..] == t2;
  }

  /** Distinct services and plugins get distinct directories under one work
      directory, as long as plugin names contain no `/`. */
  lemma PluginWorkdirInjective(workdir: string, s1: nat, p1: string, s2: nat, p2: string)
    requires '/' !in p1 && '/' !in p2
    requires PluginWorkdir(workdir, s1, Some(p1)) == PluginWorkdir(workdir, s2, Some(p2))
    ensures s1 == s2 && p1 == p2
  {
    var prefix := workdir + "/plugins/";
    var t1 := Decimal(s1) + "/" + p1;
    var t2 := Decimal(s2) + "/" + p2;
    PluginWorkdirParts(workdir, s1, p1);
    PluginWorkdirParts(workdir, s2, p2);
    SamePrefix(prefix, t1, t2);
    DecimalHasNo(s1, '/');
    DecimalHasNo(s2, '/');
    SplitAtFirstSlash(Decimal(s1), p1, Decimal(s2), p2);
    DecimalInjective(s1, s2);
  }

  /** A storage, known by the configuration it was built from. */
  datatype Storage = Storage(config: map<string, string>)

  /** The fields a context keeps. */
  datatype Context = Context(
    name: string,
    serviceId: nat,
    taskId: nat,
    actorId: nat,
    workdir: string,
    modelStorage: Option<Storage>,
    resourceStorage: Option<Storage>,
    executionId: nat,
    loggerLevel: nat)

  /** The `context` part of `serialization_dict`; storages are replaced by
      their own serialization dicts. */
  datatype ContextDict = ContextDict(
    name: string,
    serviceId: nat,
    taskId: nat,
    actorId: nat,
    workdir: string,
    modelStorage: Option<map<string, string>>,
    resourceStorage: Option<map<string, string>>,
    executionId: nat,
    loggerLevel: nat)

  /** A storage's `serialization_dict`: its configuration. */
  function StorageDict(s: Option<Storage>): (r: Option<map<string, string>>)
    ensures r.None? <==> s.None?
    ensures r.Some? ==> r.value == s.value.config
  {
    match s
    case None => None
    case Some(st) => Some(st.config)
  }

  function SerializationDict(c: Context): (d: ContextDict)
    ensures d.modelStorage.None? <==> c.modelStorage.None?
    ensures d.resourceStorage.None? <==> c.resourceStorage.None?
  {
    ContextDict(c.name, c.serviceId, c.taskId, c.actorId, c.workdir,
                StorageDict(c.modelStorage), StorageDict(c.resourceStorage), c.executionId, c.loggerLevel)
  }

  /** `if storage: storage = application_..._storage(**storage)`. An empty
      configuration is falsy and builds nothing. */
  function BuildStorage(d: Option<map<string, string>>): (r: Option<Storage>)
    ensures r.Some? <==> d.Some? && |d.value| > 0
  {
    if d.Some? && |d.value| > 0 then Some(Storage(d.value)) else None
  }

  /** `deserialize_from_dict`: the storages are rebuilt from their
      configurations; every other field is taken over. */
  function DeserializeFromDict(d: ContextDict): (c: Context)
    ensures c.modelStorage.Some? <==> d.modelStorage.Some? && |d.modelStorage.value| > 0
    ensures c.modelStorage.Some? ==> c.modelStorage.value.config == d.modelStorage.value
    ensures c.resourceStorage.Some? <==> d.resourceStorage.Some? && |d.resourceStorage.value| > 0
    ensures c.resourceStorage.Some? ==> c.resourceStorage.value.config == d.resourceStorage.value
  {
    Context(d.name, d.serviceId, d.taskId, d.actorId, d.workdir,
            BuildStorage(d.modelStorage), BuildStorage(d.resourceStorage), d.executionId, d.loggerLevel)
  }

  predicate Serializable(s: Option<Storage>) {
    s.None? || |s.value.config| > 0
  }

  /** A context handed over through its serialization dict comes back with
      every field as it was; an absent storage stays absent. */
  lemma SerializationRoundTrip(c: Context)
    requires Serializable(c.modelStorage) && Serializable(c.resourceStorage)
    ensures DeserializeFromDict(SerializationDict(c)) == c
  {
  }

  /** Without the storages the round trip holds for every context. */
  lemma SerializationKeepsFields(c: Context)
    ensures var c' := DeserializeFromDict(SerializationDict(c));
            c'.(modelStorage := c.modelStorage, resourceStorage := c.resourceStorage) == c
    ensures c.modelStorage.None? ==> DeserializeFromDict(SerializationDict(c)).modelStorage.None?
    ensures c.resourceStorage.None? ==> DeserializeFromDict(SerializationDict(c)).resourceStorage.None?
  {
  }
}
