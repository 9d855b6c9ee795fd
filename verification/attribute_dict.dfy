/** The mutable-mapping view an operation context gives over an actor's
    attributes. The actor's attributes map names to stored parameters; a view
    either sits at the top or follows a path of keys into a parameter whose
    value is a dict. Writes go through the parameter storage: a new top-level
    key is wrapped and `put`, anything else is changed in place and `update`d.
    Parameter objects are not subscriptable (their class is not part of this
    model), so a path only reaches one level below a parameter. */
module AttributeDict {
  import opened Base
  import opened Dicts

  /** A Python value as the view sees it: a plain value, a dict, or a stored
      parameter with its name and value. */
  datatype Val = Atom(text: string) | DictV(entries: seq<(string, Val)>) | Param(name: string, value: Val)

  /** The calls made on the parameter storage. */
  datatype StorageCall = PutCall(name: string) | UpdateCall(name: string)

  /** A `_Dict`: the actor's attributes and the view's path into them. */
  datatype View = View(attributes: Dict<string, Val>, nested: seq<string>)

  function KeyError(k: string): string {
    "KeyError: " + k
  }

  const NotSubscriptable: string := "TypeError: object is not subscriptable"

  /** `parameter.value` for a parameter, the value itself otherwise. */
  function Unwrap(v: Val): (r: Val)
    ensures v.Param? ==> r == v.value
    ensures !v.Param? ==> r == v
  {
    if v.Param? then v.value else v
  }

  /** `current = current[k]` for each key of a path. */
  function Walk(current: Val, path: seq<string>): (r: Result<Val>)
    ensures |path| > 0 && !current.DictV? ==> r == Err(NotSubscriptable)
    decreases |path|
  {
    if |path| == 0 then Ok(current)
    else
      match current
      case DictV(entries) =>
        (match Lookup(entries, path[0])
         case None => Err(KeyError(path[0]))
         case Some(v) => Walk(v, path[1..]))
      case _ => Err(NotSubscriptable)
  }

  /** `_nested_value`: the path followed from the attributes, with a final
      parameter unwrapped. */
  function NestedValue(v: View): (r: Result<Val>)
    ensures |v.nested| == 0 ==> r == Ok(DictV(v.attributes))
    ensures |v.nested| == 1 ==>
              r == (match Lookup(v.attributes, v.nested[0])
                    case None => Err(KeyError(v.nested[0]))
                    case Some(p) => Ok(Unwrap(p)))
  {
    assert |v.nested| == 1 ==>
             Walk(DictV(v.attributes), v.nested)
             == (match Lookup(v.attributes, v.nested[0])
                 case None => Err(KeyError(v.nested[0]))
                 case Some(p) => Walk(p, v.nested[1..]));
    assert |v.nested| == 1 ==> v.nested[1..] == [];
    var walked :- Walk(DictV(v.attributes), v.nested);
    Ok(Unwrap(walked))
  }

  /** The entries of the view's dict. */
  function Entries(v: View): Result<seq<(string, Val)>> {
    var nv :- NestedValue(v);
    if nv.DictV? then Ok(nv.entries) else Err(NotSubscriptable)
  }

  /** What `view[item]` returns: a deeper view for a dict, otherwise the value
      with a parameter unwrapped. */
  datatype Got = GotView(view: View) | GotValue(value: Val)

  /** `__getitem__`. At the top the attribute is a parameter and its value is
      taken; below, the key is looked up in the nested dict. */
  function GetItem(v: View, item: string): (r: Result<Got>)
    ensures r.Ok? && r.value.GotView? ==> r.value.view == View(v.attributes, v.nested + [item])
  {
    var value :-
      if |v.nested| > 0 then
        var entries :- Entries(v);
        (match Lookup(entries, item)
         case None => Err(KeyError(item))
         case Some(x) => Ok(x))
      else
        (match Lookup(v.attributes, item)
         case None => Err(KeyError(item))
         case Some(p) => if p.Param? then Ok(p.value) else Err("AttributeError: 'value'"));
    if value.DictV? then Ok(GotView(View(v.attributes, v.nested + [item])))
    else Ok(GotValue(Unwrap(value)))
  }

  /** `_update_attr`: the attribute the write lands in, changed in place. At
      the top the parameter's value is replaced; one level down the key is set
      in the parameter's dict value. Anything else raises. */
  function UpdateAttr(attributes: Dict<string, Val>, nested: seq<string>, key: string, value: Val)
    : (r: Result<(Dict<string, Val>, string)>)
    ensures r.Ok? ==> Keys(r.value.0) == Keys(attributes)
    ensures r.Ok? && |nested| == 0 ==>
              var p := Lookup(attributes, key);
              p.Some? && p.value.Param? && r.value == (Put(attributes, key, Param(p.value.name, value)), p.value.name)
    ensures r.Ok? ==> |nested| <= 1
  {
    if |nested| == 0 then
      var found: Option<Val> := Lookup(attributes, key);
      if found.Some? && found.value.Param? then
        var n := found.value.name;
        LookupPutKeys(attributes, key, Param(n, value));
        Ok((Put(attributes, key, Param(n, value)), n))
      else Err("BaseException")
    else if |nested| > 1 then
      Err(NotSubscriptable)
    else
      var found: Option<Val> := Lookup(attributes, nested[0]);
      if found.None? then Err(KeyError(nested[0]))
      else if !found.value.Param? then Err("AttributeError: 'value'")
      else if !found.value.value.DictV? then Err("TypeError: object does not support item assignment")
      else
        var n := found.value.name;
        var e := found.value.value.entries;
        LookupPutKeys(attributes, nested[0], Param(n, DictV(Put(e, key, value))));
        Ok((Put(attributes, nested[0], Param(n, DictV(Put(e, key, value)))), n))
  }

  /** Assigning a present key keeps the key sequence. */
  lemma LookupPutKeys<V>(d: Dict<string, V>, k: string, v: V)
    requires Lookup(d, k).Some?
    ensures Keys(Put(d, k, v)) == Keys(d)
  {
  }

  /** `__setitem__`: a new top-level key is wrapped into a parameter and
      `put`; an existing or nested key is updated in place and `update`d. */
  function SetItem(v: View, key: string, value: Val): (r: Result<(View, StorageCall)>)
    ensures r.Ok? ==> r.value.0.nested == v.nested
    ensures |v.nested| == 0 && !HasKey(v.attributes, key) ==>
              r == Ok((View(v.attributes + [(key, Param(key, value))], v.nested), PutCall(key)))
    ensures |v.nested| == 0 && HasKey(v.attributes, key) && r.Ok? ==>
              r.value.1.UpdateCall? && |r.value.0.attributes| == |v.attributes|
    ensures |v.nested| > 0 && r.Ok? ==> r.value.1.UpdateCall?
  {
    if |v.nested| > 0 || HasKey(v.attributes, key) then
      var updated :- UpdateAttr(v.attributes, v.nested, key, value);
      Ok((View(updated.0, v.nested), UpdateCall(updated.1)))
    else
      Ok((View(Put(v.attributes, key, Param(key, value)), v.nested), PutCall(key)))
  }

  /** A top-level write is read back: a plain value as itself, a dict as a view
      one level down. */
  lemma SetThenGet(v: View, key: string, value: Val)
    requires |v.nested| == 0 && !value.Param?
    requires SetItem(v, key, value).Ok?
    ensures var v' := SetItem(v, key, value).value.0;
            GetItem(v', key) == if value.DictV? then Ok(GotView(View(v'.attributes, [key]))) else Ok(GotValue(value))
  {
    var r := SetItem(v, key, value).value.0;
    if HasKey(v.attributes, key) {
      var n := Lookup(v.attributes, key).value.name;
      LookupPut(v.attributes, key, Param(n, value), key);
    } else {
      LookupPut(v.attributes, key, Param(key, value), key);
    }
    assert [] + [key] == [key];
  }

  /** A top-level write leaves every other attribute as it was. */
  lemma SetKeepsOthers(v: View, key: string, value: Val, other: string)
    requires |v.nested| == 0 && other != key
    requires SetItem(v, key, value).Ok?
    ensures Lookup(SetItem(v, key, value).value.0.attributes, other) == Lookup(v.attributes, other)
  {
    if HasKey(v.attributes, key) {
      var n := Lookup(v.attributes, key).value.name;
      LookupPut(v.attributes, key, Param(n, value), other);
    } else {
      LookupPut(v.attributes, key, Param(key, value), other);
    }
  }

  /** A write one level down sets the key in the parameter's dict and is read
      back through the same view. */
  lemma NestedSetThenGet(v: View, key: string, value: Val)
    requires |v.nested| == 1 && !value.Param? && !value.DictV?
    requires SetItem(v, key, value).Ok?
    ensures GetItem(SetItem(v, key, value).value.0, key) == Ok(GotValue(value))
  {
    var a := v.nested[0];
    var p := Lookup(v.attributes, a).value;
    var n := p.name;
    var e := p.value.entries;
    var p' := Param(n, DictV(Put(e, key, value)));
    var v' := SetItem(v, key, value).value.0;
    assert v'.attributes == Put(v.attributes, a, p');
    LookupPut(v.attributes, a, p', a);
    LookupPut(e, key, value, key);
    assert Entries(v') == Ok(Put(e, key, value));
  }

  /** `__contains__`: a scan of `keys()`. */
  method Contains(v: View, item: string) returns (r: Result<bool>)
    ensures r.Ok? <==> Entries(v).Ok?
    ensures r.Ok? ==> (r.value <==> HasKey(Entries(v).value, item))
  {
    var entries := Entries(v);
    if entries.Err? {
      return Err(entries.msg);
    }
    var ks := Keys(entries.value);
    var i := 0;
    while i < |ks|
      invariant 0 <= i <= |ks|
      invariant forall j :: 0 <= j < i ==> ks[j] != item
    {
      if item == ks[i] {
        return Ok(true);
      }
      i := i + 1;
    }
    return Ok(false);
  }

  /** `__len__`. */
  function Len(v: View): (r: Result<nat>)
    ensures r.Ok? <==> Entries(v).Ok?
    ensures r.Ok? ==> r.value == |Keys(Entries(v).value)|
  {
    var entries :- Entries(v);
    Ok(|entries|)
  }

  /** `copy()`: a plain dict of the items, parameters unwrapped. */
  function CopyEntries(entries: seq<(string, Val)>): (r: seq<(string, Val)>)
    ensures Keys(r) == Keys(entries)
    ensures forall i :: 0 <= i < |entries| ==> r[i].1 == Unwrap(entries[i].1)
  {
    if |entries| == 0 then []
    else [(entries[0].0, Unwrap(entries[0].1))] + CopyEntries(entries[1..])
  }

  function Copy(v: View): Result<seq<(string, Val)>> {
    var entries :- Entries(v);
    Ok(CopyEntries(entries))
  }

  /** Applies `self[key] = value` for each pair in order, collecting the
      storage calls. */
  function SetAll(v: View, pairs: seq<(string, Val)>): (r: Result<(View, seq<StorageCall>)>)
    ensures r.Ok? ==> |r.value.1| == |pairs| && r.value.0.nested == v.nested
    decreases |pairs|
  {
    if |pairs| == 0 then Ok((v, []))
    else
      var first :- SetItem(v, pairs[0].0, pairs[0].1);
      var rest :- SetAll(first.0, pairs[1..]);
      Ok((rest.0, [first.1] + rest.1))
  }

  /** `update(dict_, **kwargs)`: the dict's pairs first (if it is non-empty),
      then the keyword arguments. */
  function Update(v: View, dict: seq<(string, Val)>, kwargs: seq<(string, Val)>): (r: Result<(View, seq<StorageCall>)>)
    ensures r.Ok? ==> |r.value.1| == |dict| + |kwargs|
  {
    var first :- SetAll(v, dict);
    var second :- SetAll(first.0, kwargs);
    Ok((second.0, first.1 + second.1))
  }

  /** The value the last pair with key `k` assigns. */
  function LastValue(pairs: seq<(string, Val)>, k: string): Option<Val>
    decreases |pairs|
  {
    if |pairs| == 0 then None
    else
      var later := LastValue(pairs[1..], k);
      if later.Some? then later else if pairs[0].0 == k then Some(pairs[0].1) else None
  }

  /** After a top-level run of writes, each key written holds the value of its
      last write. */
  lemma {:induction false} SetAllLastWriteWins(v: View, pairs: seq<(string, Val)>, k: string)
    requires |v.nested| == 0
    requires SetAll(v, pairs).Ok?
    requires LastValue(pairs, k).Some?
    ensures var r := Lookup(SetAll(v, pairs).value.0.attributes, k);
            r.Some? && r.value.Param? && r.value.value == LastValue(pairs, k).value
    decreases |pairs|
  {
    var first := SetItem(v, pairs[0].0, pairs[0].1).value;
    if LastValue(pairs[1..], k).Some? {
      SetAllLastWriteWins(first.0, pairs[1..], k);
    } else {
      assert pairs[0].0 == k;
      SetWrites(v, k, pairs[0].1);
      SetAllKeeps(first.0, pairs[1..], k);
    }
  }

  /** A top-level write stores a parameter holding the value. */
  lemma SetWrites(v: View, key: string, value: Val)
    requires |v.nested| == 0
    requires SetItem(v, key, value).Ok?
    ensures var r := Lookup(SetItem(v, key, value).value.0.attributes, key);
            r.Some? && r.value.Param? && r.value.value == value
  {
    if HasKey(v.attributes, key) {
      var n := Lookup(v.attributes, key).value.name;
      LookupPut(v.attributes, key, Param(n, value), key);
    } else {
      LookupPut(v.attributes, key, Param(key, value), key);
    }
  }

  /** Writes to other keys leave a key's value alone. */
  lemma {:induction false} SetAllKeeps(v: View, pairs: seq<(string, Val)>, k: string)
    requires |v.nested| == 0
    requires SetAll(v, pairs).Ok?
    requires LastValue(pairs, k).None?
    ensures Lookup(SetAll(v, pairs).value.0.attributes, k) == Lookup(v.attributes, k)
    decreases |pairs|
  {
    if |pairs| > 0 {
      var first := SetItem(v, pairs[0].0, pairs[0].1).value;
      SetKeepsOthers(v, pairs[0].0, pairs[0].1, k);
      SetAllKeeps(first.0, pairs[1..], k);
    }
  }

  /** In `update`, a keyword argument wins over the dict's pair for the same
      key. */
  lemma UpdateKeywordWins(v: View, dict: seq<(string, Val)>, kwargs: seq<(string, Val)>, k: string)
    requires |v.nested| == 0
    requires Update(v, dict, kwargs).Ok?
    requires LastValue(kwargs, k).Some?
    ensures var r := Lookup(Update(v, dict, kwargs).value.0.attributes, k);
            r.Some? && r.value.Param? && r.value.value == LastValue(kwargs, k).value
  {
    var first := SetAll(v, dict).value;
    SetAllLastWriteWins(first.0, kwargs, k);
  }
}
