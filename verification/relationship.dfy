/** The helpers model classes use to declare foreign keys and relationships.
    What is modelled is the decision each helper makes about names and
    arguments: the keyword arguments it hands to the mapper's `relationship`,
    the backref it asks for, and the columns and secondary table it declares.
    The mapper, columns and tables themselves stay records; `pluralize` is a
    parameter. */
module Relationship {
  import opened Base

  /** A `back_populates` argument: omitted (`None`), a property name, the
      `NO_BACK_POP` sentinel, or `False`. The sentinel is compared by identity
      in the helpers; passing the constant is modelled as `NoBackPop`. */
  datatype BackPop = Unset | Named(name: string) | NoBackPop | Disabled

  /** A value in the keyword arguments handed to `relationship`.
      `ForeignKeysOf` stands for the deferred lookup of `column` on the class
      mapped to `table`; `MappedBy` for `attribute_mapped_collection(key)`. */
  datatype KwVal =
    | Str(s: string)
    | Bool(b: bool)
    | NoneVal
    | ForeignKeysOf(table: string, column: string)
    | MappedBy(key: string)
    | Secondary(association: SecondaryTable)

  /** An integer column. `references` is the target of its foreign key;
      `nullable` is absent when the mapper's default applies. */
  datatype Column = Column(name: Option<string>, references: string, onDelete: Option<string>, nullable: Option<bool>)

  /** The association table of a many-to-many relationship. */
  datatype SecondaryTable = SecondaryTable(name: string, first: Column, second: Column)

  datatype Backref = Backref(name: KwVal, uselist: bool)

  /** A declared relationship: the table whose class it targets (resolved
      lazily), the backref it creates, and its keyword arguments. */
  datatype Relation = Relation(target: string, backref: Option<Backref>, kwargs: map<string, KwVal>)

  /** A class in the declarative registry; some have no `__tablename__`. */
  datatype ModelClass = ModelClass(name: string, tablename: Option<string>)

  /** Python truthiness of an optional string argument. */
  predicate Truthy(s: Option<string>) {
    s.Some? && s.value != ""
  }

  /** `'{table}.id'`. */
  function Reference(table: string): string {
    table + ".id"
  }

  /** The table a reference points at. */
  function ReferencedTable(reference: string): Option<string> {
    if |reference| >= 3 && reference[|reference| - 3..] == ".id" then Some(reference[..|reference| - 3]) else None
  }

  lemma ReferenceRoundTrip(table: string)
    ensures ReferencedTable(Reference(table)) == Some(table)
  {
    var r := Reference(table);
    assert r[|r| - 3..] == ".id";
    assert r[..|r| - 3] == table;
  }

  /** `foreign_key`: an integer column referencing the other table's id,
      deleted with it, not nullable unless asked. */
  function ForeignKey(otherTable: string, nullable: Option<bool>): (c: Column)
    ensures ReferencedTable(c.references) == Some(otherTable)
    ensures c.name.None? && c.onDelete == Some("CASCADE")
    ensures c.nullable == Some(nullable.Some? && nullable.value)
  {
    ReferenceRoundTrip(otherTable);
    Column(None, Reference(otherTable), Some("CASCADE"), Some(nullable.GetOr(false)))
  }

  /** `dict.setdefault`. */
  function SetDefault(m: map<string, KwVal>, k: string, v: KwVal): (r: map<string, KwVal>)
    ensures k in r && r[k] == (if k in m then m[k] else v)
    ensures forall k' :: k' != k ==> (k' in r <==> k' in m)
    ensures forall k' :: k' in m ==> k' in r && r[k'] == m[k']
  {
    if k in m then m else m[k := v]
  }

  /** The value `back_populates` passes on. */
  function BackPopValue(b: BackPop): KwVal {
    match b
    case Unset => NoneVal
    case Named(n) => Str(n)
    case NoBackPop => Str("NO_BACK_POP")
    case Disabled => Bool(false)
  }

  /** The keys `_relationship` may add. */
  predicate Managed(k: string) {
    k == "foreign_keys" || k == "collection_class" || k == "back_populates"
  }

  /** The `foreign_keys` default: the own foreign key, else the other
      table's. */
  function WithForeignKeys(ownTable: string, otherTable: string, kwargs: map<string, KwVal>,
                           fk: Option<string>, otherFk: Option<string>): (r: map<string, KwVal>)
    ensures forall k :: k != "foreign_keys" ==> (k in r <==> k in kwargs)
    ensures forall k :: k in kwargs ==> k in r && r[k] == kwargs[k]
    ensures "foreign_keys" !in kwargs ==>
              && ("foreign_keys" in r <==> Truthy(fk) || Truthy(otherFk))
              && (Truthy(fk) ==> r["foreign_keys"] == ForeignKeysOf(ownTable, fk.value))
              && (!Truthy(fk) && Truthy(otherFk) ==> r["foreign_keys"] == ForeignKeysOf(otherTable, otherFk.value))
  {
    if Truthy(fk) then SetDefault(kwargs, "foreign_keys", ForeignKeysOf(ownTable, fk.value))
    else if Truthy(otherFk) then SetDefault(kwargs, "foreign_keys", ForeignKeysOf(otherTable, otherFk.value))
    else kwargs
  }

  /** The `collection_class` default, only with a dict key. */
  function WithCollection(kwargs: map<string, KwVal>, dictKey: Option<string>): (r: map<string, KwVal>)
    ensures forall k :: k != "collection_class" ==> (k in r <==> k in kwargs)
    ensures forall k :: k in kwargs ==> k in r && r[k] == kwargs[k]
    ensures "collection_class" in r <==> "collection_class" in kwargs || Truthy(dictKey)
    ensures "collection_class" !in kwargs && Truthy(dictKey) ==> r["collection_class"] == MappedBy(dictKey.value)
  {
    if Truthy(dictKey) then SetDefault(kwargs, "collection_class", MappedBy(dictKey.value)) else kwargs
  }

  /** `_relationship`. The own foreign key wins over the other table's; a
      collection class only with a dict key; a backref and `back_populates`
      exclude each other, and the sentinel leaves `back_populates` out. Keys
      the caller already set are kept, except `back_populates`, which is
      overwritten. */
  function Declare(ownTable: string, otherTable: string, backPopulates: BackPop, backref: Option<Backref>,
                   kwargs: map<string, KwVal>, fk: Option<string>, otherFk: Option<string>,
                   dictKey: Option<string>): (r: Result<Relation>)
    ensures r.Err? <==> backref.Some? && !backPopulates.Unset?
    ensures r.Ok? ==> r.value.target == otherTable && r.value.backref == backref
    ensures r.Ok? ==> forall k :: k in kwargs && !Managed(k) ==> k in r.value.kwargs && r.value.kwargs[k] == kwargs[k]
    ensures r.Ok? ==> forall k :: k in r.value.kwargs ==> k in kwargs || Managed(k)
    ensures r.Ok? && "foreign_keys" in kwargs ==>
              "foreign_keys" in r.value.kwargs && r.value.kwargs["foreign_keys"] == kwargs["foreign_keys"]
    ensures r.Ok? && "foreign_keys" !in kwargs ==>
              && ("foreign_keys" in r.value.kwargs <==> Truthy(fk) || Truthy(otherFk))
              && (Truthy(fk) ==> r.value.kwargs["foreign_keys"] == ForeignKeysOf(ownTable, fk.value))
              && (!Truthy(fk) && Truthy(otherFk) ==> r.value.kwargs["foreign_keys"] == ForeignKeysOf(otherTable, otherFk.value))
    ensures r.Ok? ==> ("collection_class" in r.value.kwargs <==> "collection_class" in kwargs || Truthy(dictKey))
    ensures r.Ok? && "collection_class" !in kwargs && Truthy(dictKey) ==>
              r.value.kwargs["collection_class"] == MappedBy(dictKey.value)
    ensures r.Ok? && backref.Some? ==>
              ("back_populates" in r.value.kwargs <==> "back_populates" in kwargs)
    ensures r.Ok? && backref.None? ==>
              ("back_populates" in r.value.kwargs <==> !backPopulates.NoBackPop? || "back_populates" in kwargs)
    ensures r.Ok? && backref.None? && !backPopulates.NoBackPop? ==>
              r.value.kwargs["back_populates"] == BackPopValue(backPopulates)
  {
    var k1 := WithForeignKeys(ownTable, otherTable, kwargs, fk, otherFk);
    var k2 := WithCollection(k1, dictKey);
    if backref.Some? then
      if !backPopulates.Unset? then Err("AssertionError")
      else Ok(Relation(otherTable, backref, k2))
    else if backPopulates.NoBackPop? then Ok(Relation(otherTable, None, k2))
    else Ok(Relation(otherTable, None, k2["back_populates" := BackPopValue(backPopulates)]))
  }

  /** `one_to_one_self`: joined on the class's id column, updated after the
      row itself. */
  function OneToOneSelf(className: string, ownTable: string, idColumn: string, fk: string): (r: Result<Relation>)
    ensures r.Ok? && r.value.target == ownTable && r.value.backref.None?
    ensures r.Ok? ==> var remote := className + "." + idColumn;
                      && ("remote_side" in r.value.kwargs && r.value.kwargs["remote_side"] == Str(remote))
                      && ("primaryjoin" in r.value.kwargs && r.value.kwargs["primaryjoin"] == Str(remote + " == " + className + "." + fk))
                      && ("post_update" in r.value.kwargs && r.value.kwargs["post_update"] == Bool(true))
                      && ("back_populates" in r.value.kwargs && r.value.kwargs["back_populates"] == NoneVal)
  {
    var remote := className + "." + idColumn;
    Declare(ownTable, ownTable, Unset, None,
            map["primaryjoin" := Str(remote + " == " + className + "." + fk), "remote_side" := Str(remote),
                "post_update" := Bool(true)],
            None, None, None)
  }

  /** `one_to_many_self`: `back_populates=False` is passed on as `False`. */
  function OneToManySelf(className: string, ownTable: string, fk: string, dictKey: Option<string>): (r: Result<Relation>)
    ensures r.Ok? && r.value.target == ownTable && r.value.backref.None?
    ensures r.Ok? ==> ("remote_side" in r.value.kwargs && r.value.kwargs["remote_side"] == Str(className + "." + fk))
                      && ("back_populates" in r.value.kwargs && r.value.kwargs["back_populates"] == Bool(false))
                      && ("collection_class" in r.value.kwargs <==> Truthy(dictKey))
  {
    Declare(ownTable, ownTable, Disabled, None, map["remote_side" := Str(className + "." + fk)], None, None, dictKey)
  }

  /** `one_to_one`: unless the sentinel is given, the other side gets a
      scalar backref named by `back_populates` or else by the own table, and
      `back_populates` itself is dropped; so the declaration never trips the
      backref assertion. */
  function OneToOne(ownTable: string, otherTable: string, fk: Option<string>, otherFk: Option<string>,
                    backPopulates: BackPop): (r: Result<Relation>)
    ensures r.Ok?
    ensures backPopulates.NoBackPop? ==> r.value.backref.None? && "back_populates" !in r.value.kwargs
    ensures !backPopulates.NoBackPop? ==>
              && r.value.backref.Some? && !r.value.backref.value.uselist
              && "back_populates" !in r.value.kwargs
              && r.value.backref.value.name == (if backPopulates.Unset? then Str(ownTable) else BackPopValue(backPopulates))
  {
    if backPopulates.NoBackPop? then Declare(ownTable, otherTable, NoBackPop, None, map[], fk, otherFk, None)
    else
      var name := if backPopulates.Unset? then Str(ownTable) else BackPopValue(backPopulates);
      Declare(ownTable, otherTable, Unset, Some(Backref(name, false)), map[], fk, otherFk, None)
  }

  /** `one_to_many`: cascade defaults to `all` and `back_populates` to the
      own table; the foreign key is the child's. */
  function OneToMany(ownTable: string, childTable: string, childFk: Option<string>, dictKey: Option<string>,
                     backPopulates: BackPop, relKwargs: map<string, KwVal>): (r: Result<Relation>)
    ensures r.Ok? && r.value.target == childTable && r.value.backref.None?
    ensures ("cascade" in r.value.kwargs && r.value.kwargs["cascade"] == (if "cascade" in relKwargs then relKwargs["cascade"] else Str("all")))
    ensures backPopulates.Unset? ==> ("back_populates" in r.value.kwargs && r.value.kwargs["back_populates"] == Str(ownTable))
    ensures "foreign_keys" !in relKwargs && Truthy(childFk) ==>
              ("foreign_keys" in r.value.kwargs && r.value.kwargs["foreign_keys"] == ForeignKeysOf(childTable, childFk.value))
  {
    var kwargs := SetDefault(relKwargs, "cascade", Str("all"));
    var bp := if backPopulates.Unset? then Named(ownTable) else backPopulates;
    Declare(ownTable, childTable, bp, None, kwargs, None, childFk, dictKey)
  }

  /** `many_to_one`: `back_populates` defaults to the plural of the own
      table. */
  function ManyToOne(ownTable: string, parentTable: string, fk: Option<string>, parentFk: Option<string>,
                     backPopulates: BackPop, pluralize: string -> string): (r: Result<Relation>)
    ensures r.Ok? && r.value.target == parentTable && r.value.backref.None?
    ensures backPopulates.Unset? ==> ("back_populates" in r.value.kwargs && r.value.kwargs["back_populates"] == Str(pluralize(ownTable)))
    ensures Truthy(fk) ==> ("foreign_keys" in r.value.kwargs && r.value.kwargs["foreign_keys"] == ForeignKeysOf(ownTable, fk.value))
    ensures !Truthy(fk) && Truthy(parentFk) ==> ("foreign_keys" in r.value.kwargs && r.value.kwargs["foreign_keys"] == ForeignKeysOf(parentTable, parentFk.value))
  {
    var bp := if backPopulates.Unset? then Named(pluralize(ownTable)) else backPopulates;
    Declare(ownTable, parentTable, bp, None, map[], fk, parentFk, None)
  }

  /** `'{0}_{1}'`. */
  function Underscored(a: string, b: string): string {
    a + "_" + b
  }

  /** The association table's name. */
  function SecondaryName(ownTable: string, otherTable: string, prefix: Option<string>): string {
    var name := Underscored(ownTable, otherTable);
    if prefix.Some? then Underscored(prefix.value, name) else name
  }

  /** The property the other side gets: the given one, or with a prefix the
      prefixed plural of the own table. */
  function OtherProperty(ownTable: string, prefix: Option<string>, otherProperty: Option<string>,
                         pluralize: string -> string): Option<string> {
    if prefix.Some? && otherProperty.None? then Some(Underscored(prefix.value, pluralize(ownTable)))
    else otherProperty
  }

  /** `_get_secondary_table`: two columns, each referencing one side's id. */
  function SecondaryTableFor(ownTable: string, otherTable: string, name: string): (t: SecondaryTable)
    ensures t.name == name
    ensures ReferencedTable(t.first.references) == Some(ownTable)
    ensures ReferencedTable(t.second.references) == Some(otherTable)
    ensures t.first.name == Some(ownTable + "_id") && t.second.name == Some(otherTable + "_id")
  {
    ReferenceRoundTrip(ownTable);
    ReferenceRoundTrip(otherTable);
    SecondaryTable(name, Column(Some(ownTable + "_id"), Reference(ownTable), None, None),
                   Column(Some(otherTable + "_id"), Reference(otherTable), None, None))
  }

  /** `many_to_many`. A backref, always a list, exists exactly when the
      other-side property is truthy; without one, `back_populates=None` is
      passed on. */
  function ManyToMany(ownTable: string, otherTable: string, prefix: Option<string>, dictKey: Option<string>,
                      otherProperty: Option<string>, pluralize: string -> string): (r: Result<Relation>)
    ensures r.Ok? && r.value.target == otherTable
    ensures var prop := OtherProperty(ownTable, prefix, otherProperty, pluralize);
            && (r.value.backref.Some? <==> Truthy(prop))
            && (Truthy(prop) ==> r.value.backref == Some(Backref(Str(prop.value), true))
                                 && "back_populates" !in r.value.kwargs)
            && (!Truthy(prop) ==> ("back_populates" in r.value.kwargs && r.value.kwargs["back_populates"] == NoneVal))
    ensures ("secondary" in r.value.kwargs && r.value.kwargs["secondary"] == Secondary(SecondaryTableFor(ownTable, otherTable,
                                                       SecondaryName(ownTable, otherTable, prefix))))
    ensures "collection_class" in r.value.kwargs <==> Truthy(dictKey)
  {
    var name := SecondaryName(ownTable, otherTable, prefix);
    var prop := OtherProperty(ownTable, prefix, otherProperty, pluralize);
    var backref := if Truthy(prop) then Some(Backref(Str(prop.value), true)) else None;
    Declare(ownTable, otherTable, Unset, backref, map["secondary" := Secondary(SecondaryTableFor(ownTable, otherTable, name))],
            None, None, dictKey)
  }

  /** A prefix only prepends itself to the association table's name, and a
      prefix without an explicit property always yields a backref. */
  lemma ManyToManyPrefix(ownTable: string, otherTable: string, p: string, dictKey: Option<string>,
                         pluralize: string -> string)
    ensures SecondaryName(ownTable, otherTable, Some(p)) == p + "_" + SecondaryName(ownTable, otherTable, None)
    ensures ManyToMany(ownTable, otherTable, Some(p), dictKey, None, pluralize).value.backref
            == Some(Backref(Str(p + "_" + pluralize(ownTable)), true))
  {
    assert Truthy(Some(Underscored(p, pluralize(ownTable))));
  }

  /** The first registry class mapped to `tablename`. */
  function FindTable(registry: seq<ModelClass>, tablename: string): (r: Option<nat>)
    ensures r.Some? ==> r.value < |registry| && registry[r.value].tablename == Some(tablename)
    ensures r.Some? ==> forall i :: 0 <= i < r.value ==> registry[i].tablename != Some(tablename)
    ensures r.None? ==> forall i :: 0 <= i < |registry| ==> registry[i].tablename != Some(tablename)
    decreases |registry|
  {
    if |registry| == 0 then None
    else if registry[0].tablename == Some(tablename) then Some(0)
    else
      match FindTable(registry[1..], tablename)
      case None => None
      case Some(k) => Some(k + 1)
  }

  /** `_get_class_for_table`: the declaring class, by class name or table
      name; else the first registry class with that table; else an error. */
  function ClassForTable(model: ModelClass, registry: seq<ModelClass>, tablename: string): (r: Result<ModelClass>)
    requires model.tablename.Some?
    ensures r.Err? ==> r == Err("unknown table: " + tablename)
    ensures r.Ok? <==> tablename == model.name || model.tablename == Some(tablename)
                       || exists i :: 0 <= i < |registry| && registry[i].tablename == Some(tablename)
    ensures r.Ok? ==> r.value == model || r.value.tablename == Some(tablename)
    ensures r.Ok? && tablename != model.name && model.tablename != Some(tablename) ==>
              exists i :: 0 <= i < |registry| && registry[i] == r.value
                          && forall j :: 0 <= j < i ==> registry[j].tablename != Some(tablename)
  {
    if tablename == model.name || model.tablename == Some(tablename) then Ok(model)
    else
      match FindTable(registry, tablename)
      case Some(i) => Ok(registry[i])
      case None => Err("unknown table: " + tablename)
  }

  /** A relationship declared on a class and pointing at its own table
      resolves to that class, whatever the registry holds. */
  lemma SelfRelationResolves(model: ModelClass, registry: seq<ModelClass>, idColumn: string, fk: string)
    requires model.tablename.Some?
    ensures var rel := OneToOneSelf(model.name, model.tablename.value, idColumn, fk).value;
            ClassForTable(model, registry, rel.target) == Ok(model)
  {
  }
}
