/**
 * Model metadata: the record built once from a model builder, holding the
 * fields in declaration order, a name-to-field index, the primary field, the
 * indexed fields and the derived key lists. Field references are positions in
 * `fieldsVec` (the source keeps raw pointers into that vector).
 */
module Models {
  import opened Wrappers
  import opened Seqs

  datatype FieldIndex = NoIndex | Index | Unique
  datatype WriteRule = Write | NoWrite | WriteOnce | WriteOnCreate | WriteNonNull
  datatype ReadRule = Read | NoRead
  datatype Store = Embedded | LocalKeys | ForeignKeys | Calculated | Temp

  /** A field as the builder declares it; `column` is its storage column name. */
  datatype Field = Field(
    name: string,
    column: string,
    primary: bool,
    index: FieldIndex,
    writeRule: WriteRule,
    readRule: ReadRule,
    store: Store)

  datatype ActionType =
    | FindUnique | FindFirst | FindMany | Create | Update | Upsert | Delete
    | CreateMany | UpdateMany | DeleteMany | Count | Aggregate | GroupBy
    | SignIn | Identity

  datatype ModelBuilder = ModelBuilder(
    name: string,
    tableName: string,
    urlSegmentName: string,
    localizedName: string,
    description: string,
    identity: bool,
    actions: set<ActionType>,
    fields: seq<Field>)

  datatype Model = Model(
    name: string,
    tableName: string,
    urlSegmentName: string,
    localizedName: string,
    description: string,
    identity: bool,
    actions: set<ActionType>,
    fieldsVec: seq<Field>,
    fieldsMap: map<string, nat>,
    primaryField: Option<nat>,
    indexFields: seq<nat>,
    inputKeys: seq<string>,
    saveKeys: seq<string>,
    outputKeys: seq<string>,
    getValueKeys: seq<string>)

  /** The casing and pluralisation helpers the name defaults use; they are given, not modelled. */
  datatype Inflector = Inflector(lowercasePlural: string -> string, kebabCasePlural: string -> string)

  // ---------------------------------------------------------------------------
  // Field rules

  predicate Writable(f: Field) { f.writeRule != NoWrite }
  predicate Saved(f: Field) { f.store != Calculated && f.store != Temp }
  predicate Readable(f: Field) { f.readRule != NoRead }
  predicate Indexed(f: Field) { f.index != NoIndex }
  predicate IsPrimary(f: Field) { f.primary }

  function Names(fs: seq<Field>): (r: seq<string>)
    ensures |r| == |fs| && forall i :: 0 <= i < |fs| ==> r[i] == fs[i].name
  {
    seq(|fs|, i requires 0 <= i < |fs| => fs[i].name)
  }

  /** The last of a list of positions, if any. */
  function LastOf(pos: seq<nat>): (r: Option<nat>)
    ensures r.None? <==> pos == []
    ensures r.Some? ==> r.value == pos[|pos| - 1]
  {
    if pos == [] then None else Some(pos[|pos| - 1])
  }

  /** The names of the fields satisfying `p`, in declaration order (a filter-map chain). */
  function NamesWhere(fs: seq<Field>, p: Field -> bool): (r: seq<string>)
    ensures r == Pick(Names(fs), Positions(Map(fs, p)))
  {
    if fs == [] then []
    else
      var init := fs[..|fs| - 1];
      var last := fs[|fs| - 1];
      var pos := Positions(Map(init, p));
      assert Map(fs, p) == Map(init, p) + [p(last)];
      PositionsSnoc(Map(init, p), p(last));
      assert Names(init) == Names(fs)[..|fs| - 1];
      PickPrefix(Names(fs), pos, |fs| - 1);
      if p(last) then
        PickSnoc(Names(fs), pos, |fs| - 1);
        NamesWhere(init, p) + [last.name]
      else NamesWhere(init, p)
  }

  /** The picked names are exactly the names of fields satisfying `p`. */
  lemma NamesWhereMembership(fs: seq<Field>, p: Field -> bool, x: string)
    ensures x in NamesWhere(fs, p) <==> exists i :: 0 <= i < |fs| && fs[i].name == x && p(fs[i])
  {
    var mask := Map(fs, p);
    var pos := Positions(mask);
    var r := NamesWhere(fs, p);
    if x in r {
      var j :| 0 <= j < |r| && r[j] == x;
      assert fs[pos[j]].name == x && mask[pos[j]];
    }
    if i :| 0 <= i < |fs| && fs[i].name == x && p(fs[i]) {
      PositionsMembership(mask, i);
      var j :| 0 <= j < |pos| && pos[j] == i;
      assert r[j] == x;
    }
  }

  // ---------------------------------------------------------------------------
  // Derived key lists

  /** `allowed_input_keys`: names of the fields whose write rule is not `NoWrite`, in order. */
  function AllowedInputKeys(fs: seq<Field>): (r: seq<string>)
    ensures r == Pick(Names(fs), Positions(Map(fs, Writable)))
    ensures forall x :: x in r <==> exists i :: 0 <= i < |fs| && fs[i].name == x && Writable(fs[i])
  {
    forall x ensures x in NamesWhere(fs, Writable) <==> exists i :: 0 <= i < |fs| && fs[i].name == x && Writable(fs[i]) {
      NamesWhereMembership(fs, Writable, x);
    }
    NamesWhere(fs, Writable)
  }

  /** `allowed_save_keys`: names of the fields stored neither as `Calculated` nor as `Temp`, in order. */
  function AllowedSaveKeys(fs: seq<Field>): (r: seq<string>)
    ensures r == Pick(Names(fs), Positions(Map(fs, Saved)))
    ensures forall x :: x in r <==> exists i :: 0 <= i < |fs| && fs[i].name == x && Saved(fs[i])
  {
    forall x ensures x in NamesWhere(fs, Saved) <==> exists i :: 0 <= i < |fs| && fs[i].name == x && Saved(fs[i]) {
      NamesWhereMembership(fs, Saved, x);
    }
    NamesWhere(fs, Saved)
  }

  /** `allowed_output_keys`: names of the fields whose read rule is not `NoRead`, in order. */
  function AllowedOutputKeys(fs: seq<Field>): (r: seq<string>)
    ensures r == Pick(Names(fs), Positions(Map(fs, Readable)))
    ensures forall x :: x in r <==> exists i :: 0 <= i < |fs| && fs[i].name == x && Readable(fs[i])
  {
    forall x ensures x in NamesWhere(fs, Readable) <==> exists i :: 0 <= i < |fs| && fs[i].name == x && Readable(fs[i]) {
      NamesWhereMembership(fs, Readable, x);
    }
    NamesWhere(fs, Readable)
  }

  /** `get_get_value_keys`: every field name, in order. */
  function GetValueKeys(fs: seq<Field>): (r: seq<string>)
    ensures |r| == |fs| && forall i :: 0 <= i < |fs| ==> r[i] == fs[i].name
  {
    if fs == [] then [] else [fs[0].name] + GetValueKeys(fs[1..])
  }

  /** The builder's name, or the default derived from the model name when it is empty. */
  function NameOrDefault(given: string, default: string): (r: string)
    ensures given != "" ==> r == given
    ensures given == "" ==> r == default
  {
    if given == "" then default else given
  }

  // ---------------------------------------------------------------------------
  // The model record

  /** What a model built by `New` satisfies: the lookups agree with `fieldsVec`. */
  ghost predicate Valid(m: Model)
  {
    && (forall n :: n in m.fieldsMap ==> m.fieldsMap[n] < |m.fieldsVec| && m.fieldsVec[m.fieldsMap[n]].name == n)
    && (forall i :: 0 <= i < |m.fieldsVec| ==> m.fieldsVec[i].name in m.fieldsMap && m.fieldsMap[m.fieldsVec[i].name] >= i)
    && m.primaryField == LastOf(Positions(Map(m.fieldsVec, IsPrimary)))
    && m.indexFields == Positions(Map(m.fieldsVec, Indexed))
  }

  /** The last selected position: none exactly when nothing is selected. */
  lemma LastPosition(mask: seq<bool>)
    ensures LastOf(Positions(mask)).None? <==> forall i :: 0 <= i < |mask| ==> !mask[i]
    ensures LastOf(Positions(mask)).Some? ==>
      var i := LastOf(Positions(mask)).value;
      i < |mask| && mask[i] && forall j :: i < j < |mask| ==> !mask[j]
  {
    var pos := Positions(mask);
    forall i | 0 <= i < |mask| && mask[i] ensures i in pos {
      PositionsMembership(mask, i);
    }
    if pos != [] {
      var last := pos[|pos| - 1];
      assert forall t :: 0 <= t < |pos| ==> pos[t] <= last;
    }
  }

  /** The name index covers the first `i` fields, a later field of a name replacing an earlier one. */
  ghost predicate IndexesPrefix(fieldsVec: seq<Field>, fieldsMap: map<string, nat>, i: nat)
    requires i <= |fieldsVec|
  {
    && (forall n :: n in fieldsMap ==> fieldsMap[n] < i && fieldsVec[fieldsMap[n]].name == n)
    && (forall j :: 0 <= j < i ==> fieldsVec[j].name in fieldsMap && fieldsMap[fieldsVec[j].name] >= j)
  }

  lemma IndexesPrefixStep(fieldsVec: seq<Field>, fieldsMap: map<string, nat>, i: nat)
    requires i < |fieldsVec| && IndexesPrefix(fieldsVec, fieldsMap, i)
    ensures IndexesPrefix(fieldsVec, fieldsMap[fieldsVec[i].name := i], i + 1)
  {
  }

  /** What the loop of `Model::new` has built after the first `i` fields. */
  ghost predicate IndexedPrefix(fieldsVec: seq<Field>, i: nat, fieldsMap: map<string, nat>, primaryField: Option<nat>, indexFields: seq<nat>)
  {
    && i <= |fieldsVec|
    && IndexesPrefix(fieldsVec, fieldsMap, i)
    && primaryField == LastOf(Positions(Map(fieldsVec, IsPrimary)[..i]))
    && indexFields == Positions(Map(fieldsVec, Indexed)[..i])
  }

  /** One turn of the loop of `Model::new`: field `i` enters the name index and, if it qualifies, the primary and index lists. */
  method IndexField(fieldsVec: seq<Field>, i: nat, fieldsMap: map<string, nat>, primaryField: Option<nat>, indexFields: seq<nat>)
    returns (fieldsMap': map<string, nat>, primaryField': Option<nat>, indexFields': seq<nat>)
    requires i < |fieldsVec| && IndexedPrefix(fieldsVec, i, fieldsMap, primaryField, indexFields)
    ensures IndexedPrefix(fieldsVec, i + 1, fieldsMap', primaryField', indexFields')
  {
    ghost var primaryMask := Map(fieldsVec, IsPrimary);
    ghost var indexMask := Map(fieldsVec, Indexed);
    var field := fieldsVec[i];
    IndexesPrefixStep(fieldsVec, fieldsMap, i);
    fieldsMap' := fieldsMap[field.name := i];
    PositionsPrefixStep(primaryMask, i);
    PositionsPrefixStep(indexMask, i);
    assert primaryMask[i] == field.primary && indexMask[i] == (field.index != NoIndex);
    primaryField' := primaryField;
    if field.primary {
      primaryField' := Some(i);
    }
    indexFields' := indexFields;
    if field.index != NoIndex {
      indexFields' := indexFields + [i];
    }
  }

  /**
   * The loop of `Model::new` over the fields: the name index (a later field
   * of the same name replaces an earlier one), the last primary field and
   * the indexed fields in order.
   */
  method IndexFieldsVec(fieldsVec: seq<Field>) returns (fieldsMap: map<string, nat>, primaryField: Option<nat>, indexFields: seq<nat>)
    ensures forall n :: n in fieldsMap ==> fieldsMap[n] < |fieldsVec| && fieldsVec[fieldsMap[n]].name == n
    ensures forall j :: 0 <= j < |fieldsVec| ==> fieldsVec[j].name in fieldsMap && fieldsMap[fieldsVec[j].name] >= j
    ensures primaryField == LastOf(Positions(Map(fieldsVec, IsPrimary)))
    ensures indexFields == Positions(Map(fieldsVec, Indexed))
  {
    fieldsMap := map[];
    primaryField := None;
    indexFields := [];
    PositionsBounds(Map(fieldsVec, IsPrimary));
    PositionsBounds(Map(fieldsVec, Indexed));
    var i := 0;
    while i < |fieldsVec|
      invariant IndexedPrefix(fieldsVec, i, fieldsMap, primaryField, indexFields)
    {
      fieldsMap, primaryField, indexFields := IndexField(fieldsVec, i, fieldsMap, primaryField, indexFields);
      i := i + 1;
    }
  }

  /** `Model::new`. */
  method New(builder: ModelBuilder, inflector: Inflector) returns (m: Model)
    ensures Valid(m)
    ensures m.name == builder.name && m.fieldsVec == builder.fields && m.actions == builder.actions
    ensures m.localizedName == builder.localizedName && m.description == builder.description
    ensures m.identity == builder.identity
    ensures forall n :: n in m.fieldsMap <==> exists i :: 0 <= i < |builder.fields| && builder.fields[i].name == n
    ensures m.tableName == NameOrDefault(builder.tableName, inflector.lowercasePlural(builder.name))
    ensures m.urlSegmentName == NameOrDefault(builder.urlSegmentName, inflector.kebabCasePlural(builder.name))
    ensures m.inputKeys == AllowedInputKeys(builder.fields)
    ensures m.saveKeys == AllowedSaveKeys(builder.fields)
    ensures m.outputKeys == AllowedOutputKeys(builder.fields)
    ensures m.getValueKeys == GetValueKeys(builder.fields)
  {
    var inputKeys := AllowedInputKeys(builder.fields);
    var saveKeys := AllowedSaveKeys(builder.fields);
    var outputKeys := AllowedOutputKeys(builder.fields);
    var getValueKeys := GetValueKeys(builder.fields);
    var fieldsVec := builder.fields;
    var fieldsMap, primaryField, indexFields := IndexFieldsVec(fieldsVec);
    m := Model(
      builder.name,
      NameOrDefault(builder.tableName, inflector.lowercasePlural(builder.name)),
      NameOrDefault(builder.urlSegmentName, inflector.kebabCasePlural(builder.name)),
      builder.localizedName,
      builder.description,
      builder.identity,
      builder.actions,
      fieldsVec,
      fieldsMap,
      primaryField,
      indexFields,
      inputKeys,
      saveKeys,
      outputKeys,
      getValueKeys);
    forall n | n in m.fieldsMap ensures exists i :: 0 <= i < |builder.fields| && builder.fields[i].name == n {
      assert builder.fields[fieldsMap[n]].name == n;
    }
  }

  // ---------------------------------------------------------------------------
  // Accessors

  /** Whether the model declares a field called `name`. */
  predicate HasField(m: Model, name: string)
  {
    name in m.fieldsMap
  }

  lemma HasFieldIffDeclared(m: Model, name: string)
    requires Valid(m)
    ensures HasField(m, name) <==> exists i :: 0 <= i < |m.fieldsVec| && m.fieldsVec[i].name == name
  {
    if HasField(m, name) {
      assert m.fieldsVec[m.fieldsMap[name]].name == name;
    }
  }

  /** `Model::field`: the field called `name`; the source unwraps, so it must exist (the last such one). */
  function FieldNamed(m: Model, name: string): (f: Field)
    requires Valid(m) && HasField(m, name)
    ensures f.name == name
    ensures exists i :: (0 <= i < |m.fieldsVec| && m.fieldsVec[i] == f
      && forall j :: i < j < |m.fieldsVec| ==> m.fieldsVec[j].name != name)
  {
    var i := m.fieldsMap[name];
    assert forall j :: i < j < |m.fieldsVec| ==> m.fieldsVec[j].name != name by {
      forall j | i < j < |m.fieldsVec| ensures m.fieldsVec[j].name != name {
        assert m.fieldsMap[m.fieldsVec[j].name] >= j;
      }
    }
    m.fieldsVec[i]
  }

  /** `Model::primary_field`: none exactly when no field is primary, else the last primary one. */
  function PrimaryField(m: Model): (r: Option<Field>)
    requires Valid(m)
    ensures r.None? <==> forall i :: 0 <= i < |m.fieldsVec| ==> !m.fieldsVec[i].primary
    ensures r.Some? ==> exists i :: (0 <= i < |m.fieldsVec| && m.fieldsVec[i] == r.value && r.value.primary
      && forall j :: i < j < |m.fieldsVec| ==> !m.fieldsVec[j].primary)
  {
    LastPosition(Map(m.fieldsVec, IsPrimary));
    match m.primaryField
    case None => None
    case Some(i) => Some(m.fieldsVec[i])
  }

  /** `Model::index_fields`: the fields whose index is not `NoIndex`, in declaration order. */
  function IndexFields(m: Model): (r: seq<Field>)
    requires Valid(m)
    ensures r == Pick(m.fieldsVec, Positions(Map(m.fieldsVec, Indexed)))
    ensures forall f :: f in r <==> f in m.fieldsVec && Indexed(f)
  {
    var r := Pick(m.fieldsVec, m.indexFields);
    forall f ensures f in r <==> f in m.fieldsVec && Indexed(f) {
      IndexedMembership(m.fieldsVec, f);
    }
    r
  }

  /** A field is among the indexed picks exactly when it is an indexed field. */
  lemma IndexedMembership(fs: seq<Field>, f: Field)
    ensures f in Pick(fs, Positions(Map(fs, Indexed))) <==> f in fs && Indexed(f)
  {
    var mask := Map(fs, Indexed);
    var pos := Positions(mask);
    var r := Pick(fs, pos);
    if f in r {
      var j :| 0 <= j < |r| && r[j] == f;
      assert mask[pos[j]];
    }
    if f in fs && Indexed(f) {
      var i :| 0 <= i < |fs| && fs[i] == f;
      PositionsMembership(mask, i);
      var j :| 0 <= j < |pos| && pos[j] == i;
      assert r[j] == f;
    }
  }

  /** `Model::has_action`: membership in the builder's action set. */
  predicate HasAction(m: Model, action: ActionType)
  {
    action in m.actions
  }

  /** A model built from a builder supports exactly the builder's actions. */
  method HasActionOfBuilt(builder: ModelBuilder, inflector: Inflector, action: ActionType) returns (r: bool)
    ensures r <==> action in builder.actions
  {
    var m := New(builder, inflector);
    r := HasAction(m, action);
  }
}
