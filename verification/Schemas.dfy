/** Schema validation, and the resolution of model and field names (storage/schema.go). Go iterates over
    a map in an order of its own, so each loop over one picks its elements in any order here. */
module Schemas {
  import opened Wrappers
  import opened Values

  datatype FieldType =
    | StringType | NumberType | BooleanType | DateType | JsonType | StringArrayType | NumberArrayType | EnumType
    | OtherType(name: string)

  datatype Reference = Reference(model: string, field: string)

  datatype Field = Field(
    kind: FieldType, enum: seq<string>, fieldName: string, reference: Option<Reference>, required: Option<bool>,
    defaultValue: Option<Result<Value, string>>, onUpdate: Option<Result<Value, string>>,
    input: Option<Value -> Result<Value, string>>, output: Option<Value -> Result<Value, string>>)

  datatype Model = Model(modelName: string, fields: map<string, Field>)

  datatype Schema = Schema(models: map<string, Model>, usePlural: bool)

  datatype Fault =
    | EmptyModelName
    | SameTable(first: string, second: string)
    | EmptyFieldName(model: string)
    | BadType(model: string, field: string)
    | SameColumn(model: string, first: string, second: string)
    | NoModel(model: string, field: string)
    | NoField(model: string, field: string)

  predicate ValidType(f: Field) {
    match f.kind
    case OtherType(_) => false
    case EnumType => |f.enum| > 0
    case _ => f.enum == []
  }

  /** The table of a model before plurals, and the column of a field. */
  function Table(s: Schema, c: string): string
    requires c in s.models
  {
    if s.models[c].modelName == "" then c else s.models[c].modelName
  }

  function PhysicalModel(s: Schema, c: string): string
    requires c in s.models
  {
    if s.usePlural then Table(s, c) + "s" else Table(s, c)
  }

  function Physical(fields: map<string, Field>, c: string): string
    requires c in fields
  {
    if fields[c].fieldName == "" then c else fields[c].fieldName
  }

  /** Where the adapter puts the field `c`: the identifier is always in `id`, and `_id` is another name
      of it. */
  function Column(fields: map<string, Field>, c: string): string
    requires c in fields || c == "id"
  {
    if c == "id" || c == "_id" then "id" else Physical(fields, c)
  }

  // ----- resolution

  predicate EndsInS(name: string) {
    name != "" && name[|name| - 1] == 's'
  }

  function Lookup(s: Schema, candidate: string): string {
    if s.usePlural && EndsInS(candidate) then candidate[..|candidate| - 1] else candidate
  }

  /** `c` is a model that `candidate` can resolve to, for some order of the map. */
  predicate ModelResolves(s: Schema, candidate: string, c: string) {
    c in s.models && if candidate in s.models then c == candidate else Table(s, c) == Lookup(s, candidate)
  }

  predicate FieldResolves(fields: map<string, Field>, candidate: string, c: string) {
    if candidate == "id" || candidate == "_id" then c == "id"
    else c in fields && if candidate in fields then c == candidate else fields[c].fieldName == candidate
  }

  method ResolveModel(s: Schema, candidate: string) returns (r: Option<string>)
    ensures r.Some? ==> ModelResolves(s, candidate, r.value)
    ensures r.None? ==> forall c :: !ModelResolves(s, candidate, c)
  {
    if candidate in s.models { return Some(candidate); }
    var lookup := candidate;
    if s.usePlural && EndsInS(lookup) { lookup := lookup[..|lookup| - 1]; }
    var rest := s.models.Keys;
    while rest != {}
      invariant rest <= s.models.Keys
      invariant forall c | c in s.models && c !in rest :: Table(s, c) != lookup
      decreases |rest|
    {
      var c :| c in rest;
      if Table(s, c) == lookup { return Some(c); }
      rest := rest - {c};
    }
    return None;
  }

  method ResolveField(fields: map<string, Field>, candidate: string) returns (r: Option<string>)
    ensures r.Some? ==> FieldResolves(fields, candidate, r.value)
    ensures r.None? ==> forall c :: !FieldResolves(fields, candidate, c)
  {
    if candidate == "id" || candidate == "_id" { return Some("id"); }
    if candidate in fields { return Some(candidate); }
    var rest := fields.Keys;
    while rest != {}
      invariant rest <= fields.Keys
      invariant forall c | c in fields && c !in rest :: fields[c].fieldName != candidate
      decreases |rest|
    {
      var c :| c in rest;
      if fields[c].fieldName == candidate { return Some(c); }
      rest := rest - {c};
    }
    return None;
  }

  // ----- validation

  predicate FieldsValid(fields: map<string, Field>) {
    && (forall c | c in fields ::
          c != "" && ValidType(fields[c]) && (c != "id" ==> Physical(fields, c) != "id"))
    && (forall c, d | c in fields && d in fields && c != d :: Physical(fields, c) != Physical(fields, d))
  }

  predicate ModelsValid(s: Schema) {
    && (forall c | c in s.models :: c != "" && FieldsValid(s.models[c].fields))
    && (forall c, d | c in s.models && d in s.models && c != d :: Table(s, c) != Table(s, d))
  }

  ghost predicate ReferenceValid(s: Schema, r: Reference) {
    exists t :: ModelResolves(s, r.model, t) && (r.field == "id" || r.field in s.models[t].fields)
  }

  ghost predicate ReferencesValid(s: Schema, fields: map<string, Field>) {
    forall c | c in fields && fields[c].reference.Some? :: ReferenceValid(s, fields[c].reference.value)
  }

  ghost predicate Valid(s: Schema) {
    ModelsValid(s) && forall c | c in s.models :: ReferencesValid(s, s.models[c].fields)
  }

  predicate FieldFault(fields: map<string, Field>, m: string, f: Fault) {
    match f
    case EmptyFieldName(model) => model == m && "" in fields
    case BadType(model, c) => model == m && c in fields && !ValidType(fields[c])
    case SameColumn(model, c, d) =>
      model == m && c != d && d in fields &&
      ((c == "id" && Physical(fields, d) == "id") || (c in fields && Physical(fields, c) == Physical(fields, d)))
    case _ => false
  }

  predicate IsReference(s: Schema, m: string, c: string) {
    m in s.models && c in s.models[m].fields && s.models[m].fields[c].reference.Some?
  }

  /** The fault is one the schema has. */
  ghost predicate HasFault(s: Schema, f: Fault) {
    match f
    case EmptyModelName => "" in s.models
    case SameTable(c, d) => c != d && c in s.models && d in s.models && PhysicalModel(s, c) == PhysicalModel(s, d)
    case NoModel(m, c) =>
      IsReference(s, m, c) && forall t :: !ModelResolves(s, s.models[m].fields[c].reference.value.model, t)
    case NoField(m, c) =>
      IsReference(s, m, c) && !ReferenceValid(s, s.models[m].fields[c].reference.value) &&
      exists t :: ModelResolves(s, s.models[m].fields[c].reference.value.model, t)
    case EmptyFieldName(m) => m in s.models && FieldFault(s.models[m].fields, m, f)
    case BadType(m, _) => m in s.models && FieldFault(s.models[m].fields, m, f)
    case SameColumn(m, _, _) => m in s.models && FieldFault(s.models[m].fields, m, f)
  }

  /** What the loop over the fields knows of those it has passed. */
  predicate Passed(fields: map<string, Field>, physical: map<string, string>, rest: set<string>) {
    && "id" in physical && physical["id"] == "id"
    && (forall c | c in fields && c !in rest ::
          c != "" && ValidType(fields[c]) &&
          Physical(fields, c) in physical && physical[Physical(fields, c)] == c)
    && (forall p | p in physical ::
          (p == "id" && physical[p] == "id") || (physical[p] in fields && Physical(fields, physical[p]) == p))
  }

  lemma FaultRefutes(fields: map<string, Field>, m: string, f: Fault)
    requires FieldFault(fields, m, f)
    ensures !FieldsValid(fields)
  {
  }

  lemma AllPassed(fields: map<string, Field>, physical: map<string, string>)
    requires Passed(fields, physical, {})
    ensures FieldsValid(fields)
  {
  }

  lemma OneMorePassed(fields: map<string, Field>, physical: map<string, string>, rest: set<string>, c: string)
    requires Passed(fields, physical, rest) && c in fields && c != "" && ValidType(fields[c])
    requires Physical(fields, c) in physical ==> physical[Physical(fields, c)] == c
    ensures Passed(fields, physical[Physical(fields, c) := c], rest - {c})
  {
    var next := physical[Physical(fields, c) := c];
    forall d | d in fields && d !in rest - {c}
      ensures Physical(fields, d) in next && next[Physical(fields, d)] == d
    {
    }
  }

  method ValidateFields(m: string, fields: map<string, Field>) returns (fault: Option<Fault>)
    ensures fault.None? <==> FieldsValid(fields)
    ensures fault.Some? ==> FieldFault(fields, m, fault.value)
  {
    var physical := map["id" := "id"];
    var rest := fields.Keys;
    while rest != {}
      invariant rest <= fields.Keys && Passed(fields, physical, rest)
      decreases |rest|
    {
      var c :| c in rest;
      if c == "" {
        fault := Some(EmptyFieldName(m));
        FaultRefutes(fields, m, fault.value);
        return;
      }
      if !ValidType(fields[c]) {
        fault := Some(BadType(m, c));
        FaultRefutes(fields, m, fault.value);
        return;
      }
      var column := fields[c].fieldName;
      if column == "" { column := c; }
      assert column == Physical(fields, c);
      if column in physical && physical[column] != c {
        fault := Some(SameColumn(m, physical[column], c));
        FaultRefutes(fields, m, fault.value);
        return;
      }
      OneMorePassed(fields, physical, rest, c);
      physical := physical[column := c];
      rest := rest - {c};
    }
    AllPassed(fields, physical);
    return None;
  }

  predicate PassedModels(s: Schema, physical: map<string, string>, rest: set<string>) {
    && (forall c | c in s.models && c !in rest ::
          c != "" && FieldsValid(s.models[c].fields) &&
          PhysicalModel(s, c) in physical && physical[PhysicalModel(s, c)] == c)
    && (forall p | p in physical :: physical[p] in s.models && PhysicalModel(s, physical[p]) == p)
  }

  lemma FaultyFields(s: Schema, m: string, f: Fault)
    requires m in s.models && FieldFault(s.models[m].fields, m, f)
    ensures HasFault(s, f) && !FieldsValid(s.models[m].fields)
  {
  }

  method ValidateModels(s: Schema) returns (fault: Option<Fault>)
    ensures fault.None? <==> ModelsValid(s)
    ensures fault.Some? ==> HasFault(s, fault.value)
  {
    var physical := map[];
    var rest := s.models.Keys;
    while rest != {}
      invariant rest <= s.models.Keys && PassedModels(s, physical, rest)
      decreases |rest|
    {
      var c :| c in rest;
      if c == "" { return Some(EmptyModelName); }
      var table := s.models[c].modelName;
      if table == "" { table := c; }
      if s.usePlural { table := table + "s"; }
      if table in physical && physical[table] != c {
        SameTables(s, physical[table], c);
        return Some(SameTable(physical[table], c));
      }
      physical := physical[table := c];
      var inFields := ValidateFields(c, s.models[c].fields);
      if inFields.Some? {
        FaultyFields(s, c, inFields.value);
        return inFields;
      }
      rest := rest - {c};
    }
    TablesDiffer(s, physical);
    return None;
  }

  lemma SameTables(s: Schema, c: string, d: string)
    requires c in s.models && d in s.models && c != d && PhysicalModel(s, c) == PhysicalModel(s, d)
    ensures Table(s, c) == Table(s, d) && !ModelsValid(s)
  {
    if s.usePlural {
      assert (Table(s, c) + "s")[..|Table(s, c) + "s"| - 1] == Table(s, c);
      assert (Table(s, d) + "s")[..|Table(s, d) + "s"| - 1] == Table(s, d);
    }
  }

  lemma TablesDiffer(s: Schema, physical: map<string, string>)
    requires PassedModels(s, physical, {})
    ensures ModelsValid(s)
  {
  }

  method ValidateReferences(s: Schema, m: string) returns (fault: Option<Fault>)
    requires m in s.models && ModelsValid(s)
    ensures fault.None? <==> ReferencesValid(s, s.models[m].fields)
    ensures fault.Some? ==> HasFault(s, fault.value)
  {
    var fields := s.models[m].fields;
    var rest := fields.Keys;
    while rest != {}
      invariant rest <= fields.Keys
      invariant forall c | c in fields && c !in rest && fields[c].reference.Some? ::
                  ReferenceValid(s, fields[c].reference.value)
      decreases |rest|
    {
      var c :| c in rest;
      if fields[c].reference.Some? {
        var reference := fields[c].reference.value;
        var target := ResolveModel(s, reference.model);
        if target.None? { return Some(NoModel(m, c)); }
        if reference.field != "id" && reference.field !in s.models[target.value].fields {
          TargetIsUnique(s, reference, target.value);
          return Some(NoField(m, c));
        }
      }
      rest := rest - {c};
    }
    return None;
  }

  lemma TargetIsUnique(s: Schema, r: Reference, t: string)
    requires ModelsValid(s) && ModelResolves(s, r.model, t)
    ensures ReferenceValid(s, r) <==> r.field == "id" || r.field in s.models[t].fields
  {
    if ReferenceValid(s, r) {
      var u :| ModelResolves(s, r.model, u) && (r.field == "id" || r.field in s.models[u].fields);
      ModelIsUnique(s, r.model, t, u);
    }
  }

  /** Validation finds a fault exactly in the schemas that have one, whatever the order of its maps, and
      the fault it reports is really there. */
  method Validate(s: Schema) returns (fault: Option<Fault>)
    ensures fault.None? <==> Valid(s)
    ensures fault.Some? ==> HasFault(s, fault.value)
  {
    fault := ValidateModels(s);
    if fault.Some? { return; }
    var rest := s.models.Keys;
    while rest != {}
      invariant rest <= s.models.Keys && fault.None?
      invariant forall c | c in s.models && c !in rest :: ReferencesValid(s, s.models[c].fields)
      decreases |rest|
    {
      var c :| c in rest;
      fault := ValidateReferences(s, c);
      if fault.Some? { return; }
      rest := rest - {c};
    }
  }

  // ----- what a valid schema promises

  /** No order of the map changes what a name resolves to. */
  lemma ModelIsUnique(s: Schema, candidate: string, c: string, d: string)
    requires ModelsValid(s) && ModelResolves(s, candidate, c) && ModelResolves(s, candidate, d)
    ensures c == d
  {
  }

  predicate AtMostOneUnnamed(fields: map<string, Field>) {
    forall c, d | c in fields && d in fields && fields[c].fieldName == "" && fields[d].fieldName == "" :: c == d
  }

  /** For fields the same holds of every name but the empty one, which stands for every field that keeps
      its own name. */
  lemma FieldIsUnique(fields: map<string, Field>, candidate: string)
    requires FieldsValid(fields)
    ensures (forall c, d | FieldResolves(fields, candidate, c) && FieldResolves(fields, candidate, d) :: c == d)
            <==> (candidate != "" || AtMostOneUnnamed(fields))
  {
    if candidate != "" {
      forall c, d | FieldResolves(fields, candidate, c) && FieldResolves(fields, candidate, d)
        ensures c == d
      {
      }
    } else {
      assert "" !in fields;
      forall c | c in fields && fields[c].fieldName == ""
        ensures FieldResolves(fields, candidate, c)
      {
      }
    }
  }

  /** No two fields share a column, unless one is declared under the other name of the identifier. */
  lemma ColumnsAreDistinct(fields: map<string, Field>)
    requires FieldsValid(fields)
    ensures (forall c, d | c in fields.Keys + {"id"} && d in fields.Keys + {"id"} && c != d ::
               Column(fields, c) != Column(fields, d)) <==> "_id" !in fields
  {
    if "_id" in fields {
      assert Column(fields, "_id") == Column(fields, "id");
      assert "_id" in fields.Keys + {"id"} && "id" in fields.Keys + {"id"};
    }
  }

  /** The table of a model resolves to that model, and to nothing else, unless another model has that
      name. */
  lemma TableResolvesBack(s: Schema, c: string, d: string)
    requires ModelsValid(s) && c in s.models
    ensures var table := PhysicalModel(s, c);
            ModelResolves(s, table, d) <==> d == if table in s.models then table else c
  {
    var table := PhysicalModel(s, c);
    if s.usePlural {
      assert table[..|table| - 1] == Table(s, c);
    }
    assert Lookup(s, table) == Table(s, c) || !s.usePlural;
    if d in s.models && d != c { assert Table(s, d) != Table(s, c); }
    assert !s.usePlural ==> table == Table(s, c);
  }

  /** The configured name of a model resolves to it, except one in s under plurals. */
  lemma ConfiguredNameResolves(s: Schema, c: string)
    requires ModelsValid(s) && c in s.models && Table(s, c) !in s.models
    ensures ModelResolves(s, Table(s, c), c) <==> !(s.usePlural && EndsInS(Table(s, c)))
  {
    var name := Table(s, c);
    if s.usePlural && EndsInS(name) { assert |name[..|name| - 1]| != |name|; }
  }

  /** The column of a field resolves to that field, unless the column has the name of another. */
  lemma ColumnResolvesBack(fields: map<string, Field>, c: string)
    requires FieldsValid(fields) && (c in fields || c == "id")
    ensures var column := Column(fields, c);
            FieldResolves(fields, column, c) <==> (column == c || (column !in fields && column !in {"id", "_id"}))
  {
  }
}
