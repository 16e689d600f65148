/** The record transforms of the adapter factory (storage/factory.go): what is written to the columns of
    a table, and what is read back under the names of the schema. The key mappings and the transforms of
    the adapter itself are not configured. */
module Records {
  import opened Wrappers
  import opened Values
  import opened Schemas
  import opened FieldCodecs

  datatype Action = Create | Update

  /** `idAttribute` gives the identifier field, by whether the caller may set it. */
  datatype Factory = Factory(caps: Capabilities, codec: Codec, idAttribute: bool -> Result<Field, string>)

  type Record = map<string, Value>

  const ID_FIELD := Field(StringType, [], "id", None, None, None, None, None, None)

  function Get(record: Record, name: string): Option<Value> {
    if name in record then Some(record[name]) else None
  }

  /** The value supplied for a field, under its own name or that of its column. */
  function Supplied(record: Record, c: string, column: string): Option<Value> {
    if c != "" && c in record then Some(record[c])
    else if column != "" && column in record then Some(record[column])
    else None
  }

  /** The attribute of a declared field, and that of the identifier under either of its names. */
  function Declared(fields: map<string, Field>, c: string): Field
    requires c in fields || c == "id"
  {
    if c == "id" || c == "_id" then ID_FIELD else fields[c].(fieldName := Physical(fields, c))
  }

  function AttributeOf(f: Factory, fields: map<string, Field>, c: string, force: bool): Result<Field, string>
    requires c in fields || c == "id"
  {
    if c == "id" then f.idAttribute(force) else Ok(Declared(fields, c))
  }

  // ----- input

  /** Fills in a default on create and a fresh value on update. */
  function Filled(a: Field, c: string, action: Action, value: Value, present: bool): Result<(Value, bool), string> {
    if !present || (value.Null? && a.required == Some(true)) then
      if action.Create? && a.defaultValue.Some? then
        match a.defaultValue.value
        case Ok(v) => Ok((v, c != "id" || !v.Null?))
        case Err(e) => Err(e)
      else if action.Update? && a.onUpdate.Some? then
        match a.onUpdate.value
        case Ok(v) => Ok((v, true))
        case Err(e) => Err(e)
      else Ok((value, present))
    else Ok((value, present))
  }

  function Encoded(f: Factory, a: Field, c: string, value: Value, present: bool): Result<Option<Value>, string> {
    var missing := !present && a.input.Some?;
    if !present && !missing then Ok(None)
    else
      match EncodeInput(f.caps, f.codec, a, value)
      case Err(e) => Err(e)
      case Ok(v) => if (c == "id" || missing) && v.Null? then Ok(None) else Ok(Some(v))
  }

  /** What is written for one field: an error, nothing, or a value for its column. */
  function InputField(f: Factory, fields: map<string, Field>, record: Record, action: Action, force: bool, c: string)
    : Result<Option<Value>, string>
    requires c in fields || c == "id"
  {
    var supplied := Supplied(record, c, Column(fields, c));
    var value := if supplied.Some? then supplied.value else Null;
    var present := supplied.Some? && !(c == "id" && action.Create? && !force);
    match AttributeOf(f, fields, c, force && present)
    case Err(e) => Err(e)
    case Ok(a) => FilledInput(f, a, c, action, value, present)
  }

  function FilledInput(f: Factory, a: Field, c: string, action: Action, value: Value, present: bool)
    : Result<Option<Value>, string>
  {
    match Filled(a, c, action, value, present)
    case Err(e) => Err(e)
    case Ok(filled) => Encoded(f, a, c, filled.0, filled.1)
  }

  predicate Known(fields: map<string, Field>, names: seq<string>) {
    forall i | 0 <= i < |names| :: names[i] in fields || names[i] == "id"
  }

  function Put(record: Record, column: string, v: Option<Value>): Record {
    if v.Some? then record[column := v.value] else record
  }

  function Input(f: Factory, fields: map<string, Field>, record: Record, action: Action, force: bool, names: seq<string>)
    : Result<Record, string>
    requires Known(fields, names)
  {
    if names == [] then Ok(map[])
    else
      match Input(f, fields, record, action, force, names[..|names| - 1])
      case Err(e) => Err(e)
      case Ok(sofar) =>
        var c := names[|names| - 1];
        match InputField(f, fields, record, action, force, c)
        case Err(e) => Err(e)
        case Ok(v) => Ok(Put(sofar, Column(fields, c), v))
  }

  // ----- output

  /** An identifier, and a reference to one, is read as text. */
  function Returned(f: Factory, a: Field, c: string, v: Value): Value {
    if (c == "id" || (a.reference.Some? && a.reference.value.field == "id")) && !v.Null?
    then Text(f.codec.sprint(v))
    else v
  }

  function OutputField(f: Factory, fields: map<string, Field>, stored: Record, c: string): Result<Value, string>
    requires c in fields || c == "id"
  {
    match AttributeOf(f, fields, c, false)
    case Err(e) => Err(e)
    case Ok(a) => Decoded(f, a, c, Get(stored, Column(fields, c)))
  }

  function Decoded(f: Factory, a: Field, c: string, v: Option<Value>): Result<Value, string> {
    match DecodeOutput(f.caps, f.codec, a, if v.Some? then v.value else Null)
    case Err(e) => Err(e)
    case Ok(w) => Ok(Returned(f, a, c, w))
  }

  /** `selected` holds the canonical names asked for; none means all. */
  function Output(f: Factory, fields: map<string, Field>, stored: Record, selected: set<string>, names: seq<string>)
    : Result<Record, string>
    requires Known(fields, names)
  {
    if names == [] then Ok(map[])
    else
      match Output(f, fields, stored, selected, names[..|names| - 1])
      case Err(e) => Err(e)
      case Ok(sofar) =>
        var c := names[|names| - 1];
        if selected != {} && c !in selected then Ok(sofar)
        else
          match OutputField(f, fields, stored, c)
          case Err(e) => Err(e)
          case Ok(v) => Ok(sofar[c := v])
  }

  // ----- the order of the fields

  predicate AtMost(a: string, b: string) {
    a == "" || (b != "" && (a[0] < b[0] || (a[0] == b[0] && AtMost(a[1..], b[1..]))))
  }

  predicate Sorted(names: seq<string>) {
    |names| <= 1 || (Sorted(names[..|names| - 1]) && AtMost(names[|names| - 2], names[|names| - 1]))
  }

  /** The identifier and every declared field, in order. */
  predicate FieldOrder(fields: map<string, Field>, names: seq<string>) {
    Sorted(names) && multiset(names) == multiset(fields.Keys) + multiset{"id"}
  }

  lemma {:induction false} AtMostTotal(a: string, b: string)
    ensures AtMost(a, b) || AtMost(b, a)
  {
    if a != "" && b != "" { AtMostTotal(a[1..], b[1..]); }
  }

  function Inserted(names: seq<string>, name: string): seq<string> {
    if names == [] then [name]
    else if AtMost(names[|names| - 1], name) then names + [name]
    else Inserted(names[..|names| - 1], name) + [names[|names| - 1]]
  }

  lemma {:induction false} InsertedAdds(names: seq<string>, name: string)
    ensures multiset(Inserted(names, name)) == multiset(names) + multiset{name}
    ensures |Inserted(names, name)| == |names| + 1
  {
    if names != [] {
      var n := |names| - 1;
      assert names == names[..n] + [names[n]];
      InsertedAdds(names[..n], name);
    }
  }

  lemma {:induction false} InsertedSorts(names: seq<string>, name: string)
    requires Sorted(names)
    ensures Sorted(Inserted(names, name)) && |Inserted(names, name)| == |names| + 1
    ensures Inserted(names, name)[|names|] in names[if names == [] then 0 else |names| - 1..] + [name]
  {
    InsertedAdds(names, name);
    if names != [] {
      var n := |names| - 1;
      if AtMost(names[n], name) {
        assert (names + [name])[..n + 1] == names;
      } else {
        InsertedAdds(names[..n], name);
        InsertedSorts(names[..n], name);
        AtMostTotal(names[n], name);
        var shorter := Inserted(names[..n], name);
        assert (shorter + [names[n]])[..n + 1] == shorter;
      }
    }
  }

  lemma MoveOne(names: seq<string>, rest: set<string>, c: string, next: seq<string>)
    requires c in rest && multiset(next) == multiset(names) + multiset{c}
    ensures multiset(next) + multiset(rest - {c}) == multiset(names) + multiset(rest)
  {
    assert multiset(rest) == multiset(rest - {c}) + multiset{c};
  }

  method FieldNames(fields: map<string, Field>) returns (names: seq<string>)
    ensures FieldOrder(fields, names)
  {
    names := ["id"];
    var rest := fields.Keys;
    while rest != {}
      invariant rest <= fields.Keys && Sorted(names)
      invariant multiset(names) + multiset(rest) == multiset(fields.Keys) + multiset{"id"}
      decreases |rest|
    {
      var c :| c in rest;
      InsertedSorts(names, c);
      InsertedAdds(names, c);
      MoveOne(names, rest, c, Inserted(names, c));
      names := Inserted(names, c);
      rest := rest - {c};
    }
  }

  lemma OrderCovers(fields: map<string, Field>, names: seq<string>, c: string)
    requires FieldOrder(fields, names)
    ensures Known(fields, names)
    ensures c in names <==> c in fields || c == "id"
  {
    forall i | 0 <= i < |names|
      ensures names[i] in fields || names[i] == "id"
    {
      assert names[i] in multiset(names);
    }
    assert c in names <==> c in multiset(names);
  }

  // ----- the transforms

  ghost predicate IsInput(f: Factory, fields: map<string, Field>, record: Record, action: Action, force: bool,
                          names: seq<string>, r: Result<Option<Record>, string>)
  {
    Known(fields, names) &&
    match Input(f, fields, record, action, force, names)
    case Ok(stored) => r == Ok(Some(stored))
    case Err(e) => r == Err(e)
  }

  lemma {:induction false} InputFails(f: Factory, fields: map<string, Field>, record: Record, action: Action, force: bool,
                                      names: seq<string>, i: nat, e: string)
    requires Known(fields, names) && i <= |names| && Known(fields, names[..i])
    requires Input(f, fields, record, action, force, names[..i]) == Err(e)
    ensures Input(f, fields, record, action, force, names) == Err(e)
    decreases |names| - i
  {
    if i == |names| {
      assert names[..i] == names;
    } else {
      assert names[..i + 1][..i] == names[..i];
      InputFails(f, fields, record, action, force, names, i + 1, e);
    }
  }

  /** What one field contributes: the value supplied, or else its default or fresh value, encoded. */
  method FieldInput(f: Factory, fields: map<string, Field>, record: Record, action: Action, force: bool, c: string)
    returns (v: Result<Option<Value>, string>)
    requires c in fields || c == "id"
    ensures v == InputField(f, fields, record, action, force, c)
  {
    var supplied := Supplied(record, c, Column(fields, c));
    var value := if supplied.Some? then supplied.value else Null;
    var present := supplied.Some?;
    if c == "id" && action.Create? && present && !force { present := false; }
    var attribute := AttributeOf(f, fields, c, force && present);
    if attribute.Err? { return Err(attribute.error); }
    return FilledInput(f, attribute.value, c, action, value, present);
  }

  lemma InputNext(f: Factory, fields: map<string, Field>, record: Record, action: Action, force: bool,
                  names: seq<string>, i: nat)
    requires Known(fields, names) && i < |names| && Input(f, fields, record, action, force, names[..i]).Ok?
    ensures var stored := Input(f, fields, record, action, force, names[..i]).value;
            var v := InputField(f, fields, record, action, force, names[i]);
            Input(f, fields, record, action, force, names[..i + 1]) ==
              if v.Err? then Err(v.error) else Ok(Put(stored, Column(fields, names[i]), v.value))
  {
    assert names[..i + 1][..i] == names[..i];
  }

  method TransformRecordInput(f: Factory, fields: map<string, Field>, record: Option<Record>, action: Action, force: bool)
    returns (r: Result<Option<Record>, string>)
    ensures record.None? ==> r == Ok(None)
    ensures record.Some? ==>
              exists names :: FieldOrder(fields, names) && IsInput(f, fields, record.value, action, force, names, r)
  {
    if record.None? { return Ok(None); }
    var names := FieldNames(fields);
    OrderCovers(fields, names, "id");
    var stored: Record := map[];
    var i := 0;
    while i < |names|
      invariant 0 <= i <= |names|
      invariant Input(f, fields, record.value, action, force, names[..i]) == Ok(stored)
    {
      InputNext(f, fields, record.value, action, force, names, i);
      var v := FieldInput(f, fields, record.value, action, force, names[i]);
      if v.Err? {
        InputFails(f, fields, record.value, action, force, names, i + 1, v.error);
        return Err(v.error);
      }
      if v.value.Some? { stored := stored[Column(fields, names[i]) := v.value.value]; }
      i := i + 1;
    }
    assert names[..i] == names;
    return Ok(Some(stored));
  }

  ghost predicate IsOutput(f: Factory, fields: map<string, Field>, stored: Record, selected: set<string>,
                           names: seq<string>, r: Result<Option<Record>, string>)
  {
    Known(fields, names) &&
    match Output(f, fields, stored, selected, names)
    case Ok(record) => r == Ok(Some(record))
    case Err(e) => r == Err(e)
  }

  lemma {:induction false} OutputFails(f: Factory, fields: map<string, Field>, stored: Record, selected: set<string>,
                                       names: seq<string>, i: nat, e: string)
    requires Known(fields, names) && i <= |names| && Known(fields, names[..i])
    requires Output(f, fields, stored, selected, names[..i]) == Err(e)
    ensures Output(f, fields, stored, selected, names) == Err(e)
    decreases |names| - i
  {
    if i == |names| {
      assert names[..i] == names;
    } else {
      assert names[..i + 1][..i] == names[..i];
      OutputFails(f, fields, stored, selected, names, i + 1, e);
    }
  }

  method TransformRecordOutput(f: Factory, fields: map<string, Field>, stored: Option<Record>, selected: set<string>)
    returns (r: Result<Option<Record>, string>)
    ensures stored.None? ==> r == Ok(None)
    ensures stored.Some? ==>
              exists names :: FieldOrder(fields, names) && IsOutput(f, fields, stored.value, selected, names, r)
  {
    if stored.None? { return Ok(None); }
    var names := FieldNames(fields);
    OrderCovers(fields, names, "id");
    var record: Record := map[];
    var i := 0;
    while i < |names|
      invariant 0 <= i <= |names|
      invariant Output(f, fields, stored.value, selected, names[..i]) == Ok(record)
    {
      var c := names[i];
      assert names[..i + 1][..i] == names[..i];
      if selected == {} || c in selected {
        var v := OutputField(f, fields, stored.value, c);
        if v.Err? {
          OutputFails(f, fields, stored.value, selected, names, i + 1, v.error);
          return Err(v.error);
        }
        record := record[c := v.value];
      }
      i := i + 1;
    }
    assert names[..i] == names;
    return Ok(Some(record));
  }

  // ----- round trips

  lemma InputLast(f: Factory, fields: map<string, Field>, record: Record, action: Action, force: bool, names: seq<string>)
    requires names != [] && Known(fields, names) && Input(f, fields, record, action, force, names).Ok?
    ensures Known(fields, names[..|names| - 1])
    ensures Input(f, fields, record, action, force, names[..|names| - 1]).Ok?
    ensures InputField(f, fields, record, action, force, names[|names| - 1]).Ok?
    ensures Input(f, fields, record, action, force, names).value ==
              Put(Input(f, fields, record, action, force, names[..|names| - 1]).value, Column(fields, names[|names| - 1]),
                  InputField(f, fields, record, action, force, names[|names| - 1]).value)
  {
  }

  function Wrote(f: Factory, fields: map<string, Field>, record: Record, action: Action, force: bool, c: string)
    : Option<Value>
    requires c in fields || c == "id"
  {
    match InputField(f, fields, record, action, force, c)
    case Ok(v) => v
    case Err(_) => None
  }

  /** Each column holds what its own field wrote, whatever the other fields are. */
  lemma {:induction false} ColumnHolds(f: Factory, fields: map<string, Field>, record: Record, action: Action, force: bool,
                                       names: seq<string>, c: string)
    requires FieldsValid(fields) && "_id" !in fields && Known(fields, names) && (c in fields || c == "id")
    requires Input(f, fields, record, action, force, names).Ok?
    ensures c in names ==> InputField(f, fields, record, action, force, c).Ok?
    ensures Get(Input(f, fields, record, action, force, names).value, Column(fields, c)) ==
              if c in names then Wrote(f, fields, record, action, force, c) else None
  {
    if names != [] {
      var n := |names| - 1;
      InputLast(f, fields, record, action, force, names);
      ColumnHolds(f, fields, record, action, force, names[..n], c);
      LastOrBefore(names, c);
      var before := Input(f, fields, record, action, force, names[..n]).value;
      var v := InputField(f, fields, record, action, force, names[n]).value;
      if names[n] == c {
        PutHere(before, Column(fields, c), v);
      } else {
        ColumnsDiffer(fields, c, names[n]);
        PutElsewhere(before, Column(fields, names[n]), v, Column(fields, c));
      }
    }
  }

  lemma LastOrBefore(names: seq<string>, c: string)
    requires names != []
    ensures c in names <==> c in names[..|names| - 1] || c == names[|names| - 1]
  {
    assert names == names[..|names| - 1] + [names[|names| - 1]];
  }

  lemma PutHere(record: Record, column: string, v: Option<Value>)
    requires Get(record, column) == v || Get(record, column) == None
    ensures Get(Put(record, column, v), column) == v
  {
  }

  lemma PutElsewhere(record: Record, column: string, v: Option<Value>, other: string)
    requires other != column
    ensures Get(Put(record, column, v), other) == Get(record, other)
  {
  }

  lemma ColumnsDiffer(fields: map<string, Field>, c: string, d: string)
    requires FieldsValid(fields) && "_id" !in fields && c != d
    requires (c in fields || c == "id") && (d in fields || d == "id")
    ensures Column(fields, c) != Column(fields, d)
  {
  }

  lemma {:induction false} OutputHolds(f: Factory, fields: map<string, Field>, stored: Record, names: seq<string>, c: string)
    requires Known(fields, names) && (c in fields || c == "id")
    requires Output(f, fields, stored, {}, names).Ok?
    ensures c in names ==> OutputField(f, fields, stored, c).Ok?
    ensures Get(Output(f, fields, stored, {}, names).value, c) ==
              if c in names then Some(OutputField(f, fields, stored, c).value) else None
  {
    if names != [] {
      var n := |names| - 1;
      OutputHolds(f, fields, stored, names[..n], c);
      assert c in names <==> c in names[..n] || c == names[n];
    }
  }

  /** Writing a record and reading it returns every well-typed field under its own name, for all
      capabilities, whatever the other fields are; a reference to an identifier returns as text. */
  lemma WrittenIsRead(f: Factory, fields: map<string, Field>, record: Record, action: Action, force: bool,
                      names: seq<string>, read: seq<string>, c: string)
    requires FieldsValid(fields) && "_id" !in fields
    requires FieldOrder(fields, names) && FieldOrder(fields, read) && Known(fields, names) && Known(fields, read)
    requires c in fields && c != "id" && c in record && Plain(fields[c]) && WellTyped(fields[c].kind, record[c])
    requires Keeps(f.codec, record[c])
    requires Input(f, fields, record, action, force, names).Ok?
    requires Output(f, fields, Input(f, fields, record, action, force, names).value, {}, read).Ok?
    ensures Get(Output(f, fields, Input(f, fields, record, action, force, names).value, {}, read).value, c) ==
              Some(Returned(f, fields[c], c, record[c]))
  {
    var stored := Input(f, fields, record, action, force, names).value;
    OrderCovers(fields, names, c);
    OrderCovers(fields, read, c);
    ColumnHolds(f, fields, record, action, force, names, c);
    OutputHolds(f, fields, stored, read, c);
    FieldRoundTrips(f.caps, f.codec, Declared(fields, c), record[c]);
  }

  /** Text comes back unchanged even where it refers to an identifier. */
  lemma TextIsUnchanged(f: Factory, a: Field, c: string, v: Value)
    requires v.Text? && f.codec.sprint(v) == v.text
    ensures Returned(f, a, c, v) == v
  {
  }

  /** A plain field that nothing supplies reads as null. */
  lemma UnwrittenIsNull(f: Factory, fields: map<string, Field>, record: Record, action: Action, force: bool,
                        names: seq<string>, read: seq<string>, c: string)
    requires FieldsValid(fields) && "_id" !in fields
    requires FieldOrder(fields, names) && FieldOrder(fields, read) && Known(fields, names) && Known(fields, read)
    requires c in fields && c != "id" && Plain(fields[c]) && c !in record && Column(fields, c) !in record
    requires if action.Create? then fields[c].defaultValue.None? else fields[c].onUpdate.None?
    requires Input(f, fields, record, action, force, names).Ok?
    requires Output(f, fields, Input(f, fields, record, action, force, names).value, {}, read).Ok?
    ensures Get(Output(f, fields, Input(f, fields, record, action, force, names).value, {}, read).value, c) == Some(Null)
  {
    var stored := Input(f, fields, record, action, force, names).value;
    OrderCovers(fields, names, c);
    OrderCovers(fields, read, c);
    ColumnHolds(f, fields, record, action, force, names, c);
    OutputHolds(f, fields, stored, read, c);
  }

  /** The name of a column supplies its field when the field itself is left out, even where that name is
      also another field's: a text field left out reads as null exactly when its column is not supplied. */
  lemma OmittedTextIsNull(f: Factory, fields: map<string, Field>, record: Record, action: Action, force: bool,
                          names: seq<string>, read: seq<string>, c: string)
    requires FieldsValid(fields) && "_id" !in fields
    requires FieldOrder(fields, names) && FieldOrder(fields, read) && Known(fields, names) && Known(fields, read)
    requires c in fields && c != "id" && Plain(fields[c]) && c !in record && fields[c].kind == StringType
    requires fields[c].defaultValue.None? && fields[c].onUpdate.None?
    requires Input(f, fields, record, action, force, names).Ok?
    requires Output(f, fields, Input(f, fields, record, action, force, names).value, {}, read).Ok?
    ensures Get(Output(f, fields, Input(f, fields, record, action, force, names).value, {}, read).value, c) == Some(Null)
            <==> (Column(fields, c) in record ==> record[Column(fields, c)] == Null)
  {
    var stored := Input(f, fields, record, action, force, names).value;
    OrderCovers(fields, names, c);
    OrderCovers(fields, read, c);
    ColumnHolds(f, fields, record, action, force, names, c);
    OutputHolds(f, fields, stored, read, c);
    assert Column(fields, c) != "";
  }

  // ----- the identifier

  /** Without a generator for identifiers, an update, or a create that is allowed to, keeps the one it is
      given, and any other create writes none. */
  lemma IdIsKept(f: Factory, fields: map<string, Field>, record: Record, action: Action, force: bool,
                 names: seq<string>, read: seq<string>)
    requires FieldsValid(fields) && "_id" !in fields
    requires FieldOrder(fields, names) && FieldOrder(fields, read) && Known(fields, names) && Known(fields, read)
    requires NoGenerator(f)
    requires "id" in record && record["id"].Text? && f.codec.sprint(record["id"]) == record["id"].text
    requires Input(f, fields, record, action, force, names).Ok?
    requires Output(f, fields, Input(f, fields, record, action, force, names).value, {}, read).Ok?
    ensures Get(Output(f, fields, Input(f, fields, record, action, force, names).value, {}, read).value, "id") ==
              Some(if action.Update? || force then record["id"] else Null)
  {
    var stored := Input(f, fields, record, action, force, names).value;
    OrderCovers(fields, names, "id");
    OrderCovers(fields, read, "id");
    ColumnHolds(f, fields, record, action, force, names, "id");
    OutputHolds(f, fields, stored, read, "id");
    FieldRoundTrips(f.caps, f.codec, ID_FIELD, record["id"]);
    TextIsUnchanged(f, ID_FIELD, "id", record["id"]);
  }

  // ----- success

  predicate Fits(f: Factory, kind: FieldType, v: Value) {
    v.Null? || (WellTyped(kind, v) && Keeps(f.codec, v))
  }

  predicate FitsAll(f: Factory, kind: FieldType, v: Option<Result<Value, string>>) {
    v.None? || (v.value.Ok? && Fits(f, kind, v.value.value))
  }

  /** Whatever may be written to the field is of its kind. */
  predicate Storable(f: Factory, fields: map<string, Field>, record: Record, c: string)
    requires c in fields || c == "id"
  {
    var a := Declared(fields, c);
    Plain(a) && FitsAll(f, a.kind, a.defaultValue) && FitsAll(f, a.kind, a.onUpdate) &&
    (c in record ==> Fits(f, a.kind, record[c])) &&
    (Column(fields, c) in record ==> Fits(f, a.kind, record[Column(fields, c)]))
  }

  predicate AllStorable(f: Factory, fields: map<string, Field>, record: Record, names: seq<string>)
    requires Known(fields, names)
  {
    forall i | 0 <= i < |names| :: Storable(f, fields, record, names[i])
  }

  ghost predicate NoGenerator(f: Factory) {
    f.idAttribute(true) == Ok(ID_FIELD) && f.idAttribute(false) == Ok(ID_FIELD)
  }

  lemma ValueSucceeds(f: Factory, a: Field, c: string, value: Value, present: bool)
    requires Plain(a) && Fits(f, a.kind, value)
    ensures Encoded(f, a, c, value, present).Ok?
    ensures Decoded(f, a, c, Encoded(f, a, c, value, present).value).Ok?
  {
    if value.Null? { NullRoundTrips(f.caps, f.codec, a); } else { FieldRoundTrips(f.caps, f.codec, a, value); }
  }

  lemma FieldSucceeds(f: Factory, fields: map<string, Field>, record: Record, action: Action, force: bool, c: string)
    requires NoGenerator(f) && (c in fields || c == "id") && Storable(f, fields, record, c)
    ensures InputField(f, fields, record, action, force, c).Ok?
    ensures AttributeOf(f, fields, c, false) == Ok(Declared(fields, c))
    ensures Decoded(f, Declared(fields, c), c, InputField(f, fields, record, action, force, c).value).Ok?
  {
    var a := Declared(fields, c);
    var supplied := Supplied(record, c, Column(fields, c));
    var value := if supplied.Some? then supplied.value else Null;
    var present := supplied.Some? && !(c == "id" && action.Create? && !force);
    assert AttributeOf(f, fields, c, force && present) == Ok(a);
    var filled := Filled(a, c, action, value, present).value;
    ValueSucceeds(f, a, c, filled.0, filled.1);
  }

  lemma {:induction false} InputSucceeds(f: Factory, fields: map<string, Field>, record: Record, action: Action, force: bool,
                                         names: seq<string>)
    requires NoGenerator(f) && Known(fields, names) && AllStorable(f, fields, record, names)
    ensures Input(f, fields, record, action, force, names).Ok?
  {
    if names != [] {
      InputSucceeds(f, fields, record, action, force, names[..|names| - 1]);
      FieldSucceeds(f, fields, record, action, force, names[|names| - 1]);
    }
  }

  lemma {:induction false} OutputSucceeds(f: Factory, fields: map<string, Field>, record: Record, action: Action, force: bool,
                                          names: seq<string>, read: seq<string>)
    requires NoGenerator(f) && FieldsValid(fields) && "_id" !in fields
    requires FieldOrder(fields, names) && Known(fields, names) && Known(fields, read) && AllStorable(f, fields, record, read)
    requires Input(f, fields, record, action, force, names).Ok?
    ensures Output(f, fields, Input(f, fields, record, action, force, names).value, {}, read).Ok?
  {
    if read != [] {
      var n := |read| - 1;
      OutputSucceeds(f, fields, record, action, force, names, read[..n]);
      OrderCovers(fields, names, read[n]);
      ColumnHolds(f, fields, record, action, force, names, read[n]);
      FieldSucceeds(f, fields, record, action, force, read[n]);
    }
  }

  /** A record whose values are of their kinds is written and read without an error. */
  lemma WriteThenReadSucceeds(f: Factory, fields: map<string, Field>, record: Record, action: Action, force: bool,
                              names: seq<string>, read: seq<string>)
    requires NoGenerator(f) && FieldsValid(fields) && "_id" !in fields
    requires FieldOrder(fields, names) && FieldOrder(fields, read) && Known(fields, names) && Known(fields, read)
    requires AllStorable(f, fields, record, names)
    ensures Input(f, fields, record, action, force, names).Ok?
    ensures Output(f, fields, Input(f, fields, record, action, force, names).value, {}, read).Ok?
  {
    InputSucceeds(f, fields, record, action, force, names);
    forall i | 0 <= i < |read|
      ensures Storable(f, fields, record, read[i])
    {
      OrderCovers(fields, read, read[i]);
      OrderCovers(fields, names, read[i]);
    }
    OutputSucceeds(f, fields, record, action, force, names, read);
  }
}
