/** What becomes of defaults, fresh values, generated identifiers, selections and errors in the record
    transforms (storage/factory.go). */
module RecordLaws {
  import opened Wrappers
  import opened Values
  import opened Schemas
  import opened FieldCodecs
  import opened Records

  /** A record is written and read without an error. */
  predicate Trip(f: Factory, fields: map<string, Field>, record: Record, action: Action, force: bool,
                 names: seq<string>, read: seq<string>)
  {
    && FieldsValid(fields) && "_id" !in fields
    && FieldOrder(fields, names) && FieldOrder(fields, read) && Known(fields, names) && Known(fields, read)
    && Input(f, fields, record, action, force, names).Ok?
    && Output(f, fields, Input(f, fields, record, action, force, names).value, {}, read).Ok?
  }

  function ReadBack(f: Factory, fields: map<string, Field>, record: Record, action: Action, force: bool,
                    names: seq<string>, read: seq<string>, c: string): Option<Value>
    requires Trip(f, fields, record, action, force, names, read)
  {
    Get(Output(f, fields, Input(f, fields, record, action, force, names).value, {}, read).value, c)
  }

  /** What is read of a field is the decoding of what was written for it. */
  lemma ReadIsDecoded(f: Factory, fields: map<string, Field>, record: Record, action: Action, force: bool,
                      names: seq<string>, read: seq<string>, c: string)
    requires Trip(f, fields, record, action, force, names, read) && (c in fields || c == "id")
    ensures InputField(f, fields, record, action, force, c).Ok? && AttributeOf(f, fields, c, false).Ok?
    ensures var v := Decoded(f, AttributeOf(f, fields, c, false).value, c, InputField(f, fields, record, action, force, c).value);
            v.Ok? && ReadBack(f, fields, record, action, force, names, read, c) == Some(v.value)
  {
    OrderCovers(fields, names, c);
    OrderCovers(fields, read, c);
    ColumnHolds(f, fields, record, action, force, names, c);
    OutputHolds(f, fields, Input(f, fields, record, action, force, names).value, read, c);
  }

  lemma EncodedReads(f: Factory, a: Field, c: string, v: Value)
    requires Plain(a) && WellTyped(a.kind, v) && Keeps(f.codec, v)
    ensures Encoded(f, a, c, v, true).Ok? && Decoded(f, a, c, Encoded(f, a, c, v, true).value) == Ok(Returned(f, a, c, v))
  {
    FieldRoundTrips(f.caps, f.codec, a, v);
  }

  /** Nothing is supplied for the field, or null where a value is required. */
  predicate Wanting(fields: map<string, Field>, record: Record, c: string)
    requires c in fields
  {
    var supplied := Supplied(record, c, Column(fields, c));
    supplied.None? || (supplied.value.Null? && fields[c].required == Some(true))
  }

  /** On create a field that is wanting gets its default, and on update its fresh value. */
  lemma DefaultIsRead(f: Factory, fields: map<string, Field>, record: Record, action: Action, force: bool,
                      names: seq<string>, read: seq<string>, c: string, v: Value)
    requires Trip(f, fields, record, action, force, names, read)
    requires c in fields && c != "id" && Plain(fields[c]) && Wanting(fields, record, c)
    requires (if action.Create? then fields[c].defaultValue else fields[c].onUpdate) == Some(Ok(v))
    requires WellTyped(fields[c].kind, v) && Keeps(f.codec, v)
    ensures ReadBack(f, fields, record, action, force, names, read, c) == Some(Returned(f, fields[c], c, v))
  {
    ReadIsDecoded(f, fields, record, action, force, names, read, c);
    EncodedReads(f, Declared(fields, c), c, v);
  }

  /** A null that is supplied stays null where no value is required, whatever the default. */
  lemma NullIsRead(f: Factory, fields: map<string, Field>, record: Record, action: Action, force: bool,
                   names: seq<string>, read: seq<string>, c: string)
    requires Trip(f, fields, record, action, force, names, read)
    requires c in fields && c != "id" && Plain(fields[c]) && fields[c].required != Some(true)
    requires Supplied(record, c, Column(fields, c)) == Some(Null)
    ensures ReadBack(f, fields, record, action, force, names, read, c) == Some(Null)
  {
    ReadIsDecoded(f, fields, record, action, force, names, read, c);
    NullRoundTrips(f.caps, f.codec, Declared(fields, c));
  }

  /** A default that fails, fails the whole record, and so does a fresh value. */
  lemma FailingDefault(f: Factory, fields: map<string, Field>, record: Record, action: Action, force: bool,
                       names: seq<string>, c: string, e: string)
    requires FieldOrder(fields, names) && Known(fields, names)
    requires c in fields && c != "id" && c != "_id" && Wanting(fields, record, c)
    requires (if action.Create? then fields[c].defaultValue else fields[c].onUpdate) == Some(Err(e))
    ensures Input(f, fields, record, action, force, names).Err?
  {
    OrderCovers(fields, names, c);
    InputErrsIff(f, fields, record, action, force, names);
    var i :| 0 <= i < |names| && names[i] == c;
    assert InputField(f, fields, record, action, force, names[i]).Err?;
  }

  /** A create that may not set the identifier gets the generated one, whatever it was given. */
  lemma GeneratedIdIsRead(f: Factory, fields: map<string, Field>, record: Record,
                          names: seq<string>, read: seq<string>, a: Field, v: string)
    requires Trip(f, fields, record, Create, false, names, read)
    requires f.idAttribute(false) == Ok(a) && Plain(a) && a.kind == StringType
    requires a.defaultValue == Some(Ok(Text(v))) && f.codec.sprint(Text(v)) == v
    ensures ReadBack(f, fields, record, Create, false, names, read, "id") == Some(Text(v))
  {
    ReadIsDecoded(f, fields, record, Create, false, names, read, "id");
    EncodedReads(f, a, "id", Text(v));
  }

  /** A field with a transform sees null when it is left out, and is written only if it makes something of
      that. */
  lemma TransformSeesNull(f: Factory, fields: map<string, Field>, record: Record, action: Action, force: bool, c: string)
    requires c in fields && c != "id" && c != "_id" && fields[c].input.Some?
    requires Supplied(record, c, Column(fields, c)).None?
    requires (if action.Create? then fields[c].defaultValue else fields[c].onUpdate).None?
    ensures var made := fields[c].input.value(Null);
            && (made == Ok(Null) ==> InputField(f, fields, record, action, force, c) == Ok(None))
            && (made.Err? ==> InputField(f, fields, record, action, force, c) == Err(made.error))
  {
  }

  /** A reference to an identifier reads as text, whatever it was written as; any other value as itself. */
  lemma ReferencesAreText(f: Factory, fields: map<string, Field>, record: Record, action: Action, force: bool,
                          names: seq<string>, read: seq<string>, c: string)
    requires Trip(f, fields, record, action, force, names, read)
    requires c in fields && c != "id" && c in record && Plain(fields[c]) && WellTyped(fields[c].kind, record[c])
    requires Keeps(f.codec, record[c])
    ensures ReadBack(f, fields, record, action, force, names, read, c) ==
              Some(if fields[c].reference.Some? && fields[c].reference.value.field == "id"
                   then Text(f.codec.sprint(record[c])) else record[c])
  {
    WrittenIsRead(f, fields, record, action, force, names, read, c);
  }

  // ----- errors

  /** Writing fails exactly if some field fails. */
  lemma {:induction false} InputErrsIff(f: Factory, fields: map<string, Field>, record: Record, action: Action, force: bool,
                                        names: seq<string>)
    requires Known(fields, names)
    ensures Input(f, fields, record, action, force, names).Err? <==>
              exists i :: 0 <= i < |names| && InputField(f, fields, record, action, force, names[i]).Err?
  {
    if names != [] {
      var n := |names| - 1;
      var init := names[..n];
      InputErrsIff(f, fields, record, action, force, init);
      assert forall i | 0 <= i < n :: init[i] == names[i];
      if i :| 0 <= i < |names| && InputField(f, fields, record, action, force, names[i]).Err? {
        if i < n { assert InputField(f, fields, record, action, force, init[i]).Err?; }
      }
      if i :| 0 <= i < n && InputField(f, fields, record, action, force, init[i]).Err? {
        assert InputField(f, fields, record, action, force, names[i]).Err?;
      }
    }
  }

  /** The error is that of the first field that fails. */
  lemma {:induction false} FirstError(f: Factory, fields: map<string, Field>, record: Record, action: Action, force: bool,
                                      names: seq<string>, i: nat, e: string)
    requires Known(fields, names) && i < |names| && InputField(f, fields, record, action, force, names[i]) == Err(e)
    requires forall j | 0 <= j < i :: InputField(f, fields, record, action, force, names[j]).Ok?
    ensures Input(f, fields, record, action, force, names) == Err(e)
  {
    var n := |names| - 1;
    assert forall j | 0 <= j < n :: names[..n][j] == names[j];
    if i < n {
      FirstError(f, fields, record, action, force, names[..n], i, e);
    } else {
      InputErrsIff(f, fields, record, action, force, names[..n]);
    }
  }

  // ----- selections

  predicate Chosen(selected: set<string>, c: string) {
    selected == {} || c in selected
  }

  lemma {:induction false} SelectedHolds(f: Factory, fields: map<string, Field>, stored: Record, selected: set<string>,
                                         names: seq<string>, c: string)
    requires Known(fields, names) && Output(f, fields, stored, selected, names).Ok?
    ensures c in names && Chosen(selected, c) ==> (c in fields || c == "id") && OutputField(f, fields, stored, c).Ok?
    ensures Get(Output(f, fields, stored, selected, names).value, c) ==
              if c in names && Chosen(selected, c) then Some(OutputField(f, fields, stored, c).value) else None
  {
    if names != [] {
      var n := |names| - 1;
      SelectedHolds(f, fields, stored, selected, names[..n], c);
      LastOrBefore(names, c);
    }
  }

  /** A selection reads what reading everything does, of the fields selected, and no other field; and it does
      not fail where reading everything does not. */
  lemma SelectionRestricts(f: Factory, fields: map<string, Field>, stored: Record, selected: set<string>,
                           names: seq<string>, c: string)
    requires FieldOrder(fields, names) && Known(fields, names) && Output(f, fields, stored, {}, names).Ok?
    ensures Output(f, fields, stored, selected, names).Ok?
    ensures Get(Output(f, fields, stored, selected, names).value, c) ==
              if Chosen(selected, c) then Get(Output(f, fields, stored, {}, names).value, c) else None
  {
    SelectedSucceeds(f, fields, stored, selected, names);
    SelectedHolds(f, fields, stored, selected, names, c);
    SelectedHolds(f, fields, stored, {}, names, c);
  }

  lemma {:induction false} SelectedSucceeds(f: Factory, fields: map<string, Field>, stored: Record, selected: set<string>,
                                            names: seq<string>)
    requires Known(fields, names) && Output(f, fields, stored, {}, names).Ok?
    ensures Output(f, fields, stored, selected, names).Ok?
  {
    if names != [] { SelectedSucceeds(f, fields, stored, selected, names[..|names| - 1]); }
  }
}
