/** How one value is stored by a backend that lacks some kinds of value, and read back
    (storage/factory.go). JSON and time formatting are functions; what is asked of them is asked at the
    values they are given. */
module FieldCodecs {
  import opened Wrappers
  import opened Values
  import opened Schemas

  datatype Capabilities = Capabilities(json: bool, arrays: bool, dates: bool, booleans: bool)

  datatype Codec = Codec(
    marshal: Value -> Result<string, string>,
    unmarshal: string -> Result<Value, string>,
    unmarshalStrings: string -> Result<seq<string>, string>,
    unmarshalNumbers: string -> Result<seq<Float>, string>,
    format: int -> string,
    parse: string -> Option<int>,
    sprint: Value -> string)

  predicate IsContainer(v: Value) {
    v.List? || v.Object?
  }

  /** What the JSON and time packages promise of one value: formatting it and parsing gives it back. */
  predicate Keeps(codec: Codec, v: Value) {
    match v
    case List(_) => codec.marshal(v).Ok? && codec.unmarshal(codec.marshal(v).value) == Ok(v)
    case Object(_) => codec.marshal(v).Ok? && codec.unmarshal(codec.marshal(v).value) == Ok(v)
    case Strings(s) => codec.marshal(v).Ok? && codec.unmarshalStrings(codec.marshal(v).value) == Ok(s)
    case Numbers(s) => codec.marshal(v).Ok? && codec.unmarshalNumbers(codec.marshal(v).value) == Ok(s)
    case Date(t) => codec.parse(codec.format(t)) == Some(t)
    case _ => true
  }

  /** And of one text: printing it changes nothing, and it is not the JSON text of itself, which is
      longer by its quotes. */
  predicate KeepsText(codec: Codec, s: string) {
    codec.sprint(Text(s)) == s && codec.unmarshal(s) != Ok(Text(s))
  }

  function AsText(r: Result<string, string>): Result<Value, string> {
    match r
    case Ok(s) => Ok(Text(s))
    case Err(e) => Err(e)
  }

  /** Go sees a date as a struct, which a JSON field marshals like a map or a slice. */
  predicate Marshalled(v: Value) {
    IsContainer(v) || v.Strings? || v.Numbers? || v.Date?
  }

  function EncodeScalar(caps: Capabilities, codec: Codec, kind: FieldType, v: Value): Result<Value, string> {
    if v.Null? then Ok(Null)
    else
      match kind
      case JsonType => if !caps.json && Marshalled(v) then AsText(codec.marshal(v)) else Ok(v)
      case StringArrayType => if !caps.arrays then AsText(codec.marshal(v)) else Ok(v)
      case NumberArrayType => if !caps.arrays then AsText(codec.marshal(v)) else Ok(v)
      case DateType => if !caps.dates && v.Date? then Ok(Text(codec.format(v.instant))) else Ok(v)
      case BooleanType => if !caps.booleans && v.Boolean? then Ok(Integer(if v.truth then 1 else 0)) else Ok(v)
      case _ => Ok(v)
  }

  /** A date may arrive as text. */
  function ParsedDate(codec: Codec, kind: FieldType, v: Value): Value {
    if kind.DateType? && v.Text? && codec.parse(v.text).Some? then Date(codec.parse(v.text).value) else v
  }

  function Transformed(transform: Option<Value -> Result<Value, string>>, v: Value): Result<Value, string> {
    if transform.Some? then transform.value(v) else Ok(v)
  }

  function EncodeInput(caps: Capabilities, codec: Codec, f: Field, v: Value): Result<Value, string> {
    match Transformed(f.input, ParsedDate(codec, f.kind, v))
    case Err(e) => Err(e)
    case Ok(w) => EncodeScalar(caps, codec, f.kind, w)
  }

  function DecodeScalar(caps: Capabilities, codec: Codec, kind: FieldType, v: Value): Result<Value, string> {
    match kind
    case JsonType => if !caps.json && v.Text? then codec.unmarshal(v.text) else Ok(v)
    case StringArrayType =>
      if !caps.arrays && v.Text? then DecodedStrings(codec.unmarshalStrings(v.text)) else Ok(v)
    case NumberArrayType =>
      if !caps.arrays && v.Text? then DecodedNumbers(codec.unmarshalNumbers(v.text)) else Ok(v)
    case DateType =>
      if !caps.dates && v.Text? then
        if codec.parse(v.text).Some? then Ok(Date(codec.parse(v.text).value)) else Err("parse")
      else Ok(v)
    case BooleanType =>
      if !caps.booleans && v.Integer? then Ok(Boolean(v.integer == 1))
      else if !caps.booleans && v.Number? then Ok(Boolean(v.number == ONE))
      else Ok(v)
    case _ => Ok(v)
  }

  function DecodedStrings(r: Result<seq<string>, string>): Result<Value, string> {
    match r
    case Ok(s) => Ok(Strings(s))
    case Err(e) => Err(e)
  }

  function DecodedNumbers(r: Result<seq<Float>, string>): Result<Value, string> {
    match r
    case Ok(s) => Ok(Numbers(s))
    case Err(e) => Err(e)
  }

  function DecodeOutput(caps: Capabilities, codec: Codec, f: Field, v: Value): Result<Value, string> {
    match Transformed(f.output, v)
    case Err(e) => Err(e)
    case Ok(w) => if w.Null? then Ok(Null) else DecodeScalar(caps, codec, f.kind, w)
  }

  // ----- round trips

  predicate Plain(f: Field) {
    f.input.None? && f.output.None?
  }

  predicate WellTyped(kind: FieldType, v: Value) {
    match kind
    case StringType => v.Text?
    case EnumType => v.Text?
    case NumberType => v.Number? || v.Integer?
    case BooleanType => v.Boolean?
    case DateType => v.Date?
    case JsonType => Native(v) && IsContainer(v)
    case StringArrayType => v.Strings?
    case NumberArrayType => v.Numbers?
    case OtherType(_) => false
  }

  function RoundTrip(caps: Capabilities, codec: Codec, f: Field, v: Value): Result<Value, string> {
    match EncodeInput(caps, codec, f, v)
    case Err(e) => Err(e)
    case Ok(stored) => DecodeOutput(caps, codec, f, stored)
  }

  /** A well-typed value comes back as it was, whatever the backend cannot store. */
  lemma FieldRoundTrips(caps: Capabilities, codec: Codec, f: Field, v: Value)
    requires Keeps(codec, v) && Plain(f) && WellTyped(f.kind, v)
    ensures EncodeInput(caps, codec, f, v).Ok? && !EncodeInput(caps, codec, f, v).value.Null?
    ensures RoundTrip(caps, codec, f, v) == Ok(v)
  {
  }

  /** A JSON field takes every JSON value back except a string, and that only without the capability:
      the string is stored as it is and read as JSON text. */
  lemma JsonRoundTrips(caps: Capabilities, codec: Codec, f: Field, v: Value)
    requires Plain(f) && f.kind.JsonType? && Native(v) && Keeps(codec, v) && (v.Text? ==> KeepsText(codec, v.text))
    ensures RoundTrip(caps, codec, f, v) == Ok(v) <==> caps.json || !v.Text?
  {
    if IsContainer(v) { FieldRoundTrips(caps, codec, f, v); }
  }

  /** Null is stored as null and read as null. */
  lemma NullRoundTrips(caps: Capabilities, codec: Codec, f: Field)
    requires Plain(f)
    ensures EncodeInput(caps, codec, f, Null) == Ok(Null) && RoundTrip(caps, codec, f, Null) == Ok(Null)
  {
  }

  // ----- what the backend sees

  /** The backend can hold such a value. */
  predicate Supported(caps: Capabilities, v: Value) {
    && (v.Boolean? ==> caps.booleans) && (v.Date? ==> caps.dates)
    && (v.Strings? || v.Numbers? ==> caps.arrays) && (IsContainer(v) ==> caps.json)
  }

  /** A backend is never given a kind of value it cannot hold; and what it can hold, it is given as it is. */
  lemma StoredIsSupported(caps: Capabilities, codec: Codec, f: Field, v: Value)
    requires Keeps(codec, v) && Plain(f) && WellTyped(f.kind, v)
    ensures EncodeInput(caps, codec, f, v).Ok? && Supported(caps, EncodeInput(caps, codec, f, v).value)
    ensures Supported(caps, v) ==> EncodeInput(caps, codec, f, v) == Ok(v)
  {
  }

  /** Without booleans, true is stored as one and false as zero, and any other number reads as false. */
  lemma BooleansAreBits(caps: Capabilities, codec: Codec, f: Field, n: int)
    requires Plain(f) && f.kind == BooleanType && !caps.booleans
    ensures EncodeInput(caps, codec, f, Boolean(true)) == Ok(Integer(1))
    ensures EncodeInput(caps, codec, f, Boolean(false)) == Ok(Integer(0))
    ensures DecodeOutput(caps, codec, f, Integer(n)) == Ok(Boolean(n == 1))
  {
  }

  /** A date given as text that parses is stored as the date it stands for. */
  lemma TextualDate(caps: Capabilities, codec: Codec, f: Field, s: string, t: int)
    requires Plain(f) && f.kind == DateType && codec.parse(s) == Some(t)
    ensures EncodeInput(caps, codec, f, Text(s)) == EncodeInput(caps, codec, f, Date(t))
  {
  }

  // ----- such codecs exist

  function IndexOf(vs: seq<Value>, v: Value): (i: nat)
    ensures v in vs ==> i < |vs| && vs[i] == v
  {
    if vs == [] || vs[|vs| - 1] == v then (if vs == [] then 0 else |vs| - 1) else IndexOf(vs[..|vs| - 1], v)
  }

  function Longest(vs: seq<Value>): (n: nat)
    ensures forall i | 0 <= i < |vs| && vs[i].Text? :: |vs[i].text| <= n
  {
    if vs == [] then 0
    else
      var n, last := Longest(vs[..|vs| - 1]), vs[|vs| - 1];
      assert forall i | 0 <= i < |vs| - 1 :: vs[i] == vs[..|vs| - 1][i];
      if last.Text? && |last.text| > n then |last.text| else n
  }

  function Marks(n: nat): (s: string)
    ensures |s| == n
  {
    seq(n, _ => '#')
  }

  /** The value that a text longer than all of `vs` stands for. */
  function Listed(vs: seq<Value>, s: string): Option<Value> {
    var n := Longest(vs) + 1;
    if n <= |s| < n + |vs| then Some(vs[|s| - n]) else None
  }

  function Place(vs: seq<Value>, v: Value): string {
    Marks(Longest(vs) + 1 + IndexOf(vs, v))
  }

  lemma PlaceIsListed(vs: seq<Value>, v: Value)
    requires v in vs
    ensures Listed(vs, Place(vs, v)) == Some(v)
  {
  }

  lemma TextIsNotListed(vs: seq<Value>, v: Value)
    requires v in vs && v.Text?
    ensures Listed(vs, v.text) == None
  {
    var i :| 0 <= i < |vs| && vs[i] == v;
    assert |vs[i].text| <= Longest(vs);
  }

  /** A codec that numbers the values of `vs`. */
  function Numbering(vs: seq<Value>): Codec {
    Codec(
      v => Ok(Place(vs, v)),
      s => if Listed(vs, s).Some? then Ok(Listed(vs, s).value) else Err("value"),
      s => if Listed(vs, s).Some? && Listed(vs, s).value.Strings? then Ok(Listed(vs, s).value.strings) else Err("strings"),
      s => if Listed(vs, s).Some? && Listed(vs, s).value.Numbers? then Ok(Listed(vs, s).value.numbers) else Err("numbers"),
      t => Place(vs, Date(t)),
      s => if Listed(vs, s).Some? && Listed(vs, s).value.Date? then Some(Listed(vs, s).value.instant) else None,
      (v: Value) => if v.Text? then v.text else "")
  }

  /** Whatever values a record holds, some codec keeps them all. */
  lemma SomeCodecKeeps(vs: seq<Value>, v: Value)
    requires v in vs
    ensures Keeps(Numbering(vs), v) && (v.Text? ==> KeepsText(Numbering(vs), v.text))
  {
    PlaceIsListed(vs, v);
    if v.Text? { TextIsNotListed(vs, v); }
  }
}
