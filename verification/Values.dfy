/** The dynamic values a record holds. */
module Values {
  /** A float64, by its bits. */
  type Float = bits: nat | bits < 0x1_0000_0000_0000_0000

  const ONE: Float := 0x3FF0_0000_0000_0000

  datatype Value =
    | Null
    | Text(text: string)
    | Number(number: Float)
    | Integer(integer: int)
    | Boolean(truth: bool)
    | Date(instant: int)
    | Strings(strings: seq<string>)
    | Numbers(numbers: seq<Float>)
    | List(items: seq<Value>)
    | Object(entries: map<string, Value>)

  /** A value as JSON decoding produces it. */
  predicate Native(v: Value) {
    match v
    case Null => true
    case Text(_) => true
    case Number(_) => true
    case Boolean(_) => true
    case List(items) => forall i | 0 <= i < |items| :: Native(items[i])
    case Object(entries) => forall k | k in entries :: Native(entries[k])
    case Integer(_) => false
    case Date(_) => false
    case Strings(_) => false
    case Numbers(_) => false
  }
}
