/**
 * JSON as values. Whitespace, key order and number spelling inside opaque fields carry no claim;
 * a number keeps its literal so that integer decoding can be exact.
 */
module Json {
  import opened Options
  import opened Text

  datatype Json =
    | Null
    | Bool(value: bool)
    | Number(literal: string)
    | String(text: string)
    | Array(items: seq<Json>)
    | Object(fields: map<string, Json>)

  type Fields = map<string, Json>

  /** Decoding into a string variable that starts empty: null is a no-op. */
  function AsString(j: Json): Option<string> {
    match j
    case String(s) => Some(s)
    case Null => Some("")
    case _ => None
  }

  /** Decoding into a bool variable that starts false: null is a no-op. */
  function AsBool(j: Json): Option<bool> {
    match j
    case Bool(b) => Some(b)
    case Null => Some(false)
    case _ => None
  }

  /** Decoding a number into an int variable; None covers null and every mismatch, which leave it alone. */
  function AsInt(j: Json): Option<int> {
    match j
    case Number(lit) => if lit != "" && lit[0] == '+' then None else Atoi(lit)
    case _ => None
  }

  /** A string field of a struct that starts zeroed: a missing, null or mistyped field leaves it empty. */
  function StringField(fields: Fields, name: string): string {
    if name in fields && fields[name].String? then fields[name].text else ""
  }

  /** Whether decoding a struct with one string field of this name raises no error for that field. */
  predicate StringFieldDecodes(fields: Fields, name: string) {
    name in fields ==> fields[name].String? || fields[name].Null?
  }
}
