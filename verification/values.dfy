/** JavaScript values as they appear in the flat records the views export
    and in form fields: truthiness and conversion to text. */
module Values {
  import opened Text

  /** A string, a number (whole numbers here), a boolean, or null. */
  datatype Value = Str(s: string) | Num(n: int) | Bool(b: bool) | Null

  /** The values `||` skips: `""`, `0`, `false`, `null` (and `undefined`,
      which is a missing key). */
  predicate Falsy(v: Value) {
    match v
    case Str(s) => s == ""
    case Num(n) => n == 0
    case Bool(b) => !b
    case Null => true
  }

  /** `v.toString()`. */
  function ToText(v: Value): (r: string)
    ensures r == "" <==> v == Str("")
  {
    match v
    case Str(s) => s
    case Num(n) => IntToString(n)
    case Bool(b) => if b then "true" else "false"
    case Null => "null"
  }

  /** A flat record: field name to value; a missing key reads as `undefined`. */
  type Record = map<string, Value>

  /** `(item[header] || "").toString()`: the text of a present, truthy
      field, and the empty string for a missing or falsy one. */
  function FieldText(item: Record, header: string): (r: string)
    ensures r == "" <==> header !in item || Falsy(item[header])
    ensures header in item && !Falsy(item[header]) ==> r == ToText(item[header])
  {
    if header in item && !Falsy(item[header]) then ToText(item[header]) else ""
  }
}
