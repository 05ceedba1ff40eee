/** The JSON records the portal's tables show: one row is a record whose
    fields keep their order (`Object.keys` order), and a cell is any JSON value
    or `undefined` for a field the record lacks. */
module Json {
  import opened Text

  /** A cell value. For arrays and objects the two library renderings the
      pages use are carried as data: `json` is what `JSON.stringify` gives,
      `text` is what `String(...)` gives ("[object Object]", "1,2", ...). */
  datatype Value =
    | Null
    | Undefined
    | Bool(b: bool)
    | Num(n: int)
    | Str(s: string)
    | Obj(json: string, text: string)

  datatype Field = Field(key: string, value: Value)

  type Row = seq<Field>

  /** `Object.keys(row)`. */
  function Keys(row: Row): (ks: seq<string>)
    ensures |ks| == |row|
    ensures forall i :: 0 <= i < |row| ==> ks[i] == row[i].key
  {
    seq(|row|, i requires 0 <= i < |row| => row[i].key)
  }

  /** `Object.values(row)`. */
  function Values(row: Row): (vs: seq<Value>)
    ensures |vs| == |row|
    ensures forall i :: 0 <= i < |row| ==> vs[i] == row[i].value
  {
    seq(|row|, i requires 0 <= i < |row| => row[i].value)
  }

  /** `row[key]`: the value of the first field with that key, `undefined` when there is none. */
  function Get(row: Row, key: string): (v: Value)
    ensures (forall i :: 0 <= i < |row| ==> row[i].key != key) ==> v == Undefined
    ensures forall i :: 0 <= i < |row| && row[i].key == key && (forall j :: 0 <= j < i ==> row[j].key != key)
              ==> v == row[i].value
    decreases |row|
  {
    if row == [] then Undefined
    else if row[0].key == key then row[0].value
    else
      var v := Get(row[1..], key);
      assert forall i :: 1 <= i < |row| ==> row[i] == row[1..][i - 1];
      v
  }

  /** `String(v)`. */
  function StringOf(v: Value): (s: string)
    ensures v.Str? ==> s == v.s
    ensures v.Num? ==> s == IntToString(v.n)
  {
    match v
    case Null => "null"
    case Undefined => "undefined"
    case Bool(b) => if b then "true" else "false"
    case Num(n) => IntToString(n)
    case Str(s) => s
    case Obj(_, text) => text
  }

  /** The text a table cell shows (`formatCell` of the Data page), which is
      also the text the CSV export writes before escaping: nothing for a missing
      value, JSON text for an object, `String(v)` for anything else. */
  function FormatCell(v: Value): (s: string)
    ensures v.Null? || v.Undefined? ==> s == ""
    ensures v.Obj? ==> s == v.json
    ensures !(v.Null? || v.Undefined? || v.Obj?) ==> s == StringOf(v)
  {
    match v
    case Null => ""
    case Undefined => ""
    case Obj(json, _) => json
    case _ => StringOf(v)
  }
}
