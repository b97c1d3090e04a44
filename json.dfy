/** Decoded JSON values as the marking code sees them after `json.loads`:
    objects keep their keys in document order. Decoding itself is not
    modelled; a decoder is a parameter of the operations that call it. */
module Json {
  import opened Wrappers
  import Dict

  datatype Json =
    | Null
    | Bool(b: bool)
    | Num(n: real)
    | Str(s: string)
    | Arr(items: seq<Json>)
    | Obj(fields: Dict.Dict<Json>)

  /** What `json.loads` did with a text: a value, the "Extra data" error at
      a position, or any other decoding error. */
  datatype Decoded =
    | Parsed(value: Json)
    | ExtraData(pos: nat, msg: string)
    | Malformed(msg: string)

  type Decoder = string -> Decoded

  /** `obj.get(key)` on an object; any other value has no keys. */
  function Field(j: Json, key: string): (r: Option<Json>)
    ensures j.Obj? ==> r == Dict.Get(j.fields, key)
    ensures !j.Obj? ==> r.None?
  {
    if j.Obj? then Dict.Get(j.fields, key) else None
  }

  /** `obj.get(key, default)`. */
  function FieldOr(j: Json, key: string, default: Json): (r: Json)
    ensures Field(j, key).Some? ==> r == Field(j, key).value
    ensures Field(j, key).None? ==> r == default
  {
    Field(j, key).GetOr(default)
  }

  /** Python truthiness of a decoded value. */
  predicate Truthy(j: Json)
  {
    match j
    case Null => false
    case Bool(b) => b
    case Num(n) => n != 0.0
    case Str(s) => |s| > 0
    case Arr(items) => |items| > 0
    case Obj(fields) => |fields| > 0
  }

  /** An object holding only text values, as the collected code and
      document dictionaries are. */
  function StrObj(d: Dict.Dict<string>): (r: Json)
    ensures r.Obj? && |r.fields| == |d|
    ensures forall i :: 0 <= i < |d| ==> r.fields[i] == (d[i].0, Str(d[i].1))
  {
    if |d| == 0 then Obj([])
    else Obj([(d[0].0, Str(d[0].1))] + StrObj(d[1..]).fields)
  }
}
