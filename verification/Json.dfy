/** JSON values, as the relay handles upstream responses. */
module Json {

  datatype Json =
    | Null
    | Bool(b: bool)
    | Num(n: real)
    | Str(s: string)
    | Arr(items: seq<Json>)
    | Obj(fields: map<string, Json>)

  /** `key in value`, for a value that may not be an object. */
  predicate Has(j: Json, key: string) {
    j.Obj? && key in j.fields
  }

  /** `value.get(key)`, where a missing key and a null read the same. */
  function Get(j: Json, key: string): Json {
    if Has(j, key) then j.fields[key] else Null
  }
}
