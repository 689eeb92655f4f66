/** JSON values as the OpenAPI code sees them.  The members of an object have no order, and
    an absent member reads as undefined. */
module Json {

  datatype Json =
    | Undefined
    | Null
    | Bool(b: bool)
    | Num(n: int)
    | Str(s: string)
    | Arr(items: seq<Json>)
    | Obj(fields: map<string, Json>)

  /** Whether the object has the member, be it undefined. */
  predicate Has(j: Json, key: string) { j.Obj? && key in j.fields }

  function Get(j: Json, key: string): Json {
    if Has(j, key) then j.fields[key] else Undefined
  }
}
