/** Structured values: what `JSON.parse` yields and what request bodies hold. */
module Json {

  datatype Value =
    | Null
    | Bool(b: bool)
    | Number(n: int)
    | Str(s: string)
    | Array(items: seq<Value>)
    | Object(members: seq<(string, Value)>)

  /** `{}` */
  const EmptyObject: Value := Object([])
}
