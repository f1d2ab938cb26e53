/** JSON values as the ACP client sees them after parsing, with the accessors it uses. */
module Json {
  import opened Options

  datatype Value =
    | Null
    | Bool(b: bool)
    | Int(n: int)
    | Float(r: real)
    | Str(s: string)
    | Arr(items: seq<Value>)
    | Obj(fields: map<string, Value>)

  /** `value.get(key)`: absent on anything but an object that holds the key. */
  function Get(v: Value, key: string): Option<Value> {
    if v.Obj? && key in v.fields then Some(v.fields[key]) else None
  }

  /** `value[key]`: like `Get`, with `Null` for an absent key. */
  function At(v: Value, key: string): Value {
    if v.Obj? && key in v.fields then v.fields[key] else Null
  }

  function AsStr(v: Option<Value>): Option<string> {
    if v.Some? && v.value.Str? then Some(v.value.s) else None
  }

  /** `as_i64`: only numbers that fit a signed 64-bit integer. */
  function AsI64(v: Option<Value>): Option<int> {
    if v.Some? && v.value.Int? && -0x8000_0000_0000_0000 <= v.value.n < 0x8000_0000_0000_0000
    then Some(v.value.n) else None
  }
}
