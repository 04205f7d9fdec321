/** JavaScript values as the optimistic-update helpers observe them: what
    `typeof`, truthiness, a property read, `Object.keys` and the conversion
    of a value to a property key say about a value. */
module JsValue {

  datatype Option<T> = None | Some(value: T)

  /** A JavaScript value. Numbers are integers in this model; functions,
      symbols and objects with a prototype of their own do not occur. */
  datatype Value =
    | Undefined
    | Null
    | Bool(b: bool)
    | Num(n: int)
    | Str(s: string)
    | Arr(items: seq<Value>)
    | Obj(fields: map<string, Value>)

  /** The own enumerable properties of a plain object: an entity record,
      a `changes` object or a rollback snapshot. */
  type Fields = map<string, Value>

  /** The strings `typeof` can give for the values here: "undefined",
      "boolean", "number", "string" and "object". */
  datatype TypeTag = UndefinedType | BooleanType | NumberType | StringType | ObjectType

  /** The result of the `typeof` operator: null and arrays are "object". */
  function TypeOf(v: Value): TypeTag
  {
    match v
    case Undefined => UndefinedType
    case Bool(_) => BooleanType
    case Num(_) => NumberType
    case Str(_) => StringType
    case _ => ObjectType
  }

  /** ToBoolean: undefined, null, false, 0 and "" are the falsy values. */
  predicate Truthy(v: Value)
  {
    match v
    case Undefined => false
    case Null => false
    case Bool(b) => b
    case Num(n) => n != 0
    case Str(s) => s != ""
    case _ => true
  }

  /** `record[key]`: the stored value, or undefined when the key is absent. */
  function Lookup(record: Fields, key: string): Value
  {
    if key in record then record[key] else Undefined
  }

  /** `v.name`, for a value that is neither null nor undefined and a name
      that is neither an array index nor `length`: only a plain object can
      own such a property. */
  function Prop(v: Value, name: string): Value
  {
    if v.Obj? then Lookup(v.fields, name) else Undefined
  }

  function Digit(d: nat): char
    requires d < 10
  {
    "0123456789"[d]
  }

  /** The decimal numeral of `n`. */
  function Decimal(n: nat): string
  {
    if n < 10 then [Digit(n)] else Decimal(n / 10) + [Digit(n % 10)]
  }

  /** `String(n)` for an integer. */
  function NumberToString(n: int): string
  {
    if n < 0 then "-" + Decimal(-n) else Decimal(n)
  }

  /** The properties "0", "1", ... of an array-like value. */
  function Indexed(items: seq<Value>): Fields
  {
    if items == [] then map[]
    else Indexed(items[..|items| - 1])[Decimal(|items| - 1) := items[|items| - 1]]
  }

  /** What `Object.keys(v)` and `Object.assign(target, v)` see of `v`:
      None where converting `v` to an object throws. */
  function OwnProps(v: Value): (r: Option<Fields>)
    ensures r.None? <==> v.Undefined? || v.Null?
    ensures v.Obj? ==> r == Some(v.fields)
  {
    match v
    case Undefined => None
    case Null => None
    case Bool(_) => Some(map[])
    case Num(_) => Some(map[])
    case Str(s) => Some(Indexed(seq(|s|, i requires 0 <= i < |s| => Str([s[i]]))))
    case Arr(items) => Some(Indexed(items))
    case Obj(f) => Some(f)
  }

  /** The property key that `o[v]` reads, that is `String(v)`: array
      elements are joined with commas, undefined and null elements giving
      the empty string. */
  function ToPropertyKey(v: Value): string
  {
    match v
    case Undefined => "undefined"
    case Null => "null"
    case Bool(b) => if b then "true" else "false"
    case Num(n) => NumberToString(n)
    case Str(s) => s
    case Arr(items) =>
      Join(seq(|items|, i requires 0 <= i < |items| =>
        if items[i].Undefined? || items[i].Null? then "" else ToPropertyKey(items[i])))
    case Obj(_) => "[object Object]"
  }

  function Join(parts: seq<string>): string
  {
    if |parts| <= 1 then (if parts == [] then "" else parts[0])
    else Join(parts[..|parts| - 1]) + "," + parts[|parts| - 1]
  }
}
