/**
 * The decoded form of a JSON payload, and the keyed-container operations of Swift's
 * `JSONDecoder` that the core's `init(from:)` initialisers use. Turning bytes into a
 * `Value` (and back) is the JSON text codec, which is outside the model.
 */
module Json {
  import opened Wrappers

  /** A JSON document; numbers are modelled as integers only. */
  datatype Value =
    | Null
    | Bool(b: bool)
    | Number(n: int)
    | Str(s: string)
    | Array(items: seq<Value>)
    | Object(fields: map<string, Value>)

  type Fields = map<string, Value>

  /** The cases of Swift's `DecodingError`, each naming the key it is about. */
  datatype DecodeError =
    | KeyNotFound(key: string)
    | ValueNotFound(key: string)
    | TypeMismatch(key: string)
    | DataCorrupted(key: string)

  /** Range of Swift's 64-bit `Int`. */
  const IntMin: int := -0x8000_0000_0000_0000
  const IntMax: int := 0x7FFF_FFFF_FFFF_FFFF

  /** `decoder.container(keyedBy:)`: the value must be an object. */
  function Container(doc: Value, key: string): (r: Result<Fields, DecodeError>)
    ensures r.Success? <==> doc.Object?
    ensures r.Success? ==> r.value == doc.fields
  {
    if doc.Object? then Success(doc.fields) else Failure(TypeMismatch(key))
  }

  /** `container.decode(String.self, forKey:)`. */
  function GetString(fields: Fields, key: string): (r: Result<string, DecodeError>)
    ensures r.Success? <==> key in fields && fields[key].Str?
    ensures r.Success? ==> fields[key] == Str(r.value)
  {
    if key !in fields then Failure(KeyNotFound(key))
    else match fields[key]
      case Null => Failure(ValueNotFound(key))
      case Str(s) => Success(s)
      case _ => Failure(TypeMismatch(key))
  }

  /** `container.decode(Int.self, forKey:)`: a number that does not fit is corrupted data. */
  function GetInt(fields: Fields, key: string): (r: Result<int, DecodeError>)
    ensures r.Success? <==> key in fields && fields[key].Number? && IntMin <= fields[key].n <= IntMax
    ensures r.Success? ==> fields[key] == Number(r.value)
  {
    if key !in fields then Failure(KeyNotFound(key))
    else match fields[key]
      case Null => Failure(ValueNotFound(key))
      case Number(n) => if IntMin <= n <= IntMax then Success(n) else Failure(DataCorrupted(key))
      case _ => Failure(TypeMismatch(key))
  }

  /** The key lookup shared by every nested `container.decode(T.self, forKey:)`: present and not null. */
  function GetValue(fields: Fields, key: string): (r: Result<Value, DecodeError>)
    ensures r.Success? <==> key in fields && !fields[key].Null?
    ensures r.Success? ==> r.value == fields[key]
  {
    if key !in fields then Failure(KeyNotFound(key))
    else if fields[key].Null? then Failure(ValueNotFound(key))
    else Success(fields[key])
  }

  /** `container.decode(T.self, forKey:)` for a nested keyed type: the value must be an object. */
  function GetObject(fields: Fields, key: string): (r: Result<Fields, DecodeError>)
    ensures r.Success? <==> key in fields && fields[key].Object?
    ensures r.Success? ==> fields[key] == Object(r.value)
  {
    if key !in fields then Failure(KeyNotFound(key))
    else match fields[key]
      case Null => Failure(ValueNotFound(key))
      case Object(m) => Success(m)
      case _ => Failure(TypeMismatch(key))
  }
}
