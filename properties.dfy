/** The enumerations and the property/status data model of the client.
    Property and status records are tagged unions: the value kind is the
    variant, never a separately stored field. Fields the wire format leaves
    untyped keep their JSON value. */
module Properties {
  import opened Json
  import opened Wrappers

  /** The value kind discriminator and its wire strings. */
  datatype ValueType = Single | Binary | Range {
    function Wire(): string
    {
      match this
      case Single => "valueSingle"
      case Binary => "valueBinary"
      case Range => "valueRange"
    }
  }

  /** `ValueType(x)`: only the three wire strings are members. */
  function ValueTypeFromWire(j: Json): (r: Result<ValueType>)
    ensures r.Ok? ==> j == JStr(r.value.Wire())
    ensures r.Err? ==> r.error == ValueError(j)
  {
    if j == JStr("valueSingle") then Ok(Single)
    else if j == JStr("valueBinary") then Ok(Binary)
    else if j == JStr("valueRange") then Ok(Range)
    else Err(ValueError(j))
  }

  /** The enumeration has exactly three members, with distinct wire strings,
      and constructing it succeeds exactly on those strings. */
  lemma ValueTypeMembers(j: Json)
    ensures Single.Wire() != Binary.Wire() && Binary.Wire() != Range.Wire() && Single.Wire() != Range.Wire()
    ensures forall v: ValueType :: ValueTypeFromWire(JStr(v.Wire())) == Ok(v)
    ensures ValueTypeFromWire(j).Ok? <==> j in {JStr("valueSingle"), JStr("valueBinary"), JStr("valueRange")}
  {
  }

  /** The device type a box's label reports. */
  datatype DeviceType = Unknown | AirCondition | AirCleaner {
    function Wire(): string
    {
      match this
      case Unknown => "UNKNOWN"
      case AirCondition => "AIR_CON"
      case AirCleaner => "AIR_CLEANER"
    }
  }

  /** `DeviceType(s)`. */
  function DeviceTypeFromWire(j: Json): (r: Result<DeviceType>)
    ensures r.Ok? <==> j in {JStr("UNKNOWN"), JStr("AIR_CON"), JStr("AIR_CLEANER")}
    ensures r.Ok? ==> j == JStr(r.value.Wire())
    ensures r.Err? ==> r.error == ValueError(j)
  {
    if j == JStr("UNKNOWN") then Ok(Unknown)
    else if j == JStr("AIR_CON") then Ok(AirCondition)
    else if j == JStr("AIR_CLEANER") then Ok(AirCleaner)
    else Err(ValueError(j))
  }

  /** The numeric type of a range property. The source declares this
      enumeration twice with the same members; the second declaration
      replaces the first, so there is one type here. */
  datatype RangePropertyType = Int | Float {
    function Wire(): string
    {
      match this
      case Int => "int"
      case Float => "float"
    }
  }

  /** `RangePropertyType(s)`. */
  function RangePropertyTypeFromWire(j: Json): (r: Result<RangePropertyType>)
    ensures r.Ok? <==> j in {JStr("int"), JStr("float")}
    ensures r.Ok? ==> j == JStr(r.value.Wire())
    ensures r.Err? ==> r.error == ValueError(j)
  {
    if j == JStr("int") then Ok(Int)
    else if j == JStr("float") then Ok(Float)
    else Err(ValueError(j))
  }

  /** A capability description. Every variant carries `statusName`,
      `statusCode`, `get`, `set` (here `canGet`, `canSet`) and `inf`;
      `valueType` is the variant.
      `Single` adds its list of `{name, code}` maps, `Range` its one map of
      bounds, `Binary` nothing. */
  datatype Property =
    | SingleProperty(statusName: Json, statusCode: Json, canGet: Json, canSet: Json, inf: Json,
                     valueSingle: Json)
    | BinaryProperty(statusName: Json, statusCode: Json, canGet: Json, canSet: Json, inf: Json)
    | RangeProperty(statusName: Json, statusCode: Json, canGet: Json, canSet: Json, inf: Json,
                    valueRange: Json)
  {
    function valueType(): ValueType
    {
      match this
      case SingleProperty(_, _, _, _, _, _) => Single
      case BinaryProperty(_, _, _, _, _) => Binary
      case RangeProperty(_, _, _, _, _, _) => Range
    }
  }

  /** A current value: one payload map named after its kind. */
  datatype PropertyStatus =
    | SinglePropertyStatus(statusCode: Json, valueSingle: Json)
    | BinaryPropertyStatus(statusCode: Json, valueBinary: Json)
    | RangePropertyStatus(statusCode: Json, valueRange: Json)
  {
    function valueType(): ValueType
    {
      match this
      case SinglePropertyStatus(_, _) => Single
      case BinaryPropertyStatus(_, _) => Binary
      case RangePropertyStatus(_, _) => Range
    }

    function Payload(): Json
    {
      match this
      case SinglePropertyStatus(_, p) => p
      case BinaryPropertyStatus(_, p) => p
      case RangePropertyStatus(_, p) => p
    }
  }
}
