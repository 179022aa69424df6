/** The Sparkplug B protobuf message as a datatype: optional fields and a
    one-of value.  Bytes on the wire, meta data, data sets and templates are not
    part of this model. */
module Wire {
  import opened Text
  import opened OrderedMap

  // ------------------------------------------------------------ metric types

  /** The enumerators of `MetricType`, by their numbers. */
  type MetricType = t: nat | t <= 34

  const UNKNOWN: MetricType := 0
  const INT8: MetricType := 1
  const INT64: MetricType := 4
  const UINT8: MetricType := 5
  const UINT32: MetricType := 7
  const UINT64: MetricType := 8
  const FLOAT: MetricType := 9
  const DOUBLE: MetricType := 10
  const BOOLEAN: MetricType := 11
  const STRING: MetricType := 12
  const DATE_TIME: MetricType := 13

  /** `ProtobufDataTypeToMetricType`: both numberings agree on 0..34. */
  function TypeOfCode(code: nat): MetricType {
    if code <= 34 then code else UNKNOWN
  }

  /** The accessor and wire field that the writer's `switch` picks. */
  datatype Kind = S32 | S64 | U32 | U64 | F32 | F64 | Flag | Chars

  function MetricKind(t: MetricType): Kind {
    if 1 <= t <= 3 then S32
    else if t == INT64 then S64
    else if UINT8 <= t <= UINT32 then U32
    else if t == UINT64 then U64
    else if t == FLOAT then F32
    else if t == DOUBLE then F64
    else if t == BOOLEAN then Flag
    else Chars
  }

  /** Properties differ from metrics in one case: DateTime is a 64-bit number. */
  function PropertyKind(t: MetricType): Kind {
    if t == DATE_TIME then U64 else MetricKind(t)
  }

  predicate IsFloat(k: Kind) {
    k == F32 || k == F64
  }

  /** Readers of metrics take the wire integer as signed for these types. */
  predicate MetricSigned(t: MetricType) {
    INT8 <= t <= INT64
  }

  /** Readers of properties also do so for the two floating-point types. */
  predicate PropertySigned(t: MetricType) {
    MetricSigned(t) || t == FLOAT || t == DOUBLE
  }

  // ---------------------------------------------------------------- messages

  /** A floating-point number is carried as the text it prints to. */
  datatype Scalar =
    | Absent
    | IntValue(i: u32)
    | LongValue(l: u64)
    | FloatValue(f: string)
    | DoubleValue(d: string)
    | BoolValue(b: bool)
    | StringValue(s: string)
    | BytesValue(bytes: string)

  datatype PropertyContent = Plain(scalar: Scalar) | Nested(props: PropertySet)

  datatype PropertyValue = PropertyValue(ptype: Option<nat>, isNull: Option<bool>, content: PropertyContent)

  datatype PropertySet = PropertySet(keys: seq<string>, values: seq<PropertyValue>)

  datatype MetricEntry = MetricEntry(
    name: Option<string>,
    alias: Option<nat>,
    timestamp: Option<nat>,
    datatypeCode: Option<nat>,
    historical: Option<bool>,
    transient: Option<bool>,
    isNull: Option<bool>,
    value: Scalar,
    properties: Option<PropertySet>)

  datatype Message = Message(timestamp: Option<nat>, seqNo: Option<nat>, uuid: Option<string>, metrics: seq<MetricEntry>)

  // ------------------------------------------------------------ value codec

  /** The typed reading of a stored text. */
  datatype Typed = Whole(n: int) | Truth(b: bool) | Verbatim(s: string)

  function Read(k: Kind, text: string): Typed {
    match k
    case S32 => Whole(ReadSigned(TWO_31, text))
    case S64 => Whole(ReadSigned(TWO_63, text))
    case U32 => Whole(ReadUnsigned(TWO_32, text))
    case U64 => Whole(ReadUnsigned(TWO_64, text))
    case Flag => Truth(ReadBool(text))
    case F32 | F64 | Chars => Verbatim(text)
  }

  /** The writer's `switch`: read the text at the width of the type and cast it
      into the unsigned wire field. */
  function Encode(k: Kind, text: string): Scalar {
    match k
    case S32 => IntValue(ToU32(ReadSigned(TWO_31, text)))
    case S64 => LongValue(ToU64(ReadSigned(TWO_63, text)))
    case U32 => IntValue(ReadUnsigned(TWO_32, text))
    case U64 => LongValue(ReadUnsigned(TWO_64, text))
    case F32 => FloatValue(text)
    case F64 => DoubleValue(text)
    case Flag => BoolValue(ReadBool(text))
    case Chars => StringValue(text)
  }

  /** The text a reader stores for a wire value (metrics split strings further). */
  function Decode(signed: bool, v: Scalar): string {
    match v
    case Absent => ""
    case IntValue(i) => Print(if signed then FromU32(i) else i)
    case LongValue(l) => Print(if signed then FromU64(l) else l)
    case FloatValue(f) => f
    case DoubleValue(d) => d
    case BoolValue(b) => PrintBool(b)
    case StringValue(s) => s
    case BytesValue(s) => s
  }

  lemma ReadSignedPrint(limit: int, n: int)
    requires -limit <= n < limit
    ensures ReadSigned(limit, Print(n)) == n
  {
    ScanPrint(n);
  }

  lemma ReadUnsignedPrint(size: int, n: int)
    requires 0 <= n < size
    ensures ReadUnsigned(size, Print(n)) == n
  {
    ScanPrint(n);
  }

  /** Whatever text the writer holds (in range or not, a number or not), the
      text stored by the reader reads back as the same typed value. */
  lemma ValueRoundTrip(k: Kind, signed: bool, text: string)
    requires !IsFloat(k) && (signed <==> k == S32 || k == S64)
    ensures Read(k, Decode(signed, Encode(k, text))) == Read(k, text)
  {
    match k {
      case S32 => ReadSignedPrint(TWO_31, ReadSigned(TWO_31, text));
      case S64 => ReadSignedPrint(TWO_63, ReadSigned(TWO_63, text));
      case U32 => ReadUnsignedPrint(TWO_32, ReadUnsigned(TWO_32, text));
      case U64 => ReadUnsignedPrint(TWO_64, ReadUnsigned(TWO_64, text));
      case _ =>
    }
  }

  /** The narrow `Value<int8_t>()` accessor is not carried over for every text:
      the copy reads differently exactly when the number exceeds 2^31 - 1. */
  lemma NarrowReadRoundTrip(text: string)
    ensures ReadInt8(Decode(true, Encode(S32, text))) == ReadInt8(text) <==> Scan(text).Value() < TWO_31
  {
    var v := Scan(text).Value();
    var c := ReadSigned(TWO_31, text);
    ScanPrint(c);
    assert Decode(true, Encode(S32, text)) == Print(c);
    assert Scan(Print(c)).Value() == c;
    assert ReadInt8(Print(c)) == CastInt8(c);
    CastAtTheEdges();
  }

  lemma CastAtTheEdges()
    ensures CastInt8(TWO_31 - 1) == -1 && CastInt8(-TWO_31) == 0
  {
  }
}
