/**
 * The cast rules of the transform layer: a `TypeCast` target turns a JSON
 * value or a typed value into a typed value of the target's type, or fails.
 * Scalars go through one function per source type; arrays are cast element
 * by element, and an array may not hold arrays or objects.
 *
 * Float parsing and printing, base64, IP address text and the `time` crate
 * are libraries this model does not contain; they enter as the fields of a
 * `Primitives` record, so every property below holds whatever they do.
 */
module TypeCasts {
  import opened Wrappers
  import opened MachineInts
  import opened Decimal
  import J = JsonValue
  import V = TypedValue

  /** The unit of an integer timestamp. */
  datatype TimestampResolution = Seconds | Millis | Micros

  /** A text format for date-times; `Custom` keeps the text it was described by. */
  datatype DateTimeFormat = Rfc2822 | Rfc3339 | Custom(format: string, display: string)

  /** How a `datetime` target reads integers (if at all) and strings (first matching format wins). */
  datatype DateTimeParser = DateTimeParser(resolution: Option<TimestampResolution>, stringFormats: seq<DateTimeFormat>)

  /** The target types of a cast. */
  datatype TypeCast = String | U64 | I64 | F64 | Bytes | Bool | DateTime(parser: DateTimeParser) | IpAddr

  /** The type of the value a cast was given, as its error reports it. */
  datatype ValueKind = NullKind | StrKind | U64Kind | I64Kind | F64Kind | BoolKind | DateTimeKind | IpKind | BytesKind | ArrayKind | ObjectKind

  /** Why a cast failed; `target` is the target's `type_name`. */
  datatype CastError =
    | Unsupported(source: ValueKind, target: string)       // no rule from this source type to this target
    | InvalidValue(source: ValueKind, target: string)      // the string does not parse as the target type
    | NotRepresentable(source: ValueKind, target: string)  // the integer is out of the target's range
    | NestedCollection(source: ValueKind, target: string)  // an array element is an array or an object
    | NoMatchingFormat                                      // no string format of the parser matched
    | NoTimestampResolution                                 // the parser does not read integers
    | TimestampOutOfRange                                   // the timestamp is beyond the date-time range
    | RenderFailed                                          // the date-time has no RFC 3339 text

  /** The library operations the casts call. */
  datatype Primitives = Primitives(
    parseF64: string -> Option<F64Bits>,
    formatF64: F64Bits -> string,
    decodeBase64: string -> Option<seq<u8>>,
    parseIpv4: string -> Option<V.Ipv4Addr>,
    parseIpv6: string -> Option<V.Ipv6Addr>,
    formatIpv4: V.Ipv4Addr -> string,
    formatIpv6: V.Ipv6Addr -> string,
    formatRfc3339: V.DateTime -> Option<string>,
    parseDateTime: (DateTimeFormat, string) -> Option<V.DateTime>,
    fromSecs: i64 -> Option<V.DateTime>,
    fromMillis: i64 -> Option<V.DateTime>,
    fromMicros: i64 -> Option<V.DateTime>)

  // ---------------------------------------------------------------------
  // Names
  // ---------------------------------------------------------------------

  function ResolutionName(r: TimestampResolution): string
  {
    match r
    case Seconds => "unix_seconds"
    case Millis => "unix_millis"
    case Micros => "unix_micros"
  }

  /** `Debug` of one character inside a quoted string. */
  function EscapeChar(c: char): string
  {
    if c == '"' then "\\\""
    else if c == '\\' then "\\\\"
    else if c == '\n' then "\\n"
    else if c == '\r' then "\\r"
    else if c == '\t' then "\\t"
    else if c == '\0' then "\\0"
    else [c]
  }

  function Escape(s: string): string
  {
    if s == [] then [] else Escape(s[..|s| - 1]) + EscapeChar(s[|s| - 1])
  }

  /** `Debug` of a string: quoted, with quotes, backslashes and control characters escaped. */
  function DebugString(s: string): string
  {
    "\"" + Escape(s) + "\""
  }

  function FormatName(f: DateTimeFormat): string
  {
    match f
    case Rfc2822 => "rfc2822"
    case Rfc3339 => "rfc3339"
    case Custom(_, display) => "custom<" + DebugString(display) + ">"
  }

  function FormatNames(fs: seq<DateTimeFormat>): (r: seq<string>)
    ensures |r| == |fs|
    ensures forall i :: 0 <= i < |fs| ==> r[i] == FormatName(fs[i])
  {
    if fs == [] then [] else FormatNames(fs[..|fs| - 1]) + [FormatName(fs[|fs| - 1])]
  }

  /** What a parser accepts, in order: its resolution (if any), then its string formats. */
  function FormatList(p: DateTimeParser): seq<string>
  {
    (if p.resolution.Some? then [ResolutionName(p.resolution.value)] else []) + FormatNames(p.stringFormats)
  }

  /** `join`: the parts with `sep` between neighbours. */
  function Join(parts: seq<string>, sep: string): string
  {
    if parts == [] then ""
    else if |parts| == 1 then parts[0]
    else Join(parts[..|parts| - 1], sep) + sep + parts[|parts| - 1]
  }

  /** `type_name` of a target. */
  function TypeName(cast: TypeCast): string
  {
    match cast
    case String => "string"
    case U64 => "u64"
    case I64 => "i64"
    case F64 => "f64"
    case Bytes => "bytes"
    case Bool => "bool"
    case DateTime(p) => "datetime<" + Join(FormatList(p), ",") + ">"
    case IpAddr => "ip"
  }

  /** `supported_formats`: the resolution's name, then each format's name, joined by commas. */
  method SupportedFormats(p: DateTimeParser) returns (s: string)
    ensures s == Join(FormatList(p), ",")
  {
    var elements: seq<string> := [];
    if p.resolution.Some? {
      elements := elements + [ResolutionName(p.resolution.value)];
    }
    var prefix := elements;
    var i := 0;
    while i < |p.stringFormats|
      invariant 0 <= i <= |p.stringFormats|
      invariant elements == prefix + FormatNames(p.stringFormats[..i])
    {
      assert p.stringFormats[..i + 1][..i] == p.stringFormats[..i];
      elements := elements + [FormatName(p.stringFormats[i])];
      i := i + 1;
    }
    assert p.stringFormats[..i] == p.stringFormats;
    assert elements == FormatList(p);
    s := Join(elements, ",");
  }

  // ---------------------------------------------------------------------
  // The date-time parser
  // ---------------------------------------------------------------------

  /** The `Default` parser: no resolution, no formats. */
  function DefaultParser(): DateTimeParser
  {
    DateTimeParser(None, [])
  }

  /** `with_timestamp_resolution`: integers are read in `res`, replacing any earlier resolution. */
  function WithTimestampResolution(p: DateTimeParser, res: TimestampResolution): (r: DateTimeParser)
    ensures r.resolution == Some(res) && r.stringFormats == p.stringFormats
  {
    p.(resolution := Some(res))
  }

  /** `with_format` (and `add_string`): `format` is tried after every format already there. */
  function WithFormat(p: DateTimeParser, format: DateTimeFormat): (r: DateTimeParser)
    ensures r.resolution == p.resolution && r.stringFormats == p.stringFormats + [format]
  {
    p.(stringFormats := p.stringFormats + [format])
  }

  /** `DateTimeFormat::parse`. */
  function ParseFormat(prims: Primitives, f: DateTimeFormat, s: string): Option<V.DateTime>
  {
    prims.parseDateTime(f, s)
  }

  /** The date-time of the first format in `formats` that parses `s`. */
  function ParseFirst(prims: Primitives, formats: seq<DateTimeFormat>, s: string): (r: Result<V.DateTime, CastError>)
    ensures r.Err? ==> r.error == NoMatchingFormat
  {
    if formats == [] then Err(NoMatchingFormat)
    else match ParseFormat(prims, formats[0], s)
      case Some(dt) => Ok(dt)
      case None => ParseFirst(prims, formats[1..], s)
  }

  /** `try_parse_str`: tries the formats in order and returns the first success. */
  method TryParseStr(prims: Primitives, p: DateTimeParser, s: string) returns (r: Result<V.DateTime, CastError>)
    ensures r == ParseFirst(prims, p.stringFormats, s)
  {
    var formats := p.stringFormats;
    var i := 0;
    while i < |formats|
      invariant 0 <= i <= |formats|
      invariant ParseFirst(prims, formats, s) == ParseFirst(prims, formats[i..], s)
    {
      var parsed := ParseFormat(prims, formats[i], s);
      if parsed.Some? {
        return Ok(parsed.value);
      }
      assert formats[i..][1..] == formats[i + 1..];
      i := i + 1;
    }
    return Err(NoMatchingFormat);
  }

  /** `TimestampResolution::cast`. */
  function ResolutionCast(prims: Primitives, res: TimestampResolution, ts: i64): Option<V.DateTime>
  {
    match res
    case Seconds => prims.fromSecs(ts)
    case Millis => prims.fromMillis(ts)
    case Micros => prims.fromMicros(ts)
  }

  /** `try_convert_timestamp`: only a parser with a resolution reads integers. */
  function ConvertTimestamp(prims: Primitives, p: DateTimeParser, ts: i64): Result<V.DateTime, CastError>
  {
    match p.resolution
    case None => Err(NoTimestampResolution)
    case Some(res) =>
      match ResolutionCast(prims, res, ts)
      case None => Err(TimestampOutOfRange)
      case Some(dt) => Ok(dt)
  }

  /** `try_parse_json`: strings through the formats, `i64` through the resolution, nothing else. */
  function ParseJsonDateTime(prims: Primitives, p: DateTimeParser, v: J.Value): Result<V.DateTime, CastError>
  {
    match v
    case Str(s) => ParseFirst(prims, p.stringFormats, s)
    case I64(ts) => ConvertTimestamp(prims, p, ts)
    case _ => Err(Unsupported(JsonKind(v), "datetime"))
  }

  /** `try_parse_typed`: as `try_parse_json`, for typed values. */
  function ParseTypedDateTime(prims: Primitives, p: DateTimeParser, v: V.Value): Result<V.DateTime, CastError>
  {
    match v
    case Str(s) => ParseFirst(prims, p.stringFormats, s)
    case I64(ts) => ConvertTimestamp(prims, p, ts)
    case _ => Err(Unsupported(KindOf(v), "datetime"))
  }

  // ---------------------------------------------------------------------
  // Scalar casts
  // ---------------------------------------------------------------------

  function JsonKind(v: J.Value): ValueKind
  {
    match v
    case Null => NullKind
    case Str(_) => StrKind
    case U64(_) => U64Kind
    case I64(_) => I64Kind
    case F64(_) => F64Kind
    case Bool(_) => BoolKind
    case Array(_) => ArrayKind
    case Object(_) => ObjectKind
  }

  function KindOf(v: V.Value): ValueKind
  {
    match v
    case Null => NullKind
    case Str(_) => StrKind
    case U64(_) => U64Kind
    case I64(_) => I64Kind
    case F64(_) => F64Kind
    case Bool(_) => BoolKind
    case DateTime(_) => DateTimeKind
    case IpAddr(_) => IpKind
    case Bytes(_) => BytesKind
    case Array(_) => ArrayKind
    case Object(_) => ObjectKind
  }

  /** `str::parse::<bool>`: exactly `"true"` or `"false"`. */
  function ParseBool(s: string): Option<bool>
  {
    if s == "true" then Some(true) else if s == "false" then Some(false) else None
  }

  /** `try_cast_cow` (and `try_cast_str`): a string cast to `cast`. */
  function CastString(prims: Primitives, cast: TypeCast, s: string): Result<V.Value, CastError>
  {
    match cast
    case String => Ok(V.Value.Str(s))
    case U64 =>
      (match ParseUnsigned(s, U64_MAX)
       case Some(n) => Ok(V.Value.U64(n))
       case None => Err(InvalidValue(StrKind, TypeName(cast))))
    case I64 =>
      (match ParseSigned(s, I64_MIN, I64_MAX)
       case Some(n) => Ok(V.Value.I64(n))
       case None => Err(InvalidValue(StrKind, TypeName(cast))))
    case F64 =>
      (match prims.parseF64(s)
       case Some(f) => Ok(V.Value.F64(f))
       case None => Err(InvalidValue(StrKind, TypeName(cast))))
    case Bool =>
      (match ParseBool(s)
       case Some(b) => Ok(V.Value.Bool(b))
       case None => Err(InvalidValue(StrKind, TypeName(cast))))
    case DateTime(p) =>
      (match ParseFirst(prims, p.stringFormats, s)
       case Ok(dt) => Ok(V.Value.DateTime(dt))
       case Err(e) => Err(e))
    case IpAddr =>
      (match prims.parseIpv4(s)
       case Some(v4) => Ok(V.Value.IpAddr(V.ToIpv6Mapped(v4)))
       case None =>
         match prims.parseIpv6(s)
         case Some(v6) => Ok(V.Value.IpAddr(v6))
         case None => Err(InvalidValue(StrKind, TypeName(cast))))
    case Bytes =>
      (match prims.decodeBase64(s)
       case Some(data) => Ok(V.Value.Bytes(data))
       case None => Err(InvalidValue(StrKind, TypeName(cast))))
  }

  /** `try_cast_u64`. */
  function CastU64(prims: Primitives, cast: TypeCast, v: u64): Result<V.Value, CastError>
  {
    match cast
    case U64 => Ok(V.Value.U64(v))
    case I64 => if v <= I64_MAX then Ok(V.Value.I64(v)) else Err(NotRepresentable(U64Kind, TypeName(cast)))
    case String => Ok(V.Value.Str(NatToString(v)))
    case DateTime(p) =>
      if v > I64_MAX then Err(NotRepresentable(U64Kind, TypeName(cast)))
      else
        (match ConvertTimestamp(prims, p, v)
         case Ok(dt) => Ok(V.Value.DateTime(dt))
         case Err(e) => Err(e))
    case _ => Err(Unsupported(U64Kind, TypeName(cast)))
  }

  /** `try_cast_i64`. */
  function CastI64(prims: Primitives, cast: TypeCast, v: i64): Result<V.Value, CastError>
  {
    match cast
    case I64 => Ok(V.Value.I64(v))
    case U64 => if v >= 0 then Ok(V.Value.U64(v)) else Err(NotRepresentable(I64Kind, TypeName(cast)))
    case String => Ok(V.Value.Str(IntToString(v)))
    case DateTime(p) =>
      (match ConvertTimestamp(prims, p, v)
       case Ok(dt) => Ok(V.Value.DateTime(dt))
       case Err(e) => Err(e))
    case _ => Err(Unsupported(I64Kind, TypeName(cast)))
  }

  /** `try_cast_f64`. */
  function CastF64(prims: Primitives, cast: TypeCast, v: F64Bits): Result<V.Value, CastError>
  {
    match cast
    case F64 => Ok(V.Value.F64(v))
    case String => Ok(V.Value.Str(prims.formatF64(v)))
    case _ => Err(Unsupported(F64Kind, TypeName(cast)))
  }

  /** `try_cast_bool`. */
  function CastBool(cast: TypeCast, v: bool): Result<V.Value, CastError>
  {
    match cast
    case Bool => Ok(V.Value.Bool(v))
    case String => Ok(V.Value.Str(if v then "true" else "false"))
    case _ => Err(Unsupported(BoolKind, TypeName(cast)))
  }

  /** `try_cast_datetime`: strings get the RFC 3339 text. */
  function CastDateTime(prims: Primitives, cast: TypeCast, v: V.DateTime): Result<V.Value, CastError>
  {
    match cast
    case DateTime(_) => Ok(V.Value.DateTime(v))
    case String =>
      (match prims.formatRfc3339(v)
       case None => Err(RenderFailed)
       case Some(text) => Ok(V.Value.Str(text)))
    case _ => Err(Unsupported(DateTimeKind, TypeName(cast)))
  }

  /** `try_cast_ip`: a mapped IPv4 address prints as IPv4. */
  function CastIp(prims: Primitives, cast: TypeCast, v: V.Ipv6Addr): Result<V.Value, CastError>
  {
    match cast
    case IpAddr => Ok(V.Value.IpAddr(v))
    case String =>
      Ok(V.Value.Str(match V.ToIpv4Mapped(v)
                     case Some(v4) => prims.formatIpv4(v4)
                     case None => prims.formatIpv6(v)))
    case _ => Err(Unsupported(IpKind, TypeName(cast)))
  }

  // ---------------------------------------------------------------------
  // JSON values
  // ---------------------------------------------------------------------

  /** `try_cast_json` on anything but an array. */
  function CastJsonScalar(prims: Primitives, cast: TypeCast, v: J.Value): Result<V.Value, CastError>
    requires !v.Array?
  {
    match v
    case Null => Ok(V.Value.Null)
    case Str(s) => CastString(prims, cast, s)
    case U64(u) => CastU64(prims, cast, u)
    case I64(i) => CastI64(prims, cast, i)
    case F64(f) => CastF64(prims, cast, f)
    case Bool(b) => CastBool(cast, b)
    case Object(_) => Err(Unsupported(ObjectKind, TypeName(cast)))
  }

  /** The elements of a JSON array cast in order, stopping at the first failure. */
  function CastJsonElements(prims: Primitives, cast: TypeCast, es: seq<J.Value>): Result<seq<V.Value>, CastError>
  {
    if es == [] then Ok([])
    else match CastJsonElements(prims, cast, es[..|es| - 1])
      case Err(e) => Err(e)
      case Ok(cs) =>
        var last := es[|es| - 1];
        if last.Array? || last.Object? then Err(NestedCollection(JsonKind(last), TypeName(cast)))
        else match CastJsonScalar(prims, cast, last)
          case Err(e) => Err(e)
          case Ok(c) => Ok(cs + [c])
  }

  /** `try_cast_json`. */
  function CastJson(prims: Primitives, cast: TypeCast, v: J.Value): Result<V.Value, CastError>
  {
    if v.Array? then
      match CastJsonElements(prims, cast, v.elements)
      case Ok(cs) => Ok(V.Value.Array(cs))
      case Err(e) => Err(e)
    else CastJsonScalar(prims, cast, v)
  }

  /** Once a prefix of the elements fails, the whole array fails with the same error. */
  lemma {:induction false} JsonErrorPropagates(prims: Primitives, cast: TypeCast, es: seq<J.Value>, k: nat)
    requires k <= |es|
    requires CastJsonElements(prims, cast, es[..k]).Err?
    ensures CastJsonElements(prims, cast, es) == CastJsonElements(prims, cast, es[..k])
  {
    if k < |es| {
      var init := es[..|es| - 1];
      assert init[..k] == es[..k];
      JsonErrorPropagates(prims, cast, init, k);
    } else {
      assert es[..k] == es;
    }
  }

  /** One more element: a nested collection fails, anything else adds its own cast or fails with it. */
  lemma JsonElementsStep(prims: Primitives, cast: TypeCast, es: seq<J.Value>, i: nat, casted: seq<V.Value>)
    requires i < |es| && CastJsonElements(prims, cast, es[..i]) == Ok(casted)
    ensures es[i].Array? || es[i].Object? ==>
      CastJsonElements(prims, cast, es[..i + 1]) == Err(NestedCollection(JsonKind(es[i]), TypeName(cast)))
    ensures !es[i].Array? && !es[i].Object? ==>
      CastJsonElements(prims, cast, es[..i + 1]) == (match CastJsonScalar(prims, cast, es[i]) case Ok(c) => Ok(casted + [c]) case Err(e) => Err(e))
  {
    assert es[..i + 1][..i] == es[..i];
  }

  /** `try_cast_json`, with the loop over an array's elements. */
  method TryCastJson(prims: Primitives, cast: TypeCast, value: J.Value) returns (r: Result<V.Value, CastError>)
    ensures r == CastJson(prims, cast, value)
    decreases value
  {
    if !value.Array? {
      return CastJsonScalar(prims, cast, value);
    }
    var elements := value.elements;
    var casted: seq<V.Value> := [];
    var i := 0;
    while i < |elements|
      invariant 0 <= i <= |elements|
      invariant CastJsonElements(prims, cast, elements[..i]) == Ok(casted)
    {
      var element := elements[i];
      JsonElementsStep(prims, cast, elements, i, casted);
      if element.Array? || element.Object? {
        JsonErrorPropagates(prims, cast, elements, i + 1);
        return Err(NestedCollection(JsonKind(element), TypeName(cast)));
      }
      var c := TryCastJson(prims, cast, element);
      if c.Err? {
        JsonErrorPropagates(prims, cast, elements, i + 1);
        return Err(c.error);
      }
      casted := casted + [c.value];
      i := i + 1;
    }
    assert elements[..i] == elements;
    return Ok(V.Value.Array(casted));
  }

  // ---------------------------------------------------------------------
  // Typed values
  // ---------------------------------------------------------------------

  /** `try_cast_typed` on anything but an array; bytes and objects have no rule. */
  function CastTypedScalar(prims: Primitives, cast: TypeCast, v: V.Value): Result<V.Value, CastError>
    requires !v.Array?
  {
    match v
    case Null => Ok(V.Value.Null)
    case Str(s) => CastString(prims, cast, s)
    case U64(u) => CastU64(prims, cast, u)
    case I64(i) => CastI64(prims, cast, i)
    case F64(f) => CastF64(prims, cast, f)
    case Bool(b) => CastBool(cast, b)
    case DateTime(dt) => CastDateTime(prims, cast, dt)
    case IpAddr(ip) => CastIp(prims, cast, ip)
    case Bytes(_) => Err(Unsupported(BytesKind, TypeName(cast)))
    case Object(_) => Err(Unsupported(ObjectKind, TypeName(cast)))
  }

  /** The elements of a typed array cast in order, stopping at the first failure. */
  function CastTypedElements(prims: Primitives, cast: TypeCast, es: seq<V.Value>): Result<seq<V.Value>, CastError>
  {
    if es == [] then Ok([])
    else match CastTypedElements(prims, cast, es[..|es| - 1])
      case Err(e) => Err(e)
      case Ok(cs) =>
        var last := es[|es| - 1];
        if last.Array? || last.Object? then Err(NestedCollection(KindOf(last), TypeName(cast)))
        else match CastTypedScalar(prims, cast, last)
          case Err(e) => Err(e)
          case Ok(c) => Ok(cs + [c])
  }

  /** `try_cast_typed`. */
  function CastTyped(prims: Primitives, cast: TypeCast, v: V.Value): Result<V.Value, CastError>
  {
    if v.Array? then
      match CastTypedElements(prims, cast, v.elements)
      case Ok(cs) => Ok(V.Value.Array(cs))
      case Err(e) => Err(e)
    else CastTypedScalar(prims, cast, v)
  }

  /** Once a prefix of the elements fails, the whole array fails with the same error. */
  lemma {:induction false} TypedErrorPropagates(prims: Primitives, cast: TypeCast, es: seq<V.Value>, k: nat)
    requires k <= |es|
    requires CastTypedElements(prims, cast, es[..k]).Err?
    ensures CastTypedElements(prims, cast, es) == CastTypedElements(prims, cast, es[..k])
  {
    if k < |es| {
      var init := es[..|es| - 1];
      assert init[..k] == es[..k];
      TypedErrorPropagates(prims, cast, init, k);
    } else {
      assert es[..k] == es;
    }
  }

  /** One more element: a nested collection fails, anything else adds its own cast or fails with it. */
  lemma TypedElementsStep(prims: Primitives, cast: TypeCast, es: seq<V.Value>, i: nat, casted: seq<V.Value>)
    requires i < |es| && CastTypedElements(prims, cast, es[..i]) == Ok(casted)
    ensures es[i].Array? || es[i].Object? ==>
      CastTypedElements(prims, cast, es[..i + 1]) == Err(NestedCollection(KindOf(es[i]), TypeName(cast)))
    ensures !es[i].Array? && !es[i].Object? ==>
      CastTypedElements(prims, cast, es[..i + 1]) == (match CastTypedScalar(prims, cast, es[i]) case Ok(c) => Ok(casted + [c]) case Err(e) => Err(e))
  {
    assert es[..i + 1][..i] == es[..i];
  }

  /** `try_cast_typed`, with the loop over an array's elements. */
  method TryCastTyped(prims: Primitives, cast: TypeCast, value: V.Value) returns (r: Result<V.Value, CastError>)
    ensures r == CastTyped(prims, cast, value)
    decreases value
  {
    if !value.Array? {
      return CastTypedScalar(prims, cast, value);
    }
    var elements := value.elements;
    var casted: seq<V.Value> := [];
    var i := 0;
    while i < |elements|
      invariant 0 <= i <= |elements|
      invariant CastTypedElements(prims, cast, elements[..i]) == Ok(casted)
    {
      var element := elements[i];
      TypedElementsStep(prims, cast, elements, i, casted);
      if element.Array? || element.Object? {
        TypedErrorPropagates(prims, cast, elements, i + 1);
        return Err(NestedCollection(KindOf(element), TypeName(cast)));
      }
      var c := TryCastTyped(prims, cast, element);
      if c.Err? {
        TypedErrorPropagates(prims, cast, elements, i + 1);
        return Err(c.error);
      }
      casted := casted + [c.value];
      i := i + 1;
    }
    assert elements[..i] == elements;
    return Ok(V.Value.Array(casted));
  }
}
