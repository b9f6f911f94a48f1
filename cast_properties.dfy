/**
 * What the cast rules promise: range-checked integer conversions, identity
 * casts, decimal and boolean round trips through strings, the pairs that
 * have no rule, element-wise array casts, first-match date-time parsing, and
 * that a JSON value casts exactly as its typed counterpart does.
 */
module CastProperties {
  import opened Wrappers
  import opened MachineInts
  import opened Decimal
  import opened TypeCasts
  import J = JsonValue
  import V = TypedValue

  // ---------------------------------------------------------------------
  // Integers
  // ---------------------------------------------------------------------

  /** A `u64` becomes an `i64` with the same value exactly when it is at most `i64::MAX`. */
  lemma U64ToI64(prims: Primitives, v: u64)
    ensures CastU64(prims, I64, v).Ok? <==> v <= I64_MAX
    ensures v <= I64_MAX ==> CastU64(prims, I64, v) == Ok(V.Value.I64(v))
    ensures v > I64_MAX ==> CastU64(prims, I64, v) == Err(NotRepresentable(U64Kind, "i64"))
  {
  }

  /** An `i64` becomes a `u64` with the same value exactly when it is not negative. */
  lemma I64ToU64(prims: Primitives, v: i64)
    ensures CastI64(prims, U64, v).Ok? <==> v >= 0
    ensures v >= 0 ==> CastI64(prims, U64, v) == Ok(V.Value.U64(v))
    ensures v < 0 ==> CastI64(prims, U64, v) == Err(NotRepresentable(I64Kind, "u64"))
  {
  }

  /** A `u64` rendered as a string parses back to the same `u64`. */
  lemma U64StringRoundTrip(prims: Primitives, v: u64)
    ensures CastU64(prims, String, v).Ok? && CastU64(prims, String, v).value.Str?
    ensures CastString(prims, U64, CastU64(prims, String, v).value.s) == Ok(V.Value.U64(v))
  {
    ParseUnsignedRoundTrip(v, U64_MAX);
  }

  /** An `i64` rendered as a string parses back to the same `i64`. */
  lemma I64StringRoundTrip(prims: Primitives, v: i64)
    ensures CastI64(prims, String, v).Ok? && CastI64(prims, String, v).value.Str?
    ensures CastString(prims, I64, CastI64(prims, String, v).value.s) == Ok(V.Value.I64(v))
  {
    ParseSignedRoundTrip(v, I64_MIN, I64_MAX);
  }

  /** A string holding a `-` never casts to `u64`: it is reported as an invalid value. */
  lemma NegativeStringToU64Fails(prims: Primitives, s: string)
    requires '-' in s
    ensures CastString(prims, U64, s) == Err(InvalidValue(StrKind, "u64"))
  {
    ParseUnsignedRejectsDash(s, U64_MAX);
  }

  // ---------------------------------------------------------------------
  // Booleans
  // ---------------------------------------------------------------------

  /** `true` and `false` render as `"true"` and `"false"`, which parse back to the same boolean. */
  lemma BoolStringRoundTrip(b: bool, prims: Primitives)
    ensures CastBool(String, b) == Ok(V.Value.Str(if b then "true" else "false"))
    ensures CastString(prims, Bool, CastBool(String, b).value.s) == Ok(V.Value.Bool(b))
  {
  }

  /** Only `"true"` and `"false"` cast to `bool`; `"1"` and `"-"` do not. */
  lemma StringToBoolExact(prims: Primitives, s: string)
    ensures CastString(prims, Bool, s).Ok? <==> s == "true" || s == "false"
    ensures CastString(prims, Bool, s).Err? ==> CastString(prims, Bool, s) == Err(InvalidValue(StrKind, "bool"))
    ensures CastString(prims, Bool, "1").Err? && CastString(prims, Bool, "-").Err?
  {
  }

  // ---------------------------------------------------------------------
  // Identity, null and unsupported pairs
  // ---------------------------------------------------------------------

  /** A value cast to its own type comes back unchanged, and null casts to null for every target. */
  lemma IdentityCasts(prims: Primitives, cast: TypeCast, p: DateTimeParser,
                      u: u64, i: i64, f: F64Bits, b: bool, s: string, dt: V.DateTime, ip: V.Ipv6Addr)
    ensures CastTyped(prims, U64, V.Value.U64(u)) == Ok(V.Value.U64(u))
    ensures CastTyped(prims, I64, V.Value.I64(i)) == Ok(V.Value.I64(i))
    ensures CastTyped(prims, F64, V.Value.F64(f)) == Ok(V.Value.F64(f))
    ensures CastTyped(prims, Bool, V.Value.Bool(b)) == Ok(V.Value.Bool(b))
    ensures CastTyped(prims, String, V.Value.Str(s)) == Ok(V.Value.Str(s))
    ensures CastTyped(prims, DateTime(p), V.Value.DateTime(dt)) == Ok(V.Value.DateTime(dt))
    ensures CastTyped(prims, IpAddr, V.Value.IpAddr(ip)) == Ok(V.Value.IpAddr(ip))
    ensures CastTyped(prims, cast, V.Value.Null) == Ok(V.Value.Null)
    ensures CastJson(prims, cast, J.Value.Null) == Ok(V.Value.Null)
  {
  }

  /**
   * Integers do not cast to `f64`, `bool`, `bytes` or `ip`; floats and
   * booleans cast only to themselves and to strings; bytes and objects have
   * no rule at all, not even to `bytes`.
   */
  lemma UnsupportedPairs(prims: Primitives, cast: TypeCast, u: u64, i: i64, f: F64Bits, b: bool, data: seq<u8>)
    ensures (cast.F64? || cast.Bool? || cast.Bytes? || cast.IpAddr?) ==>
      CastU64(prims, cast, u) == Err(Unsupported(U64Kind, TypeName(cast)))
      && CastI64(prims, cast, i) == Err(Unsupported(I64Kind, TypeName(cast)))
    ensures !cast.F64? && !cast.String? ==> CastF64(prims, cast, f) == Err(Unsupported(F64Kind, TypeName(cast)))
    ensures !cast.Bool? && !cast.String? ==> CastBool(cast, b) == Err(Unsupported(BoolKind, TypeName(cast)))
    ensures CastTyped(prims, cast, V.Value.Bytes(data)) == Err(Unsupported(BytesKind, TypeName(cast)))
    ensures CastTyped(prims, cast, V.Value.Object([])) == Err(Unsupported(ObjectKind, TypeName(cast)))
  {
  }

  /** Which casts succeed for each source type, as a relation between source and target. */
  predicate RuleExists(source: ValueKind, cast: TypeCast)
  {
    match source
    case NullKind => true
    case StrKind => true
    case U64Kind => cast.U64? || cast.I64? || cast.String? || cast.DateTime?
    case I64Kind => cast.U64? || cast.I64? || cast.String? || cast.DateTime?
    case F64Kind => cast.F64? || cast.String?
    case BoolKind => cast.Bool? || cast.String?
    case DateTimeKind => cast.DateTime? || cast.String?
    case IpKind => cast.IpAddr? || cast.String?
    case BytesKind => false
    case ArrayKind => true
    case ObjectKind => false
  }

  /** A scalar cast reports "no rule" exactly for the pairs outside `RuleExists`. */
  lemma UnsupportedExactly(prims: Primitives, cast: TypeCast, v: V.Value)
    requires !v.Array?
    ensures CastTypedScalar(prims, cast, v) == Err(Unsupported(KindOf(v), TypeName(cast))) <==> !RuleExists(KindOf(v), cast)
  {
  }

  // ---------------------------------------------------------------------
  // IP addresses
  // ---------------------------------------------------------------------

  /**
   * An IPv4 address is stored mapped into IPv6 and printed back as IPv4;
   * when the IPv4 text reads back as the same address, the round trip
   * through a string gives back the stored value.
   */
  lemma Ipv4StringRoundTrip(prims: Primitives, v4: V.Ipv4Addr)
    requires prims.parseIpv4(prims.formatIpv4(v4)) == Some(v4)
    ensures CastIp(prims, String, V.ToIpv6Mapped(v4)) == Ok(V.Value.Str(prims.formatIpv4(v4)))
    ensures CastString(prims, IpAddr, prims.formatIpv4(v4)) == Ok(V.Value.IpAddr(V.ToIpv6Mapped(v4)))
  {
    V.Ipv4MappedRoundTrip(v4);
  }

  /** A string is tried as IPv4 before IPv6, and fails only when it is neither. */
  lemma IpStringOrder(prims: Primitives, s: string)
    ensures CastString(prims, IpAddr, s).Ok? <==> prims.parseIpv4(s).Some? || prims.parseIpv6(s).Some?
    ensures prims.parseIpv4(s).Some? ==> CastString(prims, IpAddr, s) == Ok(V.Value.IpAddr(V.ToIpv6Mapped(prims.parseIpv4(s).value)))
  {
  }

  // ---------------------------------------------------------------------
  // Date-times
  // ---------------------------------------------------------------------

  /** String parsing succeeds exactly when some format of the list parses; an empty list fails. */
  lemma {:induction false} ParseFirstSucceedsIff(prims: Primitives, formats: seq<DateTimeFormat>, s: string)
    ensures ParseFirst(prims, formats, s).Ok? <==> exists i :: 0 <= i < |formats| && ParseFormat(prims, formats[i], s).Some?
    ensures formats == [] ==> ParseFirst(prims, formats, s) == Err(NoMatchingFormat)
  {
    if formats != [] {
      ParseFirstSucceedsIff(prims, formats[1..], s);
      if ParseFormat(prims, formats[0], s).None? {
        assert forall i :: 1 <= i < |formats| ==> formats[i] == formats[1..][i - 1];
      }
    }
  }

  /** The result is the date-time of the first format in list order that parses. */
  lemma {:induction false} ParseFirstIsFirstMatch(prims: Primitives, formats: seq<DateTimeFormat>, s: string, k: nat)
    requires k < |formats| && ParseFormat(prims, formats[k], s).Some?
    requires forall j :: 0 <= j < k ==> ParseFormat(prims, formats[j], s).None?
    ensures ParseFirst(prims, formats, s) == Ok(ParseFormat(prims, formats[k], s).value)
  {
    if k > 0 {
      ParseFirstIsFirstMatch(prims, formats[1..], s, k - 1);
    }
  }

  /** Adding a format never changes how a string that already parsed is read; it only rescues strings that did not. */
  lemma {:induction false} ParseFirstAppend(prims: Primitives, formats: seq<DateTimeFormat>, f: DateTimeFormat, s: string)
    ensures ParseFirst(prims, formats, s).Ok? ==> ParseFirst(prims, formats + [f], s) == ParseFirst(prims, formats, s)
    ensures ParseFirst(prims, formats, s).Err? ==>
      ParseFirst(prims, formats + [f], s) == (match ParseFormat(prims, f, s) case Some(dt) => Ok(dt) case None => Err(NoMatchingFormat))
  {
    if formats == [] {
      assert formats + [f] == [f];
      assert [f][1..] == [];
    } else {
      assert (formats + [f])[1..] == formats[1..] + [f];
      ParseFirstAppend(prims, formats[1..], f, s);
    }
  }

  /** The method `TryParseStr` and the casts agree with `try_parse_typed` on strings and `i64` timestamps. */
  lemma DateTimeParseAgreesWithCast(prims: Primitives, p: DateTimeParser, s: string, ts: i64)
    ensures CastString(prims, DateTime(p), s) == (match ParseTypedDateTime(prims, p, V.Value.Str(s)) case Ok(dt) => Ok(V.Value.DateTime(dt)) case Err(e) => Err(e))
    ensures CastI64(prims, DateTime(p), ts) == (match ParseTypedDateTime(prims, p, V.Value.I64(ts)) case Ok(dt) => Ok(V.Value.DateTime(dt)) case Err(e) => Err(e))
    ensures ParseJsonDateTime(prims, p, J.Value.Str(s)) == ParseTypedDateTime(prims, p, V.Value.Str(s))
    ensures ParseJsonDateTime(prims, p, J.Value.I64(ts)) == ParseTypedDateTime(prims, p, V.Value.I64(ts))
  {
  }

  /** Without a resolution no integer becomes a date-time. */
  lemma NoResolutionRejectsTimestamps(prims: Primitives, p: DateTimeParser, ts: i64, u: u64)
    requires p.resolution.None?
    ensures ConvertTimestamp(prims, p, ts) == Err(NoTimestampResolution)
    ensures CastI64(prims, DateTime(p), ts) == Err(NoTimestampResolution)
    ensures u <= I64_MAX ==> CastU64(prims, DateTime(p), u) == Err(NoTimestampResolution)
  {
  }

  /** A `u64` above `i64::MAX` is refused before any resolution is consulted. */
  lemma LargeU64ToDateTimeFails(prims: Primitives, p: DateTimeParser, u: u64)
    requires u > I64_MAX
    ensures CastU64(prims, DateTime(p), u) == Err(NotRepresentable(U64Kind, TypeName(DateTime(p))))
  {
  }

  /** A `u64` within `i64` range is converted exactly as the same `i64` is. */
  lemma U64TimestampAsI64(prims: Primitives, p: DateTimeParser, u: u64)
    requires u <= I64_MAX
    ensures CastU64(prims, DateTime(p), u) == CastI64(prims, DateTime(p), u)
  {
  }

  // ---------------------------------------------------------------------
  // Type names
  // ---------------------------------------------------------------------

  /** Joining non-empty parts gives the empty string only for no parts. */
  lemma {:induction false} JoinEmptyIff(parts: seq<string>, sep: string)
    requires forall i :: 0 <= i < |parts| ==> parts[i] != []
    ensures Join(parts, sep) == [] <==> parts == []
  {
    if |parts| > 1 {
      assert |Join(parts, sep)| >= |parts[|parts| - 1]|;
    }
  }

  /** Joining one more part appends the separator and the part. */
  lemma JoinAppend(parts: seq<string>, x: string, sep: string)
    ensures Join(parts + [x], sep) == if parts == [] then x else Join(parts, sep) + sep + x
  {
    if parts != [] {
      assert (parts + [x])[..|parts|] == parts;
    }
  }

  /** A parser lists no formats exactly when it has neither a resolution nor a string format. */
  lemma SupportedFormatsEmptyIff(p: DateTimeParser)
    ensures Join(FormatList(p), ",") == [] <==> p.resolution.None? && p.stringFormats == []
  {
    var names := FormatList(p);
    forall i | 0 <= i < |names|
      ensures names[i] != []
    {
      if p.resolution.Some? && i == 0 {
        assert names[i] == ResolutionName(p.resolution.value);
      } else {
        var k := if p.resolution.Some? then i - 1 else i;
        assert names[i] == FormatName(p.stringFormats[k]);
      }
    }
    JoinEmptyIff(names, ",");
  }

  /** `with_format` adds the new format's name at the end of the list, after a comma when the list was not empty. */
  lemma WithFormatExtendsNames(p: DateTimeParser, f: DateTimeFormat)
    ensures FormatList(WithFormat(p, f)) == FormatList(p) + [FormatName(f)]
    ensures Join(FormatList(WithFormat(p, f)), ",") ==
      if FormatList(p) == [] then FormatName(f) else Join(FormatList(p), ",") + "," + FormatName(f)
  {
    var fs := p.stringFormats + [f];
    assert fs[..|fs| - 1] == p.stringFormats;
    JoinAppend(FormatList(p), FormatName(f), ",");
  }

  /** A parser with nothing configured is named `datetime<>`. */
  lemma DefaultTypeName()
    ensures TypeName(DateTime(DefaultParser())) == "datetime<>"
  {
    assert FormatList(DefaultParser()) == [];
  }

  /** A parser reading milliseconds is named `datetime<unix_millis>`. */
  lemma MillisTypeName()
    ensures TypeName(DateTime(WithTimestampResolution(DefaultParser(), Millis))) == "datetime<unix_millis>"
  {
    assert FormatList(WithTimestampResolution(DefaultParser(), Millis)) == ["unix_millis"];
  }

  /** Two string formats are listed in the order they were added. */
  lemma TwoFormatsTypeName()
    ensures TypeName(DateTime(WithFormat(WithFormat(DefaultParser(), Rfc2822), Rfc3339))) == "datetime<rfc2822,rfc3339>"
  {
    var p := WithFormat(WithFormat(DefaultParser(), Rfc2822), Rfc3339);
    assert p.stringFormats == [Rfc2822, Rfc3339];
    var names := FormatNames(p.stringFormats);
    assert names == ["rfc2822", "rfc3339"];
    assert FormatList(p) == names;
    assert names[..1] == ["rfc2822"];
    assert Join(names, ",") == "rfc2822" + "," + "rfc3339";
  }

  /** A custom format shows its description quoted. */
  lemma CustomFormatName()
    ensures FormatName(Custom("[year]", "%Y")) == "custom<\"%Y\">"
  {
    assert Escape("%") == "%" by {
      assert "%"[..0] == "";
    }
    assert "%Y"[..1] == "%";
  }

  /** The u64::MAX timestamp test: the error names the target `datetime<unix_millis>`. */
  lemma MillisOverflowExample(prims: Primitives)
    ensures CastU64(prims, DateTime(WithTimestampResolution(DefaultParser(), Millis)), U64_MAX)
      == Err(NotRepresentable(U64Kind, "datetime<unix_millis>"))
  {
    MillisTypeName();
  }

  // ---------------------------------------------------------------------
  // Arrays
  // ---------------------------------------------------------------------

  /** The error an array element causes: a nested collection, or its own cast's failure. */
  function ElementError(prims: Primitives, cast: TypeCast, e: V.Value): Option<CastError>
  {
    if e.Array? || e.Object? then Some(NestedCollection(KindOf(e), TypeName(cast)))
    else match CastTypedScalar(prims, cast, e)
      case Ok(_) => None
      case Err(err) => Some(err)
  }

  /**
   * An array casts exactly when every element is a scalar that casts; the
   * result then has the same length and holds each element's cast in order.
   */
  lemma {:induction false} TypedElementsSucceed(prims: Primitives, cast: TypeCast, es: seq<V.Value>)
    ensures CastTypedElements(prims, cast, es).Ok? <==> forall i :: 0 <= i < |es| ==> ElementError(prims, cast, es[i]).None?
    ensures CastTypedElements(prims, cast, es).Ok? ==>
      var cs := CastTypedElements(prims, cast, es).value;
      |cs| == |es| && forall i :: 0 <= i < |es| ==> !es[i].Array? && CastTypedScalar(prims, cast, es[i]) == Ok(cs[i])
  {
    if es != [] {
      var init := es[..|es| - 1];
      TypedElementsSucceed(prims, cast, init);
      assert forall i :: 0 <= i < |init| ==> init[i] == es[i];
    }
  }

  /**
   * The first failing element decides the error: a nested array or object
   * is refused before it is cast, and nothing after it is looked at.
   */
  lemma TypedFirstFailure(prims: Primitives, cast: TypeCast, es: seq<V.Value>, k: nat)
    requires k < |es| && ElementError(prims, cast, es[k]).Some?
    requires forall j :: 0 <= j < k ==> ElementError(prims, cast, es[j]).None?
    ensures CastTypedElements(prims, cast, es) == Err(ElementError(prims, cast, es[k]).value)
  {
    var prefix := es[..k];
    assert forall j :: 0 <= j < k ==> prefix[j] == es[j];
    TypedElementsSucceed(prims, cast, prefix);
    assert es[..k + 1][..k] == prefix;
    TypedErrorPropagates(prims, cast, es, k + 1);
  }

  /** An array cast through `CastTyped` as a whole. */
  lemma ArrayCast(prims: Primitives, cast: TypeCast, es: seq<V.Value>)
    ensures CastTyped(prims, cast, V.Value.Array(es)).Ok? <==> forall i :: 0 <= i < |es| ==> ElementError(prims, cast, es[i]).None?
    ensures CastTyped(prims, cast, V.Value.Array(es)).Ok? ==>
      CastTyped(prims, cast, V.Value.Array(es)).value.Array?
      && |CastTyped(prims, cast, V.Value.Array(es)).value.elements| == |es|
  {
    TypedElementsSucceed(prims, cast, es);
  }

  // ---------------------------------------------------------------------
  // Casting twice
  // ---------------------------------------------------------------------

  /** Every successful scalar cast except to `bytes` yields a scalar that the same cast leaves as it is. */
  lemma ScalarCastIdempotent(prims: Primitives, cast: TypeCast, v: V.Value)
    requires !v.Array? && !cast.Bytes?
    requires CastTypedScalar(prims, cast, v).Ok?
    ensures var w := CastTypedScalar(prims, cast, v).value;
      !w.Array? && !w.Object? && CastTypedScalar(prims, cast, w) == Ok(w)
  {
  }

  /**
   * Casting is idempotent for every target except `bytes`: a cast result,
   * arrays included, casts to itself again.
   */
  lemma CastIdempotent(prims: Primitives, cast: TypeCast, v: V.Value)
    requires !cast.Bytes?
    requires CastTyped(prims, cast, v).Ok?
    ensures CastTyped(prims, cast, CastTyped(prims, cast, v).value) == CastTyped(prims, cast, v)
  {
    if v.Array? {
      var es := v.elements;
      TypedElementsSucceed(prims, cast, es);
      var cs := CastTypedElements(prims, cast, es).value;
      forall i | 0 <= i < |cs|
        ensures ElementError(prims, cast, cs[i]).None? && CastTypedScalar(prims, cast, cs[i]) == Ok(cs[i])
      {
        ScalarCastIdempotent(prims, cast, es[i]);
      }
      TypedElementsSucceed(prims, cast, cs);
      assert CastTypedElements(prims, cast, cs).value == cs;
    } else {
      ScalarCastIdempotent(prims, cast, v);
    }
  }

  /** Bytes are the exception: a base64 string casts to bytes, and those bytes do not cast to bytes again. */
  lemma BytesRecastFails(prims: Primitives, s: string)
    requires prims.decodeBase64(s).Some?
    ensures CastString(prims, Bytes, s) == Ok(V.Value.Bytes(prims.decodeBase64(s).value))
    ensures CastTyped(prims, Bytes, CastString(prims, Bytes, s).value) == Err(Unsupported(BytesKind, "bytes"))
  {
  }

  // ---------------------------------------------------------------------
  // JSON and typed values
  // ---------------------------------------------------------------------

  /** A JSON value and its typed counterpart report the same type. */
  lemma KindPreserved(v: J.Value)
    ensures JsonKind(v) == KindOf(V.FromJson(v))
  {
  }

  /** A JSON scalar casts as its typed counterpart does. */
  lemma JsonScalarAgrees(prims: Primitives, cast: TypeCast, v: J.Value)
    requires !v.Array?
    ensures !V.FromJson(v).Array? && CastJsonScalar(prims, cast, v) == CastTypedScalar(prims, cast, V.FromJson(v))
  {
  }

  /** Elementwise, JSON arrays cast as their typed counterparts do. */
  lemma {:induction false} JsonElementsAgree(prims: Primitives, cast: TypeCast, es: seq<J.Value>, ts: seq<V.Value>)
    requires |ts| == |es|
    requires forall i :: 0 <= i < |es| ==> ts[i] == V.FromJson(es[i])
    ensures CastJsonElements(prims, cast, es) == CastTypedElements(prims, cast, ts)
  {
    if es != [] {
      var n := |es|;
      JsonElementsAgree(prims, cast, es[..n - 1], ts[..n - 1]);
      var last := es[n - 1];
      KindPreserved(last);
      if !last.Array? && !last.Object? {
        JsonScalarAgrees(prims, cast, last);
      }
    }
  }

  /** `try_cast_json` is `try_cast_typed` on the JSON value read as a typed value. */
  lemma JsonCastAgreesWithTyped(prims: Primitives, cast: TypeCast, v: J.Value)
    ensures CastJson(prims, cast, v) == CastTyped(prims, cast, V.FromJson(v))
  {
    if v.Array? {
      JsonElementsAgree(prims, cast, v.elements, V.FromJson(v).elements);
    }
  }
}
