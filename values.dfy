/** The untyped values of a JSON document as the transform layer receives them. */
module JsonValue {
  import opened MachineInts

  datatype Value =
    | Null
    | Str(s: string)
    | U64(u: u64)
    | I64(i: i64)
    | F64(f: F64Bits)
    | Bool(b: bool)
    | Array(elements: seq<Value>)
    | Object(entries: seq<(string, Value)>)
}

/** The typed values the transform layer produces. */
module TypedValue {
  import opened Wrappers
  import opened MachineInts
  import J = JsonValue

  /** A point in time, in microseconds since the unix epoch. */
  datatype DateTime = DateTime(micros: i64)

  type Ipv4Octets = s: seq<u8> | |s| == 4 witness [0, 0, 0, 0]
  type Ipv6Octets = s: seq<u8> | |s| == 16 witness [0, 0, 0, 0, 0, 0, 0, 0, 0, 0, 0, 0, 0, 0, 0, 0]

  datatype Ipv4Addr = Ipv4Addr(octets4: Ipv4Octets)
  datatype Ipv6Addr = Ipv6Addr(octets: Ipv6Octets)

  datatype Value =
    | Null
    | Str(s: string)
    | U64(u: u64)
    | I64(i: i64)
    | F64(f: F64Bits)
    | Bool(b: bool)
    | DateTime(dt: DateTime)
    | IpAddr(ip: Ipv6Addr)
    | Bytes(data: seq<u8>)
    | Array(elements: seq<Value>)
    | Object(entries: seq<(string, Value)>)

  /** A JSON value seen as a typed value: the same variant with the same contents. */
  function FromJson(v: J.Value): Value
  {
    match v
    case Null => Null
    case Str(s) => Str(s)
    case U64(u) => U64(u)
    case I64(i) => I64(i)
    case F64(f) => F64(f)
    case Bool(b) => Bool(b)
    case Array(es) => Array(seq(|es|, i requires 0 <= i < |es| => FromJson(es[i])))
    case Object(en) => Object(seq(|en|, i requires 0 <= i < |en| => (en[i].0, FromJson(en[i].1))))
  }

  /** `Ipv4Addr::to_ipv6_mapped`: `::ffff:a.b.c.d` (section 2.5.5.2 of RFC 4291). */
  function ToIpv6Mapped(v4: Ipv4Addr): Ipv6Addr
  {
    Ipv6Addr([0, 0, 0, 0, 0, 0, 0, 0, 0, 0, 0xff, 0xff] + v4.octets4)
  }

  /** `Ipv6Addr::to_ipv4_mapped`: the embedded IPv4 address of a `::ffff:a.b.c.d` address. */
  function ToIpv4Mapped(v6: Ipv6Addr): Option<Ipv4Addr>
  {
    if v6.octets[..12] == [0, 0, 0, 0, 0, 0, 0, 0, 0, 0, 0xff, 0xff] then Some(Ipv4Addr(v6.octets[12..])) else None
  }

  /** An IPv4 address mapped into IPv6 is recognised as mapped and gives back the same address. */
  lemma Ipv4MappedRoundTrip(v4: Ipv4Addr)
    ensures ToIpv4Mapped(ToIpv6Mapped(v4)) == Some(v4)
  {
    var m := ToIpv6Mapped(v4);
    assert m.octets[12..] == v4.octets4;
  }
}
