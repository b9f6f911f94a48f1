/**
 * Segment naming for the block store: the `FileKey` of a segment file, its
 * text form `"{timestamp}-{shard_id}"` and the parser for it, the 12-byte
 * buffer the key is hashed from, and the path of a new segment.
 */
module FileKeys {
  import opened Wrappers
  import opened MachineInts
  import opened Decimal

  /** Identifies one segment file: its creation time in seconds and the shard that owns it. */
  datatype FileKey = FileKey(timestamp: u64, shardId: usize)

  /** Why a segment name did not parse. */
  datatype KeyError = MissingSeparator | InvalidTimestamp | InvalidShardId

  /** `Display` for `FileKey`: `"{timestamp}-{shard_id}"`. */
  function Format(k: FileKey): string
  {
    NatToString(k.timestamp) + "-" + NatToString(k.shardId)
  }

  /** The index of the first `c` in `s`: where `str::split_once` splits. */
  function FindFirst(s: string, c: char): (r: Option<nat>)
    ensures r.Some? ==> r.value < |s| && s[r.value] == c && c !in s[..r.value]
    ensures r.None? ==> c !in s
  {
    if s == [] then None
    else if s[0] == c then Some(0)
    else match FindFirst(s[1..], c)
      case None => None
      case Some(i) => assert s[1..][..i] == s[1..i + 1]; Some(i + 1)
  }

  /**
   * `FileKey::from_str`: split at the first `-`, then parse the left part as
   * a `u64` timestamp and the right part as a `usize` shard id.
   */
  function FromStr(s: string): Result<FileKey, KeyError>
  {
    match FindFirst(s, '-')
    case None => Err(MissingSeparator)
    case Some(i) =>
      match ParseUnsigned(s[..i], U64_MAX)
      case None => Err(InvalidTimestamp)
      case Some(timestamp) =>
        match ParseUnsigned(s[i + 1..], U64_MAX)
        case None => Err(InvalidShardId)
        case Some(shardId) => Ok(FileKey(timestamp, shardId))
  }

  /** In `a + "-" + b` with no `-` in `a`, the first `-` is the one after `a`. */
  lemma FirstSeparator(a: string, b: string)
    requires '-' !in a
    ensures FindFirst(a + "-" + b, '-') == Some(|a|)
    ensures (a + "-" + b)[..|a|] == a && (a + "-" + b)[|a| + 1..] == b
  {
    var s := a + "-" + b;
    assert s[|a|] == '-';
    assert forall j :: 0 <= j < |a| ==> s[j] == a[j] != '-';
    assert s[..|a| + 1][|a|] == '-';
  }

  /** A run of digits holds no `-`. */
  lemma DigitsHaveNoDash(s: string)
    requires AllDigits(s)
    ensures '-' !in s
  {
    assert forall k :: 0 <= k < |s| ==> s[k] != '-';
  }

  /**
   * The text of a key is the decimal timestamp, then a single `-`, then the
   * decimal shard id.
   */
  lemma FormatShape(k: FileKey)
    ensures var s, n := Format(k), |NatToString(k.timestamp)|;
      && n < |s| && s[n] == '-'
      && (forall i :: 0 <= i < |s| && i != n ==> IsDigit(s[i]))
      && AllDigits(s[..n]) && DigitsValue(s[..n]) == k.timestamp
      && AllDigits(s[n + 1..]) && DigitsValue(s[n + 1..]) == k.shardId
  {
    var a, b := NatToString(k.timestamp), NatToString(k.shardId);
    NatToStringDigits(k.timestamp);
    NatToStringDigits(k.shardId);
    var s := Format(k);
    assert s[..|a|] == a && s[|a| + 1..] == b;
    forall i | 0 <= i < |s| && i != |a|
      ensures IsDigit(s[i])
    {
      if i < |a| {
        assert s[i] == a[i];
      } else {
        assert s[i] == b[i - |a| - 1];
      }
    }
  }

  /** Parsing the text of any key gives the key back. */
  lemma FormatRoundTrip(k: FileKey)
    ensures FromStr(Format(k)) == Ok(k)
  {
    var a, b := NatToString(k.timestamp), NatToString(k.shardId);
    NatToStringDigits(k.timestamp);
    DigitsHaveNoDash(a);
    FirstSeparator(a, b);
    ParseUnsignedRoundTrip(k.timestamp, U64_MAX);
    ParseUnsignedRoundTrip(k.shardId, U64_MAX);
  }

  /** Two keys with the same text are the same key. */
  lemma FormatInjective(k1: FileKey, k2: FileKey)
    requires Format(k1) == Format(k2)
    ensures k1 == k2
  {
    FormatRoundTrip(k1);
    FormatRoundTrip(k2);
  }

  /** A string without `-` is rejected. */
  lemma FromStrMissingSeparator(s: string)
    requires '-' !in s
    ensures FromStr(s) == Err(MissingSeparator)
  {
  }

  /**
   * The split is at the first `-`: the part before it is the timestamp and
   * everything after it, further `-` included, is the shard id.
   */
  lemma FromStrSplitsAtFirstSeparator(a: string, b: string)
    requires '-' !in a
    ensures FromStr(a + "-" + b) ==
      match ParseUnsigned(a, U64_MAX)
      case None => Err(InvalidTimestamp)
      case Some(t) =>
        match ParseUnsigned(b, U64_MAX)
        case None => Err(InvalidShardId)
        case Some(sh) => Ok(FileKey(t, sh))
  {
    FirstSeparator(a, b);
  }

  /** A second `-` lands in the shard part, whose parse then fails. */
  lemma FromStrRejectsSecondSeparator(a: string, b: string)
    requires '-' !in a && '-' in b
    ensures FromStr(a + "-" + b).Err?
    ensures ParseUnsigned(a, U64_MAX).Some? ==> FromStr(a + "-" + b) == Err(InvalidShardId)
  {
    FromStrSplitsAtFirstSeparator(a, b);
    ParseUnsignedRejectsDash(b, U64_MAX);
  }

  /** An empty timestamp or an empty shard id is rejected. */
  lemma FromStrRejectsEmptySide(a: string, b: string)
    requires '-' !in a
    ensures FromStr("-" + b) == Err(InvalidTimestamp)
    ensures FromStr(a + "-").Err?
  {
    FromStrSplitsAtFirstSeparator([], b);
    assert "-" + b == [] + "-" + b;
    FromStrSplitsAtFirstSeparator(a, []);
    assert a + "-" == a + "-" + [];
  }

  /** A timestamp too large for a `u64` is rejected, as is a shard id too large for a `usize`. */
  lemma FromStrRejectsOutOfRange(t: nat, sh: nat)
    requires t > U64_MAX || sh > U64_MAX
    ensures FromStr(NatToString(t) + "-" + NatToString(sh)).Err?
  {
    NatToStringDigits(t);
    DigitsHaveNoDash(NatToString(t));
    FromStrSplitsAtFirstSeparator(NatToString(t), NatToString(sh));
    if t > U64_MAX {
      ParseUnsignedOverflow(t, U64_MAX);
    } else {
      ParseUnsignedOverflow(sh, U64_MAX);
    }
  }

  /** Parsing is not injective: `"07-1"` and `"7-1"` name the same key. */
  lemma FromStrNotInjective()
    ensures FromStr("07-1") == FromStr("7-1") == Ok(FileKey(7, 1))
  {
    FromStrSplitsAtFirstSeparator("07", "1");
    FromStrSplitsAtFirstSeparator("7", "1");
    assert "07" + "-" + "1" == "07-1";
    assert "7" + "-" + "1" == "7-1";
    assert AllDigits("7") && DigitsValue("7") == 7;
    LeadingZeroIgnored("7");
    assert "0" + "7" == "07";
    assert AllDigits("1") && DigitsValue("1") == 1;
  }

  // ---- The hash input of a key ----

  function Pow256(n: nat): (r: nat)
    ensures r >= 1
  {
    if n == 0 then 1 else 256 * Pow256(n - 1)
  }

  /** The low `n` bytes of `v`, most significant first: `to_be_bytes` of an `n`-byte integer. */
  function BigEndian(v: nat, n: nat): (r: seq<u8>)
    ensures |r| == n
  {
    if n == 0 then [] else BigEndian(v / 256, n - 1) + [v % 256]
  }

  /** The value of a big-endian byte string. */
  function FromBigEndian(s: seq<u8>): nat
  {
    if s == [] then 0 else FromBigEndian(s[..|s| - 1]) * 256 + s[|s| - 1]
  }

  lemma DivBelow(v: nat, p: nat)
    requires v < 256 * p
    ensures v / 256 < p
  {
  }

  /** Reading back the big-endian bytes of a value that fits in `n` bytes gives the value. */
  lemma {:induction false} BigEndianRoundTrip(v: nat, n: nat)
    requires v < Pow256(n)
    ensures FromBigEndian(BigEndian(v, n)) == v
  {
    if n > 0 {
      DivBelow(v, Pow256(n - 1));
      BigEndianRoundTrip(v / 256, n - 1);
      var s := BigEndian(v, n);
      assert s[..|s| - 1] == BigEndian(v / 256, n - 1);
    }
  }

  /** `shard_id as u32`: the low 32 bits of the shard id. */
  function TruncateU32(x: nat): nat
  {
    x % U32_LIMIT
  }

  /**
   * The 12 bytes a key is hashed from: the timestamp as 8 big-endian bytes,
   * then the shard id truncated to 32 bits as 4 big-endian bytes.
   */
  function HashInput(k: FileKey): seq<u8>
  {
    BigEndian(k.timestamp, 8) + BigEndian(TruncateU32(k.shardId), 4)
  }

  /**
   * `Key::to_hash` up to the byte hash itself: fills a zeroed 12-byte buffer
   * with the two big-endian encodings, as the two `copy_from_slice` calls do.
   */
  method HashBuffer(k: FileKey) returns (buffer: seq<u8>)
    ensures buffer == HashInput(k)
  {
    var a := new u8[12](_ => 0);
    var timestampBytes := BigEndian(k.timestamp, 8);
    var i := 0;
    while i < 8
      invariant 0 <= i <= 8
      invariant a[..i] == timestampBytes[..i]
      invariant forall j :: i <= j < 12 ==> a[j] == 0
    {
      a[i] := timestampBytes[i];
      i := i + 1;
    }
    var shardBytes := BigEndian(TruncateU32(k.shardId), 4);
    i := 0;
    while i < 4
      invariant 0 <= i <= 4
      invariant a[..8] == timestampBytes
      invariant a[8..8 + i] == shardBytes[..i]
    {
      a[8 + i] := shardBytes[i];
      i := i + 1;
    }
    buffer := a[..];
    assert buffer == a[..8] + a[8..12];
  }

  /**
   * The layout of the hash input: exactly 12 bytes, the first 8 reading back
   * as the timestamp and the last 4 as the low 32 bits of the shard id.
   */
  lemma HashInputLayout(k: FileKey)
    ensures |HashInput(k)| == 12
    ensures FromBigEndian(HashInput(k)[..8]) == k.timestamp
    ensures FromBigEndian(HashInput(k)[8..]) == TruncateU32(k.shardId)
  {
    var h := HashInput(k);
    assert h[..8] == BigEndian(k.timestamp, 8);
    assert h[8..] == BigEndian(TruncateU32(k.shardId), 4);
    assert Pow256(8) == U64_LIMIT;
    assert Pow256(4) == U32_LIMIT;
    BigEndianRoundTrip(k.timestamp, 8);
    BigEndianRoundTrip(TruncateU32(k.shardId), 4);
  }

  /**
   * Two keys hash from the same bytes exactly when their timestamps agree
   * and their shard ids agree modulo 2^32.
   */
  lemma HashInputCollision(k1: FileKey, k2: FileKey)
    ensures HashInput(k1) == HashInput(k2) <==>
      k1.timestamp == k2.timestamp && TruncateU32(k1.shardId) == TruncateU32(k2.shardId)
  {
    HashInputLayout(k1);
    HashInputLayout(k2);
  }

  // ---- Naming a new segment ----

  const NANOS_PER_SEC: nat := 1_000_000_000

  /** `Path::join` on Unix: an absolute name replaces the base; otherwise a `/` is put between them unless the base is empty or already ends with one. */
  function JoinPath(base: string, name: string): string
  {
    if |name| > 0 && name[0] == '/' then name
    else if |base| > 0 && base[|base| - 1] != '/' then base + "/" + name
    else base + name
  }

  /** The file name of the segment for `key`: `"{key}.blocks"`. */
  function SegmentFileName(key: FileKey): string
  {
    Format(key) + ".blocks"
  }

  /** The unix time in whole seconds of a clock reading given in nanoseconds since the epoch. */
  function UnixTimestamp(clockNanos: nat): u64
    requires clockNanos < U64_LIMIT * NANOS_PER_SEC
  {
    clockNanos / NANOS_PER_SEC
  }

  /**
   * `get_new_segment`: the key for a new segment of `shardId`, stamped with
   * the current unix time, and its path inside `basePath`. The clock reading
   * is a parameter.
   */
  function GetNewSegment(basePath: string, shardId: usize, clockNanos: nat): (FileKey, string)
    requires clockNanos < U64_LIMIT * NANOS_PER_SEC
  {
    var key := FileKey(UnixTimestamp(clockNanos), shardId);
    (key, JoinPath(basePath, SegmentFileName(key)))
  }

  /** Joining a relative name keeps the name as the path's tail, after a prefix that depends on the base only. */
  lemma JoinPathRelative(base: string, name: string)
    requires |name| > 0 && name[0] != '/'
    ensures var sep := if |base| > 0 && base[|base| - 1] != '/' then "/" else "";
      JoinPath(base, name) == base + sep + name
  {
  }

  /**
   * A new segment belongs to the requested shard, carries the current unix
   * second, lives in `basePath` under `"{key}.blocks"`, and its file name
   * without the extension parses back to its key.
   */
  lemma GetNewSegmentNaming(basePath: string, shardId: usize, clockNanos: nat)
    requires clockNanos < U64_LIMIT * NANOS_PER_SEC
    ensures var (key, path) := GetNewSegment(basePath, shardId, clockNanos);
      var name := SegmentFileName(key);
      && key.shardId == shardId
      && key.timestamp == clockNanos / NANOS_PER_SEC
      && |name| <= |path| && path[|path| - |name|..] == name
      && name[|name| - 7..] == ".blocks"
      && FromStr(name[..|name| - 7]) == Ok(key)
  {
    var (key, path) := GetNewSegment(basePath, shardId, clockNanos);
    var name := SegmentFileName(key);
    NatToStringNoSign(key.timestamp);
    JoinPathRelative(basePath, name);
    assert name[..|name| - 7] == Format(key);
    FormatRoundTrip(key);
  }

  /** Distinct keys give distinct segment paths in the same directory. */
  lemma SegmentPathsDistinct(basePath: string, k1: FileKey, k2: FileKey)
    requires k1 != k2
    ensures JoinPath(basePath, SegmentFileName(k1)) != JoinPath(basePath, SegmentFileName(k2))
  {
    var n1, n2 := SegmentFileName(k1), SegmentFileName(k2);
    NatToStringNoSign(k1.timestamp);
    NatToStringNoSign(k2.timestamp);
    JoinPathRelative(basePath, n1);
    JoinPathRelative(basePath, n2);
    if JoinPath(basePath, n1) == JoinPath(basePath, n2) {
      var sep := if |basePath| > 0 && basePath[|basePath| - 1] != '/' then "/" else "";
      var p := basePath + sep;
      assert JoinPath(basePath, n1) == p + n1 && JoinPath(basePath, n2) == p + n2;
      assert n1 == (p + n1)[|p|..];
      assert n1 == n2;
      assert Format(k1) == n1[..|n1| - 7] == n2[..|n2| - 7] == Format(k2);
      FormatInjective(k1, k2);
    }
  }

  /**
   * Segments of one shard created in different seconds get different paths,
   * and a later segment never carries an earlier timestamp.
   */
  lemma NewSegmentsOrderedAndDistinct(basePath: string, shardId: usize, c1: nat, c2: nat)
    requires c1 < U64_LIMIT * NANOS_PER_SEC && c2 < U64_LIMIT * NANOS_PER_SEC
    ensures c1 <= c2 ==> GetNewSegment(basePath, shardId, c1).0.timestamp <= GetNewSegment(basePath, shardId, c2).0.timestamp
    ensures c1 / NANOS_PER_SEC != c2 / NANOS_PER_SEC ==>
      GetNewSegment(basePath, shardId, c1).1 != GetNewSegment(basePath, shardId, c2).1
  {
    if c1 / NANOS_PER_SEC != c2 / NANOS_PER_SEC {
      SegmentPathsDistinct(basePath, GetNewSegment(basePath, shardId, c1).0, GetNewSegment(basePath, shardId, c2).0);
    }
  }

  // ---- The timestamp as the source computes it ----

  /**
   * `timestamp()` as written: `SystemTime::now().elapsed()` is the time
   * between reading the clock and reading it again, not the time since the
   * epoch. `None` is the panic of `unwrap` when the clock went backwards.
   */
  function TimestampAsWritten(nowNanos: nat, elapsedReadNanos: nat): Option<nat>
  {
    if elapsedReadNanos >= nowNanos then Some((elapsedReadNanos - nowNanos) / NANOS_PER_SEC) else None
  }

  /** `get_new_segment` with the timestamp as written. */
  function GetNewSegmentAsWritten(basePath: string, shardId: usize, nowNanos: nat, elapsedReadNanos: nat): Option<(FileKey, string)>
  {
    match TimestampAsWritten(nowNanos, elapsedReadNanos)
    case None => None
    case Some(t) =>
      if t > U64_MAX then None
      else
        var key := FileKey(t, shardId);
        Some((key, JoinPath(basePath, SegmentFileName(key))))
  }

  /**
   * When each call's second clock read comes less than a second after its
   * first, the timestamp as written is 0 whatever the time, so two segments
   * of one shard created at any two times get the same key and path.
   */
  lemma AsWrittenSegmentsCollide(basePath: string, shardId: usize, t1: nat, e1: nat, t2: nat, e2: nat)
    requires t1 <= e1 < t1 + NANOS_PER_SEC
    requires t2 <= e2 < t2 + NANOS_PER_SEC
    ensures TimestampAsWritten(t1, e1) == Some(0) && TimestampAsWritten(t2, e2) == Some(0)
    ensures GetNewSegmentAsWritten(basePath, shardId, t1, e1).Some?
    ensures GetNewSegmentAsWritten(basePath, shardId, t1, e1) == GetNewSegmentAsWritten(basePath, shardId, t2, e2)
    ensures GetNewSegmentAsWritten(basePath, shardId, t1, e1).value.0 == FileKey(0, shardId)
  {
  }
}
