/**
 * The columnar document layout: a block of documents sharing one field
 * mapping, where each document keeps one array of values per type and a
 * directory of `OffsetInfo` entries saying which field owns how many values
 * of which type.
 */
module Documents {
  import opened Wrappers
  import opened MachineInts

  /** The type of a run of values; `#[repr(u16)]` with the tags below. */
  datatype FieldType = String | Bytes | Bool | U64 | I64 | F64 | Null

  /** The `u16` discriminant of each field type. */
  function Tag(t: FieldType): u16
  {
    match t
    case String => 0
    case Bytes => 1
    case Bool => 2
    case U64 => 3
    case I64 => 4
    case F64 => 5
    case Null => 6
  }

  /** The field type a `u16` tag stands for, if any. */
  function FromTag(tag: u16): Option<FieldType>
  {
    match tag
    case 0 => Some(String)
    case 1 => Some(Bytes)
    case 2 => Some(Bool)
    case 3 => Some(U64)
    case 4 => Some(I64)
    case 5 => Some(F64)
    case 6 => Some(Null)
    case _ => None
  }

  /** Every type reads back from its tag, and tags 7 and above stand for no type. */
  lemma TagRoundTrip(t: FieldType, tag: u16)
    ensures FromTag(Tag(t)) == Some(t)
    ensures FromTag(tag).Some? <==> tag < 7
    ensures FromTag(tag).Some? ==> Tag(FromTag(tag).value) == tag
  {
  }

  /** A directory entry: `field_length` values of `field_type` belong to field `field_id`. */
  datatype OffsetInfo = OffsetInfo(fieldId: u16, fieldLength: u16, fieldType: FieldType)

  /** One document: its directory and one value array per type. */
  datatype Document = Document(
    info: seq<OffsetInfo>,
    strings: seq<string>,
    bytes: seq<seq<u8>>,
    bools: seq<bool>,
    u64s: seq<u64>,
    i64s: seq<i64>,
    f64s: seq<F64Bits>)

  /** Documents sharing one mapping from field id (the index) to field name. */
  datatype DocumentBlock = DocumentBlock(fieldMapping: seq<string>, docs: seq<Document>)

  /** The `Default` document: no entries, no values. */
  function DefaultDocument(): Document
  {
    Document([], [], [], [], [], [], [])
  }

  /** The `Default` block: no fields, no documents. */
  function DefaultBlock(): DocumentBlock
  {
    DocumentBlock([], [])
  }

  /** How many values of type `t` the document holds (`Null` has no array). */
  function ArrayLength(d: Document, t: FieldType): nat
  {
    match t
    case String => |d.strings|
    case Bytes => |d.bytes|
    case Bool => |d.bools|
    case U64 => |d.u64s|
    case I64 => |d.i64s|
    case F64 => |d.f64s|
    case Null => 0
  }

  /** The sum of `field_length` over the entries of type `t`. */
  function TypeCount(info: seq<OffsetInfo>, t: FieldType): nat
  {
    if info == [] then 0
    else TypeCount(info[..|info| - 1], t) + (if info[|info| - 1].fieldType == t then info[|info| - 1].fieldLength else 0)
  }

  /**
   * A well-formed document for a block with `fieldCount` fields: every
   * field id is an index into the mapping, each type's lengths add up to its
   * array, `Null` entries hold no values, and no field has two entries of
   * the same type.
   */
  predicate ValidDocument(d: Document, fieldCount: nat)
  {
    && (forall k :: 0 <= k < |d.info| ==> d.info[k].fieldId < fieldCount)
    && (forall t: FieldType :: TypeCount(d.info, t) == ArrayLength(d, t))
    && (forall k :: 0 <= k < |d.info| && d.info[k].fieldType == Null ==> d.info[k].fieldLength == 0)
    && (forall j, k :: 0 <= j < k < |d.info| ==>
          d.info[j].fieldId != d.info[k].fieldId || d.info[j].fieldType != d.info[k].fieldType)
  }

  /** A well-formed block: every document is well formed against the block's field mapping. */
  predicate ValidBlock(b: DocumentBlock)
  {
    forall i :: 0 <= i < |b.docs| ==> ValidDocument(b.docs[i], |b.fieldMapping|)
  }

  /** The directory's counts add up over a split. */
  lemma {:induction false} TypeCountAppend(a: seq<OffsetInfo>, b: seq<OffsetInfo>, t: FieldType)
    ensures TypeCount(a + b, t) == TypeCount(a, t) + TypeCount(b, t)
  {
    if b != [] {
      assert (a + b)[..|a + b| - 1] == a + b[..|b| - 1];
      TypeCountAppend(a, b[..|b| - 1], t);
    } else {
      assert a + b == a;
    }
  }

  /** Where entry `k` starts reading in its type's array: the values of that type owned by earlier entries. */
  function Cursor(info: seq<OffsetInfo>, k: nat): nat
    requires k < |info|
  {
    TypeCount(info[..k], info[k].fieldType)
  }

  /**
   * Reading the entries left to right, each one advancing its type's cursor
   * by its length, stays inside the arrays of a well-formed document: entry
   * `k`'s values are `[Cursor(k), Cursor(k) + field_length)` of its type's
   * array, and a later entry of the same type starts at or after its end.
   */
  lemma EntryWithinArray(d: Document, fieldCount: nat, k: nat)
    requires ValidDocument(d, fieldCount)
    requires k < |d.info|
    ensures Cursor(d.info, k) + d.info[k].fieldLength <= ArrayLength(d, d.info[k].fieldType)
    ensures forall m :: k < m < |d.info| && d.info[m].fieldType == d.info[k].fieldType ==>
      Cursor(d.info, k) + d.info[k].fieldLength <= Cursor(d.info, m)
  {
    var t := d.info[k].fieldType;
    assert d.info == d.info[..k] + [d.info[k]] + d.info[k + 1..];
    TypeCountAppend(d.info[..k] + [d.info[k]], d.info[k + 1..], t);
    TypeCountAppend(d.info[..k], [d.info[k]], t);
    assert [d.info[k]][..0] == [];
    forall m | k < m < |d.info| && d.info[m].fieldType == t
      ensures Cursor(d.info, k) + d.info[k].fieldLength <= Cursor(d.info, m)
    {
      assert d.info[..m] == d.info[..k] + [d.info[k]] + d.info[k + 1..m];
      TypeCountAppend(d.info[..k] + [d.info[k]], d.info[k + 1..m], t);
    }
  }

  /** A `u16` length caps each entry, so the entries of one type hold at most 65535 values each. */
  lemma {:induction false} TypeCountBound(info: seq<OffsetInfo>, t: FieldType)
    ensures TypeCount(info, t) <= 65535 * |info|
  {
    if info != [] {
      TypeCountBound(info[..|info| - 1], t);
    }
  }

  /** The default document and block are well formed. */
  lemma DefaultsValid()
    ensures ValidDocument(DefaultDocument(), 0)
    ensures ValidBlock(DefaultBlock())
    ensures forall n: nat :: ValidDocument(DefaultDocument(), n)
  {
  }

  /**
   * A block with one document: field 0 `"title"` holding the string
   * `"hello"` and field 1 `"count"` holding the `u64` 42.
   */
  function ExampleBlock(): DocumentBlock
  {
    DocumentBlock(["title", "count"],
      [Document([OffsetInfo(0, 1, String), OffsetInfo(1, 1, U64)], ["hello"], [], [], [42], [], [])])
  }

  /** The example block is well formed, and its string entry reads `"hello"`, its `u64` entry 42. */
  lemma ExampleBlockValid()
    ensures ValidBlock(ExampleBlock())
    ensures var d := ExampleBlock().docs[0];
      Cursor(d.info, 0) == 0 && d.strings[Cursor(d.info, 0)] == "hello"
      && Cursor(d.info, 1) == 0 && d.u64s[Cursor(d.info, 1)] == 42
  {
    var d := ExampleBlock().docs[0];
    assert d.info[..0] == [] && d.info[..1] == [OffsetInfo(0, 1, String)];
    assert d.info[..|d.info| - 1] == [OffsetInfo(0, 1, String)];
    forall t: FieldType
      ensures TypeCount(d.info, t) == ArrayLength(d, t)
    {
      assert TypeCount(d.info[..1], t) == if t == String then 1 else 0;
    }
  }
}
