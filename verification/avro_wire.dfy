/** The bytes of an encoded link update, as the Avro specification gives them. */
module AvroWire {
  import opened Domain
  import opened Api
  import opened AvroCodec

  // ----- longs (Apache Avro specification, "Binary Encoding") -----

  /** The value of seven-bit groups, the lowest first. */
  function Value(bs: Bytes): nat {
    if bs == [] then 0 else bs[0] % 128 + 128 * Value(bs[1..])
  }

  /** A shortest variable-length encoding: every byte but the last has the high bit, and the last one is no
      empty group unless it is the only one. */
  predicate IsVarint(bs: Bytes) {
    && bs != [] && (forall i | 0 <= i < |bs| - 1 :: bs[i] >= 128) && bs[|bs| - 1] < 128
    && (|bs| > 1 ==> bs[|bs| - 1] != 0)
  }

  lemma {:induction false} VarintIs(n: nat)
    ensures IsVarint(Varint(n)) && Value(Varint(n)) == n
    ensures n != 0 ==> Varint(n)[|Varint(n)| - 1] != 0
  {
    if n < 128 {
      assert Value([]) == 0;
      assert Varint(n) == [n] && [n as byte][1..] == [];
    } else {
      VarintIs(n / 128);
      var tail := Varint(n / 128);
      var bs := Varint(n);
      assert bs[1..] == tail && bs[|bs| - 1] == tail[|tail| - 1];
      forall i | 0 <= i < |bs| - 1 ensures bs[i] >= 128 {
        assert i > 0 ==> bs[i] == tail[i - 1];
      }
    }
  }

  lemma {:induction false} VarintPositive(bs: Bytes)
    requires IsVarint(bs) && (|bs| > 1 || bs[0] != 0)
    ensures Value(bs) > 0 && (|bs| > 1 ==> Value(bs) >= 128)
  {
    if |bs| > 1 {
      assert bs[1..][|bs| - 2] == bs[|bs| - 1];
      VarintPositive(bs[1..]);
    }
  }

  lemma {:induction false} VarintIsOnly(bs: Bytes)
    requires IsVarint(bs)
    ensures bs == Varint(Value(bs))
  {
    if |bs| == 1 {
      assert bs[1..] == [] && Value(bs[1..]) == 0;
    } else {
      var tail := bs[1..];
      assert tail[|tail| - 1] == bs[|bs| - 1];
      VarintIsOnly(tail);
      VarintPositive(bs);
      assert Value(bs) / 128 == Value(tail) && Value(bs) % 128 == bs[0] % 128;
      assert bs == [bs[0]] + tail;
    }
  }

  /** The bytes of a number are the one shortest encoding that has its value. */
  lemma VarintExactly(n: nat, bs: Bytes)
    ensures bs == Varint(n) <==> IsVarint(bs) && Value(bs) == n
  {
    VarintIs(n);
    if IsVarint(bs) {
      VarintIsOnly(bs);
    }
  }

  /** The sign goes to the lowest bit: 0, -1, 1, -2, 2, ... become 0, 1, 2, 3, 4, ... */
  lemma ZigZagExactly(n: int, z: nat)
    ensures z == ZigZag(n) <==> (if z % 2 == 0 then n == z / 2 else n == -(z / 2) - 1)
    ensures n >= 0 <==> ZigZag(n) % 2 == 0
  {}

  lemma Varints()
    ensures Varint(0) == [0] && Varint(1) == [1] && Varint(2) == [2] && Varint(3) == [3] && Varint(4) == [4]
    ensures Varint(127) == [0x7f] && Varint(128) == [0x80, 0x01]
  {}

  /** The examples of the specification. */
  lemma LongExamples()
    ensures Long(0) == [0x00] && Long(-1) == [0x01] && Long(1) == [0x02] && Long(-2) == [0x03] && Long(2) == [0x04]
    ensures Long(-64) == [0x7f] && Long(64) == [0x80, 0x01]
  {
    Varints();
    assert ZigZag(-64) == 127 && ZigZag(64) == 128;
  }

  lemma SmallLong(n: nat)
    requires n < 64
    ensures Long(n) == [2 * n]
  {}

  /** A string is its length and its bytes, an array of two items their count, the items and a zero. */
  lemma StringAndArrayExamples()
    ensures Str([0x66, 0x6f, 0x6f]) == [0x06, 0x66, 0x6f, 0x6f]
    ensures Arr([3, 27]) == [0x04, 0x06, 0x36, 0x00]
    ensures Arr([]) == [0x00]
  {
    SmallLong(3);
    SmallLong(2);
    SmallLong(27);
    SmallLong(0);
    assert [3, 27][1..] == [27] && [27][1..] == [];
    assert Longs([27]) == Long(27) + Longs([]);
    assert Longs([3, 27]) == Long(3) + Longs([27]);
  }

  // ----- the record -----

  function Joined(parts: seq<Bytes>): Bytes {
    if parts == [] then [] else parts[0] + Joined(parts[1..])
  }

  function Parts(record: map<string, Native>, fields: seq<Field>): seq<Bytes>
    requires FitsAll(record, fields)
  {
    seq(|fields|, k requires 0 <= k < |fields| => Encode(record[fields[k].name], fields[k].kind))
  }

  lemma {:induction false} RecordIsParts(record: map<string, Native>, fields: seq<Field>)
    requires FitsAll(record, fields)
    ensures EncodeRecord(record, fields) == Joined(Parts(record, fields))
    decreases |fields|
  {
    if fields != [] {
      assert forall k | 0 <= k < |fields| - 1 :: fields[1..][k] == fields[k + 1];
      RecordIsParts(record, fields[1..]);
      assert Parts(record, fields)[1..] == Parts(record, fields[1..]);
    }
  }

  lemma ChatsPart(ids: seq<int>)
    requires Fits(NArray(Wrapped(ids)), TLongs)
    ensures Encode(NArray(Wrapped(ids)), TLongs) == Arr(ids)
  {
    assert Unwrapped(Wrapped(ids)) == ids;
  }

  /** The branch number of null, or that of string and the text. */
  function PriorityBytes(priority: Bytes): Bytes {
    if priority == [] then [0x00] else [0x02] + Str(priority)
  }

  lemma PriorityPart(priority: Bytes)
    requires Fits(NullableString(priority), TNullableString)
    ensures Encode(NullableString(priority), TNullableString) == PriorityBytes(priority)
  {
    SmallLong(0);
    SmallLong(1);
  }

  function BodyParts(u: AvroCodec.Update, createdAt: Bytes): seq<Bytes> {
    [Long(u.id), Str(u.url), Arr(u.tgChatIds), Str(u.kind), Str(u.title), Str(u.username), Str(createdAt),
     Str(u.preview), Str(u.description), PriorityBytes(u.priority)]
  }

  lemma SchemaKinds()
    ensures |SCHEMA| == 10 && SCHEMA[0] == Field("id", TLong) && SCHEMA[1] == Field("url", TString)
            && SCHEMA[2] == Field("tgChatIds", TLongs) && SCHEMA[3] == Field("type", TString)
            && SCHEMA[4] == Field("title", TString) && SCHEMA[5] == Field("username", TString)
            && SCHEMA[6] == Field("createdAt", TString) && SCHEMA[7] == Field("preview", TString)
            && SCHEMA[8] == Field("description", TString) && SCHEMA[9] == Field("priority", TNullableString)
  {}

  lemma FirstParts(r: map<string, Native>, u: AvroCodec.Update, times: TimeText)
    requires FitsAll(r, SCHEMA) && Holds(r, u, times)
    ensures Parts(r, SCHEMA)[..5] == BodyParts(u, times.format(u.createdAt))[..5]
  {
    SchemaKinds();
    ChatsPart(u.tgChatIds);
  }

  lemma LastParts(r: map<string, Native>, u: AvroCodec.Update, times: TimeText)
    requires FitsAll(r, SCHEMA) && Holds(r, u, times)
    ensures Parts(r, SCHEMA)[5..] == BodyParts(u, times.format(u.createdAt))[5..]
  {
    SchemaKinds();
    PriorityPart(u.priority);
  }

  lemma Halves(a: seq<Bytes>, b: seq<Bytes>)
    requires |a| >= 5 && |b| >= 5 && a[..5] == b[..5] && a[5..] == b[5..]
    ensures a == b
  {
    assert a == a[..5] + a[5..] && b == b[..5] + b[5..];
  }

  /** The body of a message: the fields in the order of the schema. */
  lemma RecordBytes(u: AvroCodec.Update, times: TimeText)
    requires FitsAll(ToNative(u, times), SCHEMA)
    ensures EncodeRecord(ToNative(u, times), SCHEMA) == Joined(BodyParts(u, times.format(u.createdAt)))
  {
    var r := ToNative(u, times);
    NativeHolds(u, times);
    RecordIsParts(r, SCHEMA);
    FirstParts(r, u, times);
    LastParts(r, u, times);
    Halves(Parts(r, SCHEMA), BodyParts(u, times.format(u.createdAt)));
  }

  /** A whole message: the zero byte and the four of the schema id, then that body. */
  lemma MessageBytes(u: AvroCodec.Update, times: TimeText, schemaID: int)
    requires IsGoUpdate(u, times)
    ensures var s := Serialized(u, times, schemaID);
            && |s| >= 5 && s[0] == 0 && FromBigEndian(s[1..5]) == schemaID % 0x1_0000_0000
            && s[5..] == Joined(BodyParts(u, times.format(u.createdAt)))
  {
    Header(u, times, schemaID);
    NativeFits(u, times);
    RecordBytes(u, times);
    Unframed(SchemaHeader(schemaID), EncodeRecord(ToNative(u, times), SCHEMA), []);
  }

  // ----- what is read back and what is refused -----

  lemma SizedItems(ns: seq<int>, size: int, tail: Bytes)
    requires 0 < |ns| && IsInt64(size) && forall k | 0 <= k < |ns| :: IsInt64(ns[k])
    ensures ReadBlock(Long(size) + (Longs(ns) + tail), -|ns|) == Some((ns, tail))
  {
    LongRoundTrip(size, Longs(ns) + tail);
    LongsRoundTrip(ns, tail);
  }

  lemma BlockThenRest(count: int, items: Bytes, ns: seq<int>, tail: Bytes)
    requires count != 0 && IsInt64(count) && ReadBlock(items, count) == Some((ns, tail)) && ReadArr(tail).Some?
    ensures ReadArr(Long(count) + items) == Some((ns + ReadArr(tail).value.0, ReadArr(tail).value.1))
  {
    LongRoundTrip(count, items);
  }

  /** A block whose count is negative says its size in bytes as well, and is read the same. */
  lemma SizedBlock(ns: seq<int>, size: int, rest: Bytes)
    requires 0 < |ns| < TWO_63 && IsInt64(size) && forall k | 0 <= k < |ns| :: IsInt64(ns[k])
    ensures ReadArr(Long(-|ns|) + (Long(size) + (Longs(ns) + (Long(0) + rest)))) == Some((ns, rest))
  {
    EndOfArray(rest);
    SizedItems(ns, size, Long(0) + rest);
    BlockThenRest(-|ns|, Long(size) + (Longs(ns) + (Long(0) + rest)), ns, Long(0) + rest);
    assert ns + [] == ns;
  }

  /** The frame decides first: fewer than five bytes, then the first byte, then the body. */
  lemma FrameRefused(payload: Bytes, times: TimeText)
    ensures |payload| < 5 ==> Deserialized(payload, times) == Err(TooShort)
    ensures |payload| >= 5 && payload[0] != 0 ==> Deserialized(payload, times) == Err(BadMagic(payload[0]))
    ensures |payload| >= 5 && payload[0] == 0 && DecodeRecord(payload[5..], SCHEMA).None? ==>
              Deserialized(payload, times) == Err(BadPayload)
  {}

  /** A body that decodes is refused for its time only. */
  lemma BodyRefused(payload: Bytes, times: TimeText)
    requires |payload| >= 5 && payload[0] == 0 && DecodeRecord(payload[5..], SCHEMA).Some?
    ensures Deserialized(payload, times).Err? ==> Deserialized(payload, times).error.BadTime?
  {
    SchemaNames();
    DecodedOfType(payload[HEADER_SIZE..], SCHEMA);
    TypedFieldsAreRead(DecodeRecord(payload[HEADER_SIZE..], SCHEMA).value.0, times);
  }
}
