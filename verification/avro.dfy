/** The Avro codec of link updates in Confluent framing. */
module AvroCodec {
  import opened Domain
  import opened Api

  type byte = x: int | 0 <= x < 256
  type Bytes = seq<byte>

  const MAGIC_BYTE: byte := 0
  const HEADER_SIZE := 5
  const TWO_63: int := 0x8000_0000_0000_0000
  const TWO_64: int := 0x1_0000_0000_0000_0000

  predicate IsInt64(n: int) {
    -TWO_63 <= n < TWO_63
  }

  // ----- longs: zig-zag and variable length (Apache Avro specification, "Binary Encoding") -----

  function ZigZag(n: int): nat {
    if n >= 0 then 2 * n else -2 * n - 1
  }

  function UnZigZag(z: nat): int {
    if z % 2 == 0 then z / 2 else -(z / 2) - 1
  }

  /** Seven bits a byte, the lowest first; the high bit says that more follow. */
  function Varint(n: nat): (r: Bytes)
    ensures r != []
  {
    if n < 128 then [n] else [n % 128 + 128] + Varint(n / 128)
  }

  function ReadVarint(bs: Bytes): Option<(nat, Bytes)> {
    if bs == [] then None
    else if bs[0] < 128 then Some((bs[0], bs[1..]))
    else match ReadVarint(bs[1..])
      case None => None
      case Some((high, rest)) => Some((high * 128 + (bs[0] - 128), rest))
  }

  lemma {:induction false} VarintRoundTrip(n: nat, rest: Bytes)
    ensures ReadVarint(Varint(n) + rest) == Some((n, rest))
  {
    var bs := Varint(n) + rest;
    if n < 128 {
      assert bs[1..] == rest;
    } else {
      VarintRoundTrip(n / 128, rest);
      assert bs[1..] == Varint(n / 128) + rest;
    }
  }

  lemma {:induction false} ReadVarintShortens(bs: Bytes)
    ensures ReadVarint(bs).Some? ==> |ReadVarint(bs).value.1| < |bs|
  {
    if bs != [] && bs[0] >= 128 {
      ReadVarintShortens(bs[1..]);
    }
  }

  function Long(n: int): Bytes {
    Varint(ZigZag(n))
  }

  /** A decoded long has 64 bits, however long its encoding is. */
  function ReadLong(bs: Bytes): (r: Option<(int, Bytes)>)
    ensures r.Some? ==> |r.value.1| < |bs| && IsInt64(r.value.0)
  {
    ReadVarintShortens(bs);
    match ReadVarint(bs)
    case None => None
    case Some((z, rest)) => Some((UnZigZag(z % TWO_64), rest))
  }

  lemma LongRoundTrip(n: int, rest: Bytes)
    requires IsInt64(n)
    ensures ReadLong(Long(n) + rest) == Some((n, rest))
  {
    VarintRoundTrip(ZigZag(n), rest);
    assert ZigZag(n) < TWO_64 && UnZigZag(ZigZag(n)) == n;
  }

  // ----- strings, arrays of longs, the union of null and string -----

  function Str(s: Bytes): Bytes {
    Long(|s|) + s
  }

  function ReadStr(bs: Bytes): Option<(Bytes, Bytes)> {
    match ReadLong(bs)
    case None => None
    case Some((n, rest)) => if 0 <= n <= |rest| then Some((rest[..n], rest[n..])) else None
  }

  lemma StrRoundTrip(s: Bytes, rest: Bytes)
    requires |s| < TWO_63
    ensures ReadStr(Str(s) + rest) == Some((s, rest))
  {
    LongRoundTrip(|s|, s + rest);
    assert Str(s) + rest == Long(|s|) + (s + rest);
    assert (s + rest)[..|s|] == s && (s + rest)[|s|..] == rest;
  }

  function Longs(ns: seq<int>): Bytes {
    if ns == [] then [] else Long(ns[0]) + Longs(ns[1..])
  }

  /** An array is one block, if it has any items, and the block of count 0. */
  function Arr(ns: seq<int>): Bytes {
    (if ns == [] then [] else Long(|ns|) + Longs(ns)) + Long(0)
  }

  function ReadLongs(bs: Bytes, n: nat): (r: Option<(seq<int>, Bytes)>)
    ensures r.Some? ==> |r.value.1| <= |bs|
    decreases n
  {
    if n == 0 then Some(([], bs)) else
      match ReadLong(bs)
      case None => None
      case Some((first, rest)) =>
        match ReadLongs(rest, n - 1)
        case None => None
        case Some((others, left)) => Some(([first] + others, left))
  }

  /** The items of a block; a negative count is followed by the size of its block. */
  function ReadBlock(bs: Bytes, count: int): (r: Option<(seq<int>, Bytes)>)
    ensures r.Some? ==> |r.value.1| <= |bs|
  {
    if count >= 0 then ReadLongs(bs, count)
    else match ReadLong(bs)
      case None => None
      case Some((_, rest)) => ReadLongs(rest, -count)
  }

  /** Blocks up to the one of count 0. */
  function ReadArr(bs: Bytes): Option<(seq<int>, Bytes)>
    decreases |bs|
  {
    match ReadLong(bs)
    case None => None
    case Some((count, rest)) =>
      if count == 0 then Some(([], rest)) else
        match ReadBlock(rest, count)
        case None => None
        case Some((items, left)) =>
          match ReadArr(left)
          case None => None
          case Some((others, end)) => Some((items + others, end))
  }

  lemma {:induction false} LongsRoundTrip(ns: seq<int>, rest: Bytes)
    requires forall k | 0 <= k < |ns| :: IsInt64(ns[k])
    ensures ReadLongs(Longs(ns) + rest, |ns|) == Some((ns, rest))
  {
    if ns == [] {
      assert Longs(ns) + rest == rest;
    } else {
      LongRoundTrip(ns[0], Longs(ns[1..]) + rest);
      LongsRoundTrip(ns[1..], rest);
      assert Longs(ns) + rest == Long(ns[0]) + (Longs(ns[1..]) + rest);
      assert [ns[0]] + ns[1..] == ns;
    }
  }

  lemma EndOfArray(rest: Bytes)
    ensures ReadArr(Long(0) + rest) == Some(([], rest))
  {
    LongRoundTrip(0, rest);
  }

  lemma BlockRoundTrip(ns: seq<int>, rest: Bytes)
    requires 0 < |ns| < TWO_63 && forall k | 0 <= k < |ns| :: IsInt64(ns[k])
    requires ReadArr(rest).Some?
    ensures ReadArr(Long(|ns|) + (Longs(ns) + rest)) == Some((ns + ReadArr(rest).value.0, ReadArr(rest).value.1))
  {
    LongRoundTrip(|ns|, Longs(ns) + rest);
    LongsRoundTrip(ns, rest);
  }

  lemma ArrRoundTrip(ns: seq<int>, rest: Bytes)
    requires |ns| < TWO_63 && forall k | 0 <= k < |ns| :: IsInt64(ns[k])
    ensures ReadArr(Arr(ns) + rest) == Some((ns, rest))
  {
    EndOfArray(rest);
    if ns == [] {
      assert Arr(ns) + rest == Long(0) + rest;
    } else {
      BlockRoundTrip(ns, Long(0) + rest);
      assert Arr(ns) + rest == Long(|ns|) + (Longs(ns) + (Long(0) + rest));
      assert ns + [] == ns;
    }
  }

  // ----- native values and the record -----

  /** What the Avro library takes and returns for a field: a union's string comes in its own wrapper. */
  datatype Native = NLong(long: int) | NString(text: Bytes) | NArray(items: seq<Native>) | NNull
    | NUnion(branch: string, text: Bytes)

  datatype Type = TLong | TString | TLongs | TNullableString

  datatype Field = Field(name: string, kind: Type)

  /** LinkUpdateEventSchema. */
  const SCHEMA: seq<Field> := [
    Field("id", TLong), Field("url", TString), Field("tgChatIds", TLongs), Field("type", TString),
    Field("title", TString), Field("username", TString), Field("createdAt", TString), Field("preview", TString),
    Field("description", TString), Field("priority", TNullableString)]

  predicate Fits(n: Native, kind: Type) {
    match kind
    case TLong => n.NLong? && IsInt64(n.long)
    case TString => n.NString? && |n.text| < TWO_63
    case TLongs =>
      n.NArray? && |n.items| < TWO_63 && forall k | 0 <= k < |n.items| :: n.items[k].NLong? && IsInt64(n.items[k].long)
    case TNullableString => n.NNull? || (n.NUnion? && n.branch == "string" && |n.text| < TWO_63)
  }

  function Unwrapped(items: seq<Native>): seq<int>
    requires forall k | 0 <= k < |items| :: items[k].NLong?
  {
    seq(|items|, k requires 0 <= k < |items| => items[k].long)
  }

  function Wrapped(ns: seq<int>): seq<Native> {
    seq(|ns|, k requires 0 <= k < |ns| => NLong(ns[k]))
  }

  function Encode(n: Native, kind: Type): Bytes
    requires Fits(n, kind)
  {
    match kind
    case TLong => Long(n.long)
    case TString => Str(n.text)
    case TLongs => Arr(Unwrapped(n.items))
    case TNullableString => if n.NNull? then Long(0) else Long(1) + Str(n.text)
  }

  function Decode(bs: Bytes, kind: Type): Option<(Native, Bytes)> {
    match kind
    case TLong => (match ReadLong(bs) case None => None case Some((n, rest)) => Some((NLong(n), rest)))
    case TString => (match ReadStr(bs) case None => None case Some((s, rest)) => Some((NString(s), rest)))
    case TLongs => (match ReadArr(bs) case None => None case Some((ns, rest)) => Some((NArray(Wrapped(ns)), rest)))
    case TNullableString =>
      (match ReadLong(bs)
       case None => None
       case Some((branch, rest)) =>
         if branch == 0 then Some((NNull, rest))
         else if branch != 1 then None
         else match ReadStr(rest) case None => None case Some((s, left)) => Some((NUnion("string", s), left)))
  }

  lemma LongsFieldRoundTrip(n: Native, rest: Bytes)
    requires Fits(n, TLongs)
    ensures Decode(Encode(n, TLongs) + rest, TLongs) == Some((n, rest))
  {
    ArrRoundTrip(Unwrapped(n.items), rest);
    assert Wrapped(Unwrapped(n.items)) == n.items;
  }

  lemma NullableRoundTrip(n: Native, rest: Bytes)
    requires Fits(n, TNullableString)
    ensures Decode(Encode(n, TNullableString) + rest, TNullableString) == Some((n, rest))
  {
    if n.NNull? {
      LongRoundTrip(0, rest);
    } else {
      LongRoundTrip(1, Str(n.text) + rest);
      StrRoundTrip(n.text, rest);
      assert Encode(n, TNullableString) + rest == Long(1) + (Str(n.text) + rest);
    }
  }

  lemma FieldRoundTrip(n: Native, kind: Type, rest: Bytes)
    requires Fits(n, kind)
    ensures Decode(Encode(n, kind) + rest, kind) == Some((n, rest))
  {
    match kind
    case TLong => LongRoundTrip(n.long, rest);
    case TString => StrRoundTrip(n.text, rest);
    case TLongs => LongsFieldRoundTrip(n, rest);
    case TNullableString => NullableRoundTrip(n, rest);
  }

  predicate FitsAll(record: map<string, Native>, fields: seq<Field>) {
    forall k | 0 <= k < |fields| :: fields[k].name in record && Fits(record[fields[k].name], fields[k].kind)
  }

  predicate DistinctNames(fields: seq<Field>) {
    forall i, j | 0 <= i < j < |fields| :: fields[i].name != fields[j].name
  }

  /** A record is its fields in the order of the schema. */
  function EncodeRecord(record: map<string, Native>, fields: seq<Field>): Bytes
    requires FitsAll(record, fields)
  {
    if fields == [] then [] else
      Encode(record[fields[0].name], fields[0].kind) + EncodeRecord(record, fields[1..])
  }

  function DecodeRecord(bs: Bytes, fields: seq<Field>): Option<(map<string, Native>, Bytes)>
    decreases |fields|
  {
    if fields == [] then Some((map[], bs)) else
      match Decode(bs, fields[0].kind)
      case None => None
      case Some((value, rest)) =>
        match DecodeRecord(rest, fields[1..])
        case None => None
        case Some((others, left)) => Some((others[fields[0].name := value], left))
  }

  /** The record r has the values of `record` in all the fields. */
  predicate HasFields(r: map<string, Native>, record: map<string, Native>, fields: seq<Field>) {
    forall k | 0 <= k < |fields| ::
      fields[k].name in record && fields[k].name in r && r[fields[k].name] == record[fields[k].name]
  }

  lemma OneMoreField(r: map<string, Native>, record: map<string, Native>, fields: seq<Field>)
    requires fields != [] && fields[0].name in record && HasFields(r, record, fields[1..])
    ensures HasFields(r[fields[0].name := record[fields[0].name]], record, fields)
  {
    forall k | 0 < k < |fields| ensures fields[k] == fields[1..][k - 1] {}
  }

  lemma RestFits(record: map<string, Native>, fields: seq<Field>)
    requires fields != [] && FitsAll(record, fields) && DistinctNames(fields)
    ensures FitsAll(record, fields[1..]) && DistinctNames(fields[1..])
  {}

  lemma DecodeFirst(value: Native, tail: Bytes, fields: seq<Field>)
    requires fields != [] && Fits(value, fields[0].kind) && DecodeRecord(tail, fields[1..]).Some?
    ensures var (r, left) := DecodeRecord(tail, fields[1..]).value;
            DecodeRecord(Encode(value, fields[0].kind) + tail, fields) == Some((r[fields[0].name := value], left))
  {
    FieldRoundTrip(value, fields[0].kind, tail);
  }

  lemma {:induction false} RecordRoundTrip(record: map<string, Native>, fields: seq<Field>, rest: Bytes)
    requires FitsAll(record, fields) && DistinctNames(fields)
    ensures DecodeRecord(EncodeRecord(record, fields) + rest, fields).Some?
    ensures var (r, left) := DecodeRecord(EncodeRecord(record, fields) + rest, fields).value;
            left == rest && HasFields(r, record, fields)
    decreases |fields|
  {
    if fields == [] {
      assert EncodeRecord(record, fields) + rest == rest;
    } else {
      RestFits(record, fields);
      var value, others := record[fields[0].name], EncodeRecord(record, fields[1..]);
      assert EncodeRecord(record, fields) + rest == Encode(value, fields[0].kind) + (others + rest);
      RecordRoundTrip(record, fields[1..], rest);
      DecodeFirst(value, others + rest, fields);
      OneMoreField(DecodeRecord(others + rest, fields[1..]).value.0, record, fields);
    }
  }

  // ----- link updates -----

  type Update = LinkUpdate<Bytes>

  /** The text of a time (RFC 3339, section 5.6) and its parser. */
  datatype TimeText = TimeText(format: Time -> Bytes, parse: Bytes -> Option<Time>)

  function NullableString(value: Bytes): Native {
    if value == [] then NNull else NUnion("string", value)
  }

  function ToNative(u: Update, times: TimeText): map<string, Native> {
    map[
      "id" := NLong(u.id), "url" := NString(u.url), "tgChatIds" := NArray(Wrapped(u.tgChatIds)),
      "type" := NString(u.kind), "title" := NString(u.title), "username" := NString(u.username),
      "createdAt" := NString(times.format(u.createdAt)), "preview" := NString(u.preview),
      "description" := NString(u.description), "priority" := NullableString(u.priority)]
  }

  datatype Failure = TooShort | BadMagic(found: byte) | BadPayload | MissingField(name: string)
    | WrongType(name: string) | BadTime

  function GetString(record: map<string, Native>, name: string): Result<Bytes, Failure> {
    if name !in record then Err(MissingField(name))
    else if !record[name].NString? then Err(WrongType(name))
    else Ok(record[name].text)
  }

  function GetInt64(record: map<string, Native>, name: string): Result<int, Failure> {
    if name !in record then Err(MissingField(name))
    else if !record[name].NLong? then Err(WrongType(name))
    else Ok(record[name].long)
  }

  function GetInt64Slice(record: map<string, Native>, name: string): Result<seq<int>, Failure> {
    if name !in record then Err(MissingField(name))
    else if !record[name].NArray? then Err(WrongType(name))
    else if exists k | 0 <= k < |record[name].items| :: !record[name].items[k].NLong? then Err(WrongType(name))
    else Ok(Unwrapped(record[name].items))
  }

  /** getOptionalStringField with its error dropped, as Deserialize does. */
  function GetOptionalString(record: map<string, Native>, name: string): Bytes {
    if name !in record then []
    else match record[name]
      case NString(text) => text
      case NUnion(branch, text) => if branch == "string" then text else []
      case _ => []
  }

  /** The fields in the order in which Deserialize reads them. */
  function FromNative(record: map<string, Native>, times: TimeText): Result<Update, Failure> {
    var createdAtRaw := GetString(record, "createdAt");
    if createdAtRaw.Err? then Err(createdAtRaw.error) else
    var createdAt := times.parse(createdAtRaw.value);
    if createdAt.None? then Err(BadTime) else
    var id := GetInt64(record, "id");
    if id.Err? then Err(id.error) else
    var url := GetString(record, "url");
    if url.Err? then Err(url.error) else
    var chats := GetInt64Slice(record, "tgChatIds");
    if chats.Err? then Err(chats.error) else
    var kind := GetString(record, "type");
    if kind.Err? then Err(kind.error) else
    var title := GetString(record, "title");
    if title.Err? then Err(title.error) else
    var username := GetString(record, "username");
    if username.Err? then Err(username.error) else
    var preview := GetString(record, "preview");
    if preview.Err? then Err(preview.error) else
    var description := GetString(record, "description");
    if description.Err? then Err(description.error) else
    Ok(LinkUpdate(id.value, url.value, chats.value, kind.value, title.value, username.value, createdAt.value,
                  preview.value, description.value, GetOptionalString(record, "priority")))
  }

  /** 64-bit ids and strings and lists that fit into memory: every update of the Go type. */
  predicate IsGoUpdate(u: Update, times: TimeText) {
    && IsInt64(u.id) && |u.tgChatIds| < TWO_63 && (forall k | 0 <= k < |u.tgChatIds| :: IsInt64(u.tgChatIds[k]))
    && |u.url| < TWO_63 && |u.kind| < TWO_63 && |u.title| < TWO_63 && |u.username| < TWO_63
    && |times.format(u.createdAt)| < TWO_63 && |u.preview| < TWO_63 && |u.description| < TWO_63 && |u.priority| < TWO_63
  }

  lemma NativeFits(u: Update, times: TimeText)
    requires IsGoUpdate(u, times)
    ensures FitsAll(ToNative(u, times), SCHEMA)
  {}

  /** The low k bytes of m, highest first. */
  function BigEndian(m: nat, k: nat): (r: Bytes)
    ensures |r| == k
  {
    if k == 0 then [] else BigEndian(m / 256, k - 1) + [m % 256]
  }

  function FromBigEndian(b: Bytes): nat {
    if b == [] then 0 else FromBigEndian(b[..|b| - 1]) * 256 + b[|b| - 1]
  }

  function Power256(k: nat): nat {
    if k == 0 then 1 else 256 * Power256(k - 1)
  }

  lemma {:induction false} BigEndianBack(m: nat, k: nat)
    requires m < Power256(k)
    ensures FromBigEndian(BigEndian(m, k)) == m
  {
    if k > 0 {
      BigEndianBack(m / 256, k - 1);
      assert BigEndian(m, k)[..k - 1] == BigEndian(m / 256, k - 1);
    }
  }

  /** uint32(schemaID), highest byte first. */
  function SchemaHeader(schemaID: int): (r: Bytes)
    ensures |r| == HEADER_SIZE
  {
    [MAGIC_BYTE] + BigEndian(schemaID % 0x1_0000_0000, 4)
  }

  function Serialized(u: Update, times: TimeText, schemaID: int): Bytes
    requires IsGoUpdate(u, times)
  {
    NativeFits(u, times);
    SchemaHeader(schemaID) + EncodeRecord(ToNative(u, times), SCHEMA)
  }

  function Deserialized(payload: Bytes, times: TimeText): Result<Update, Failure> {
    if |payload| < HEADER_SIZE then Err(TooShort)
    else if payload[0] != MAGIC_BYTE then Err(BadMagic(payload[0]))
    else match DecodeRecord(payload[HEADER_SIZE..], SCHEMA)
      case None => Err(BadPayload)
      case Some((record, _)) => FromNative(record, times)
  }

  /** The record holds the fields of the update, whatever else it holds. */
  predicate Holds(record: map<string, Native>, u: Update, times: TimeText) {
    && "id" in record && record["id"] == NLong(u.id)
    && "url" in record && record["url"] == NString(u.url)
    && "tgChatIds" in record && record["tgChatIds"] == NArray(Wrapped(u.tgChatIds))
    && "type" in record && record["type"] == NString(u.kind)
    && "title" in record && record["title"] == NString(u.title)
    && "username" in record && record["username"] == NString(u.username)
    && "createdAt" in record && record["createdAt"] == NString(times.format(u.createdAt))
    && "preview" in record && record["preview"] == NString(u.preview)
    && "description" in record && record["description"] == NString(u.description)
    && "priority" in record && record["priority"] == NullableString(u.priority)
  }

  lemma NativeHolds(u: Update, times: TimeText)
    ensures Holds(ToNative(u, times), u, times)
  {}

  lemma SchemaHasAll(u: Update, times: TimeText, record: map<string, Native>)
    requires HasFields(record, ToNative(u, times), SCHEMA)
    ensures Holds(record, u, times)
  {
    NativeHolds(u, times);
    assert SCHEMA[0].name == "id" && SCHEMA[1].name == "url" && SCHEMA[2].name == "tgChatIds"
           && SCHEMA[3].name == "type";
    assert SCHEMA[4].name == "title" && SCHEMA[5].name == "username" && SCHEMA[6].name == "createdAt";
    assert SCHEMA[7].name == "preview" && SCHEMA[8].name == "description" && SCHEMA[9].name == "priority";
  }

  /** Reading the fields back from the record they were put into. */
  lemma NativeRoundTrip(u: Update, times: TimeText, record: map<string, Native>)
    requires times.parse(times.format(u.createdAt)) == Some(u.createdAt) && Holds(record, u, times)
    ensures FromNative(record, times) == Ok(u)
  {
    assert Unwrapped(Wrapped(u.tgChatIds)) == u.tgChatIds;
  }

  lemma SchemaNames()
    ensures DistinctNames(SCHEMA)
  {}

  lemma RecordBack(u: Update, times: TimeText, trailing: Bytes)
    requires IsGoUpdate(u, times) && times.parse(times.format(u.createdAt)) == Some(u.createdAt)
    requires FitsAll(ToNative(u, times), SCHEMA)
    ensures var r := DecodeRecord(EncodeRecord(ToNative(u, times), SCHEMA) + trailing, SCHEMA);
            r.Some? && FromNative(r.value.0, times) == Ok(u)
  {
    var record := ToNative(u, times);
    SchemaNames();
    RecordRoundTrip(record, SCHEMA, trailing);
    SchemaHasAll(u, times, DecodeRecord(EncodeRecord(record, SCHEMA) + trailing, SCHEMA).value.0);
    NativeRoundTrip(u, times, DecodeRecord(EncodeRecord(record, SCHEMA) + trailing, SCHEMA).value.0);
  }

  lemma Unframed(head: Bytes, body: Bytes, trailing: Bytes)
    requires |head| == HEADER_SIZE
    ensures (head + body + trailing)[..HEADER_SIZE] == head
            && (head + body + trailing)[HEADER_SIZE..] == body + trailing
  {}

  /** What is deserialized is what was serialized, whatever follows it, for every update whose time has a
      text that parses back to it. */
  lemma RoundTrip(u: Update, times: TimeText, schemaID: int, trailing: Bytes)
    requires IsGoUpdate(u, times) && times.parse(times.format(u.createdAt)) == Some(u.createdAt)
    ensures Deserialized(Serialized(u, times, schemaID) + trailing, times) == Ok(u)
  {
    NativeFits(u, times);
    RecordBack(u, times, trailing);
    var head, body := SchemaHeader(schemaID), EncodeRecord(ToNative(u, times), SCHEMA);
    Unframed(head, body, trailing);
    assert (head + body + trailing)[..HEADER_SIZE][0] == MAGIC_BYTE;
  }

  /** The header: a zero byte, then the schema id modulo 2^32, highest byte first. */
  lemma Header(u: Update, times: TimeText, schemaID: int)
    requires IsGoUpdate(u, times)
    ensures var s := Serialized(u, times, schemaID);
            |s| >= HEADER_SIZE && s[0] == 0 && FromBigEndian(s[1..HEADER_SIZE]) == schemaID % 0x1_0000_0000
  {
    assert Power256(4) == 0x1_0000_0000;
    BigEndianBack(schemaID % 0x1_0000_0000, 4);
    NativeFits(u, times);
    Unframed(SchemaHeader(schemaID), EncodeRecord(ToNative(u, times), SCHEMA), []);
    var s := Serialized(u, times, schemaID);
    assert s[..HEADER_SIZE] == SchemaHeader(schemaID);
    assert s[1..HEADER_SIZE] == SchemaHeader(schemaID)[1..];
  }

  // ----- what Deserialize refuses -----

  predicate OfType(n: Native, kind: Type) {
    match kind
    case TLong => n.NLong?
    case TString => n.NString?
    case TLongs => n.NArray? && forall k | 0 <= k < |n.items| :: n.items[k].NLong?
    case TNullableString => n.NNull? || n.NUnion?
  }

  /** A decoded record has every field of the schema, with its type. */
  lemma {:induction false} DecodedOfType(bs: Bytes, fields: seq<Field>)
    requires DistinctNames(fields) && DecodeRecord(bs, fields).Some?
    ensures var r := DecodeRecord(bs, fields).value.0;
            forall k | 0 <= k < |fields| :: fields[k].name in r && OfType(r[fields[k].name], fields[k].kind)
    decreases |fields|
  {
    if fields != [] {
      var (value, rest) := Decode(bs, fields[0].kind).value;
      DecodedOfType(rest, fields[1..]);
      var r := DecodeRecord(rest, fields[1..]).value.0[fields[0].name := value];
      forall k | 0 <= k < |fields| ensures fields[k].name in r && OfType(r[fields[k].name], fields[k].kind) {
        if k > 0 {
          assert fields[k] == fields[1..][k - 1];
        }
      }
    }
  }

  lemma TypedFieldsAreRead(record: map<string, Native>, times: TimeText)
    requires forall k | 0 <= k < |SCHEMA| :: SCHEMA[k].name in record && OfType(record[SCHEMA[k].name], SCHEMA[k].kind)
    ensures FromNative(record, times).Err? ==> FromNative(record, times).error == BadTime
  {
    assert SCHEMA[0] == Field("id", TLong) && SCHEMA[1] == Field("url", TString)
           && SCHEMA[2] == Field("tgChatIds", TLongs);
    assert SCHEMA[3] == Field("type", TString) && SCHEMA[4] == Field("title", TString)
           && SCHEMA[5] == Field("username", TString);
    assert SCHEMA[6] == Field("createdAt", TString) && SCHEMA[7] == Field("preview", TString);
    assert SCHEMA[8] == Field("description", TString);
  }

  /** A payload is refused for its frame, its encoding or its time only: the field getters' errors cannot
      happen, because the schema has every field they ask for. */
  lemma FieldErrorsNeverHappen(payload: Bytes, times: TimeText)
    requires Deserialized(payload, times).Err?
    ensures var e := Deserialized(payload, times).error; e.TooShort? || e.BadMagic? || e.BadPayload? || e.BadTime?
  {
    if |payload| >= HEADER_SIZE && payload[0] == MAGIC_BYTE && DecodeRecord(payload[HEADER_SIZE..], SCHEMA).Some? {
      SchemaNames();
      DecodedOfType(payload[HEADER_SIZE..], SCHEMA);
      TypedFieldsAreRead(DecodeRecord(payload[HEADER_SIZE..], SCHEMA).value.0, times);
    }
  }

  lemma {:induction false} ReadVarintExtends(bs: Bytes, more: Bytes)
    requires ReadVarint(bs).Some?
    ensures ReadVarint(bs + more) == Some((ReadVarint(bs).value.0, ReadVarint(bs).value.1 + more))
  {
    assert (bs + more)[1..] == bs[1..] + more;
    if bs[0] >= 128 {
      ReadVarintExtends(bs[1..], more);
    }
  }

  lemma ReadLongExtends(bs: Bytes, more: Bytes)
    requires ReadLong(bs).Some?
    ensures ReadLong(bs + more) == Some((ReadLong(bs).value.0, ReadLong(bs).value.1 + more))
  {
    ReadVarintExtends(bs, more);
  }

  lemma ReadStrExtends(bs: Bytes, more: Bytes)
    requires ReadStr(bs).Some?
    ensures ReadStr(bs + more) == Some((ReadStr(bs).value.0, ReadStr(bs).value.1 + more))
  {
    ReadLongExtends(bs, more);
    var (n, rest) := ReadLong(bs).value;
    assert (rest + more)[..n] == rest[..n] && (rest + more)[n..] == rest[n..] + more;
  }

  lemma {:induction false} ReadLongsExtends(bs: Bytes, n: nat, more: Bytes)
    requires ReadLongs(bs, n).Some?
    ensures ReadLongs(bs + more, n) == Some((ReadLongs(bs, n).value.0, ReadLongs(bs, n).value.1 + more))
    decreases n
  {
    if n > 0 {
      ReadLongExtends(bs, more);
      ReadLongsExtends(ReadLong(bs).value.1, n - 1, more);
    }
  }

  lemma ReadBlockExtends(bs: Bytes, count: int, more: Bytes)
    requires ReadBlock(bs, count).Some?
    ensures ReadBlock(bs + more, count) == Some((ReadBlock(bs, count).value.0, ReadBlock(bs, count).value.1 + more))
  {
    if count >= 0 {
      ReadLongsExtends(bs, count, more);
    } else {
      ReadLongExtends(bs, more);
      ReadLongsExtends(ReadLong(bs).value.1, -count, more);
    }
  }

  lemma {:induction false} ReadArrExtends(bs: Bytes, more: Bytes)
    requires ReadArr(bs).Some?
    ensures ReadArr(bs + more) == Some((ReadArr(bs).value.0, ReadArr(bs).value.1 + more))
    decreases |bs|
  {
    ReadLongExtends(bs, more);
    var (count, rest) := ReadLong(bs).value;
    if count != 0 {
      ReadBlockExtends(rest, count, more);
      ReadArrExtends(ReadBlock(rest, count).value.1, more);
    }
  }

  lemma DecodeExtends(bs: Bytes, kind: Type, more: Bytes)
    requires Decode(bs, kind).Some?
    ensures Decode(bs + more, kind) == Some((Decode(bs, kind).value.0, Decode(bs, kind).value.1 + more))
  {
    match kind
    case TLong => ReadLongExtends(bs, more);
    case TString => ReadStrExtends(bs, more);
    case TLongs => ReadArrExtends(bs, more);
    case TNullableString =>
      ReadLongExtends(bs, more);
      if ReadLong(bs).value.0 != 0 {
        ReadStrExtends(ReadLong(bs).value.1, more);
      }
  }

  /** Decoding never looks past what it consumes. */
  lemma {:induction false} DecodeRecordExtends(bs: Bytes, fields: seq<Field>, more: Bytes)
    requires DecodeRecord(bs, fields).Some?
    ensures DecodeRecord(bs + more, fields)
            == Some((DecodeRecord(bs, fields).value.0, DecodeRecord(bs, fields).value.1 + more))
    decreases |fields|
  {
    if fields != [] {
      DecodeExtends(bs, fields[0].kind, more);
      DecodeRecordExtends(Decode(bs, fields[0].kind).value.1, fields[1..], more);
    }
  }

  lemma TruncatedRecord(record: map<string, Native>, fields: seq<Field>, n: nat)
    requires FitsAll(record, fields) && DistinctNames(fields) && n < |EncodeRecord(record, fields)|
    ensures DecodeRecord(EncodeRecord(record, fields)[..n], fields).None?
  {
    var body := EncodeRecord(record, fields);
    RecordRoundTrip(record, fields, []);
    assert body + [] == body && body[..n] + body[n..] == body;
    if DecodeRecord(body[..n], fields).Some? {
      DecodeRecordExtends(body[..n], fields, body[n..]);
    }
  }

  lemma MalformedBody(head: Bytes, body: Bytes, times: TimeText)
    requires |head| == HEADER_SIZE && head[0] == MAGIC_BYTE && DecodeRecord(body, SCHEMA).None?
    ensures Deserialized(head + body, times) == Err(BadPayload)
  {
    assert (head + body)[HEADER_SIZE..] == body;
  }

  lemma Cut(head: Bytes, body: Bytes, n: nat)
    requires |head| <= n <= |head| + |body|
    ensures (head + body)[..n] == head + body[..n - |head|]
  {}

  lemma TruncatedMessage(head: Bytes, record: map<string, Native>, times: TimeText, n: nat)
    requires |head| == HEADER_SIZE && head[0] == MAGIC_BYTE && FitsAll(record, SCHEMA)
    requires n < |head| + |EncodeRecord(record, SCHEMA)|
    ensures Deserialized((head + EncodeRecord(record, SCHEMA))[..n], times)
            == Err(if n < HEADER_SIZE then TooShort else BadPayload)
  {
    var body := EncodeRecord(record, SCHEMA);
    if n >= HEADER_SIZE {
      SchemaNames();
      TruncatedRecord(record, SCHEMA, n - HEADER_SIZE);
      MalformedBody(head, body[..n - HEADER_SIZE], times);
      Cut(head, body, n);
    }
  }

  /** A serialized update that is cut short anywhere is refused. */
  lemma TruncatedIsRefused(u: Update, times: TimeText, schemaID: int, n: nat)
    requires IsGoUpdate(u, times) && n < |Serialized(u, times, schemaID)|
    ensures Deserialized(Serialized(u, times, schemaID)[..n], times)
            == Err(if n < HEADER_SIZE then TooShort else BadPayload)
  {
    NativeFits(u, times);
    TruncatedMessage(SchemaHeader(schemaID), ToNative(u, times), times, n);
  }

  // ----- the codec -----

  class LinkUpdateCodec {
    const schemaID: int
    const times: TimeText

    constructor (schemaID: int, times: TimeText)
      ensures this.schemaID == schemaID && this.times == times
    {
      this.schemaID, this.times := schemaID, times;
    }

    method Int64SliceToNative(values: seq<int>) returns (result: seq<Native>)
      ensures result == Wrapped(values)
    {
      result := [];
      for i := 0 to |values|
        invariant result == Wrapped(values[..i])
      {
        result := result + [NLong(values[i])];
      }
      assert values[..|values|] == values;
    }

    method GetInt64SliceField(record: map<string, Native>, name: string) returns (r: Result<seq<int>, Failure>)
      ensures r == GetInt64Slice(record, name)
    {
      if name !in record {
        return Err(MissingField(name));
      }
      if !record[name].NArray? {
        return Err(WrongType(name));
      }
      var raw := record[name].items;
      var result: seq<int> := [];
      for i := 0 to |raw|
        invariant forall k | 0 <= k < i :: raw[k].NLong?
        invariant result == Unwrapped(raw[..i])
      {
        if !raw[i].NLong? {
          return Err(WrongType(name));
        }
        result := result + [raw[i].long];
      }
      assert raw[..|raw|] == raw;
      r := Ok(result);
    }

    /** The buffer holds the header and then the record. */
    method Serialize(u: Update) returns (result: array<byte>)
      requires IsGoUpdate(u, times)
      ensures fresh(result) && result[..] == Serialized(u, times, schemaID)
    {
      NativeFits(u, times);
      var chats := Int64SliceToNative(u.tgChatIds);
      var native := ToNative(u, times)["tgChatIds" := NArray(chats)];
      assert native == ToNative(u, times);
      var payload := EncodeRecord(native, SCHEMA);
      result := new byte[HEADER_SIZE + |payload|](_ => 0);
      result[0] := MAGIC_BYTE;
      PutUint32(result, schemaID);
      for i := 0 to |payload|
        invariant result[..HEADER_SIZE] == SchemaHeader(schemaID)
        invariant forall k | 0 <= k < i :: result[HEADER_SIZE + k] == payload[k]
      {
        result[HEADER_SIZE + i] := payload[i];
      }
      assert result[..] == result[..HEADER_SIZE] + payload;
    }

    method PutUint32(buffer: array<byte>, n: int)
      requires buffer.Length >= HEADER_SIZE
      modifies buffer
      ensures buffer[..HEADER_SIZE] == [old(buffer[0])] + BigEndian(n % 0x1_0000_0000, 4)
      ensures forall k | HEADER_SIZE <= k < buffer.Length :: buffer[k] == old(buffer[k])
    {
      var bytes := BigEndian(n % 0x1_0000_0000, 4);
      buffer[1], buffer[2], buffer[3], buffer[4] := bytes[0], bytes[1], bytes[2], bytes[3];
    }
  }
}
