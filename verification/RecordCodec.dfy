// The record format of the segment file: EncodeRecord and DecodeRecord of src/core/storage/record.cc, and
// the size a record announces before it is read whole (src/core/storage/segment_log.cc).
module RecordCodec {
  import opened Bytes
  import opened Wrappers
  import Crc64

  const MAGIC: u32 := 0x504D5151
  const VERSION: u16 := 1
  const HEADER_SIZE := 64

  datatype Error = HeaderTooSmall | HeaderMismatch | KvTooSmall | KvTruncated | PayloadTruncated | CrcMismatch

  datatype Header = Header(
    magic: u32, version: u16, kvCount: u16, payloadSize: u32, crc: bv64, offset: u64, enqueued: u64,
    idHigh: u64, idLow: u64, routingKeySize: u32)

  datatype Kv = Kv(key: seq<byte>, value: seq<byte>)

  datatype Record = Record(header: Header, payload: seq<byte>, headers: seq<Kv>, routingKey: seq<byte>)

  // static_cast<uint16_t> and static_cast<uint32_t> of a size.
  function Cast16(n: nat): u16 {
    n % 0x1_0000
  }

  function Cast32(n: nat): u32 {
    n % 0x1_0000_0000
  }

  // ---------------------------------------------------------------------------------------------
  // The format
  // ---------------------------------------------------------------------------------------------

  function Sizes(h: Header): (bytes: seq<byte>)
    ensures |bytes| == 16
  {
    LittleEndian(h.magic, 4) + LittleEndian(h.version, 2) + LittleEndian(h.kvCount, 2) + LittleEndian(h.payloadSize, 4)
    + LittleEndian(0, 4)
  }

  function Tags(h: Header): (bytes: seq<byte>)
    ensures |bytes| == 40
  {
    LittleEndian(h.offset, 8) + LittleEndian(h.enqueued, 8) + LittleEndian(h.idHigh, 8) + LittleEndian(h.idLow, 8)
    + LittleEndian(h.routingKeySize, 4) + LittleEndian(0, 4)
  }

  // The 64-byte memory image of a header; the gaps of the layout are zero.
  function HeaderBytes(h: Header): (bytes: seq<byte>)
    ensures |bytes| == HEADER_SIZE
  {
    Sizes(h) + WordBytes(h.crc) + Tags(h)
  }

  function HeaderOf(data: seq<byte>): Header
    requires |data| >= HEADER_SIZE
  {
    Header(Field32(data, 0), Field16(data, 4), Field16(data, 6), Field32(data, 8), Word(data[16..24]),
           Field64(data, 24),
           Field64(data, 32), Field64(data, 40), Field64(data, 48), Field32(data, 56))
  }

  // A size that does not fit 32 bits is cut down, and the string with it.
  function KvBytes(kv: Kv): seq<byte> {
    var k, v := Cast32(|kv.key|), Cast32(|kv.value|);
    LittleEndian(k, 4) + LittleEndian(v, 4) + kv.key[..k] + kv.value[..v]
  }

  function KvsBytes(kvs: seq<Kv>): seq<byte> {
    if kvs == [] then [] else KvBytes(kvs[0]) + KvsBytes(kvs[1..])
  }

  function Body(r: Record): seq<byte> {
    KvsBytes(r.headers) + r.routingKey + r.payload
  }

  // The record with its size and checksum fields filled in.
  function Filled(r: Record): Record {
    r.(header := r.header.(
      payloadSize := Cast32(|r.payload|), kvCount := Cast16(|r.headers|), routingKeySize := Cast32(|r.routingKey|),
      crc := Crc64.Crc(Body(r))))
  }

  function Encode(r: Record): seq<byte> {
    HeaderBytes(Filled(r).header) + Body(r)
  }

  datatype Parsed = Parsed(kvs: seq<Kv>, end: nat)

  // The key-value pairs from position at on.
  function ParseKvs(data: seq<byte>, at: nat, n: nat): Result<Parsed, Error>
    decreases n
  {
    if n == 0 then Ok(Parsed([], at))
    else if at + 8 > |data| then Err(KvTooSmall)
    else
      var k, v := Field32(data, at), Field32(data, at + 4);
      if at + 8 + k + v > |data| then Err(KvTruncated)
      else
        Prepend([Kv(data[at + 8..at + 8 + k], data[at + 8 + k..at + 8 + k + v])], ParseKvs(data, at + 8 + k + v, n - 1))
  }

  function Prepend(kvs: seq<Kv>, rest: Result<Parsed, Error>): (r: Result<Parsed, Error>)
    ensures rest.Err? ==> r == rest
    ensures rest.Ok? ==> r == Ok(Parsed(kvs + rest.value.kvs, rest.value.end))
  {
    match rest
    case Err(e) => Err(e)
    case Ok(p) => Ok(Parsed(kvs + p.kvs, p.end))
  }

  function Decode(data: seq<byte>): Result<Record, Error> {
    if |data| < HEADER_SIZE then Err(HeaderTooSmall)
    else
      var h := HeaderOf(data);
      if h.magic != MAGIC || h.version != VERSION then Err(HeaderMismatch)
      else
        match ParseKvs(data, HEADER_SIZE, h.kvCount)
        case Err(e) => Err(e)
        case Ok(p) => DecodeRest(data, h, p)
  }

  function DecodeRest(data: seq<byte>, h: Header, p: Parsed): Result<Record, Error>
    requires |data| >= HEADER_SIZE
  {
    if p.end + h.routingKeySize + h.payloadSize > |data| then Err(PayloadTruncated)
    else if Crc64.Crc(data[HEADER_SIZE..]) != h.crc then Err(CrcMismatch)
    else
      var middle := p.end + h.routingKeySize;
      Ok(Record(h, data[middle..middle + h.payloadSize], p.kvs, data[p.end..middle]))
  }

  // ---------------------------------------------------------------------------------------------
  // The code
  // ---------------------------------------------------------------------------------------------

  method EncodeRecord(record: Record) returns (out: seq<byte>)
    ensures out == Encode(record)
  {
    hide Crc64.Crc, Sizes, Tags, KvBytes, WordBytes;
    var header := record.header.(
      payloadSize := Cast32(|record.payload|), kvCount := Cast16(|record.headers|),
      routingKeySize := Cast32(|record.routingKey|));
    out := HeaderBytes(header);
    var i := 0;
    while i < |record.headers|
      invariant 0 <= i <= |record.headers|
      invariant |out| >= HEADER_SIZE && out[..HEADER_SIZE] == HeaderBytes(header)
      invariant out[HEADER_SIZE..] + KvsBytes(record.headers[i..]) == KvsBytes(record.headers)
    {
      ghost var before := out;
      out := EncodeKv(out, record.headers[i]);
      ghost var rest := record.headers[i..];
      assert rest[0] == record.headers[i] && rest[1..] == record.headers[i + 1..];
      assert out[HEADER_SIZE..] == before[HEADER_SIZE..] + KvBytes(record.headers[i]);
      i := i + 1;
    }
    assert out[HEADER_SIZE..] == KvsBytes(record.headers);
    out := out + record.routingKey;
    out := out + record.payload;
    assert out[HEADER_SIZE..] == Body(record);
    var crc := Crc64.Compute(out[HEADER_SIZE..]);
    PatchCrc(header, out, crc);
    out := out[..16] + WordBytes(crc) + out[24..];
  }

  method EncodeKv(out: seq<byte>, kv: Kv) returns (longer: seq<byte>)
    ensures longer == out + KvBytes(kv)
  {
    hide LittleEndian;
    var keySize := Cast32(|kv.key|);
    var valueSize := Cast32(|kv.value|);
    longer := out + LittleEndian(keySize, 4);
    longer := longer + LittleEndian(valueSize, 4);
    longer := longer + kv.key[..keySize];
    longer := longer + kv.value[..valueSize];
    Regroup(out, LittleEndian(keySize, 4), LittleEndian(valueSize, 4), kv.key[..keySize], kv.value[..valueSize]);
  }

  // Overwriting the 8 bytes at position 16 sets the checksum field and nothing else.
  lemma {:induction false} PatchCrc(h: Header, out: seq<byte>, crc: bv64)
    requires |out| >= HEADER_SIZE && out[..HEADER_SIZE] == HeaderBytes(h)
    ensures out[..16] + WordBytes(crc) + out[24..] == HeaderBytes(h.(crc := crc)) + out[HEADER_SIZE..]
  {
    hide LittleEndian, WordBytes;
    assert Sizes(h.(crc := crc)) == Sizes(h) && Tags(h.(crc := crc)) == Tags(h);
    hide Sizes, Tags;
    assert out == HeaderBytes(h) + out[HEADER_SIZE..];
    assert out[..16] == Sizes(h);
    assert out[24..] == Tags(h) + out[HEADER_SIZE..];
  }

  // The loop of DecodeRecord over the key-value pairs.
  method ReadKvs(data: seq<byte>, count: u16) returns (result: Result<Parsed, Error>)
    requires |data| >= HEADER_SIZE
    ensures result == ParseKvs(data, HEADER_SIZE, count)
  {
    hide Field32, Prepend;
    var offset := HEADER_SIZE;
    var headers: seq<Kv> := [];
    var i := 0;
    PrependNothing(ParseKvs(data, offset, count));
    while i < count
      invariant 0 <= i <= count && HEADER_SIZE <= offset
      invariant ParseKvs(data, HEADER_SIZE, count) == Prepend(headers, ParseKvs(data, offset, count - i))
    {
      if offset + 8 > |data| {
        return Err(KvTooSmall);
      }
      var keySize := Field32(data, offset);
      var valueSize := Field32(data, offset + 4);
      offset := offset + 8;
      if offset + keySize + valueSize > |data| {
        return Err(KvTruncated);
      }
      var key := data[offset..offset + keySize];
      offset := offset + keySize;
      var value := data[offset..offset + valueSize];
      offset := offset + valueSize;
      PrependTwice(headers, Kv(key, value), ParseKvs(data, offset, count - i - 1));
      headers := headers + [Kv(key, value)];
      i := i + 1;
    }
    assert headers + [] == headers;
    result := Ok(Parsed(headers, offset));
  }

  method DecodeRecord(data: seq<byte>) returns (result: Result<Record, Error>)
    ensures result == Decode(data)
  {
    hide Crc64.Crc, HeaderOf, ParseKvs;
    if |data| < HEADER_SIZE {
      return Err(HeaderTooSmall);
    }
    var header := HeaderOf(data);
    if header.magic != MAGIC || header.version != VERSION {
      return Err(HeaderMismatch);
    }
    var kvs := ReadKvs(data, header.kvCount);
    if kvs.Err? {
      return Err(kvs.error);
    }
    var offset := kvs.value.end;
    if offset + header.routingKeySize + header.payloadSize > |data| {
      return Err(PayloadTruncated);
    }
    var routingKey := data[offset..offset + header.routingKeySize];
    offset := offset + header.routingKeySize;
    var payload := data[offset..offset + header.payloadSize];
    var crc := Crc64.Compute(data[HEADER_SIZE..]);
    if crc != header.crc {
      return Err(CrcMismatch);
    }
    result := Ok(Record(header, payload, kvs.value.kvs, routingKey));
  }

  lemma {:induction false} PrependNothing(rest: Result<Parsed, Error>)
    ensures Prepend([], rest) == rest
  {
    if rest.Ok? {
      assert [] + rest.value.kvs == rest.value.kvs;
    }
  }

  lemma {:induction false} PrependTwice(kvs: seq<Kv>, kv: Kv, rest: Result<Parsed, Error>)
    ensures Prepend(kvs, Prepend([kv], rest)) == Prepend(kvs + [kv], rest)
  {
    if rest.Ok? {
      assert kvs + ([kv] + rest.value.kvs) == kvs + [kv] + rest.value.kvs;
    }
  }

  // ---------------------------------------------------------------------------------------------
  // Reading back what was written
  // ---------------------------------------------------------------------------------------------

  // The records whose counts and sizes the format can hold.
  ghost predicate Fits(r: Record) {
    && |r.headers| < 0x1_0000
    && |r.payload| < 0x1_0000_0000
    && |r.routingKey| < 0x1_0000_0000
    && forall i :: 0 <= i < |r.headers| ==> KvFits(r.headers[i])
  }

  predicate KvFits(kv: Kv) {
    |kv.key| < 0x1_0000_0000 && |kv.value| < 0x1_0000_0000
  }

  lemma {:induction false} SizesRead(h: Header, data: seq<byte>)
    requires |data| >= 16 && data[..16] == Sizes(h)
    ensures Field32(data, 0) == h.magic && Field16(data, 4) == h.version && Field16(data, 6) == h.kvCount
    ensures Field32(data, 8) == h.payloadSize
  {
    hide LittleEndian, Field16, Field32, Field64;
    var s := data[..16];
    assert data[0..4] == s[0..4] == LittleEndian(h.magic, 4);
    assert data[4..6] == s[4..6] == LittleEndian(h.version, 2);
    assert data[6..8] == s[6..8] == LittleEndian(h.kvCount, 2);
    assert data[8..12] == s[8..12] == LittleEndian(h.payloadSize, 4);
    Written32(data, 0, h.magic);
    Written16(data, 4, h.version);
    Written16(data, 6, h.kvCount);
    Written32(data, 8, h.payloadSize);
  }

  lemma {:induction false} TagsRead(h: Header, data: seq<byte>)
    requires |data| >= 64 && data[24..64] == Tags(h)
    ensures Field64(data, 24) == h.offset && Field64(data, 32) == h.enqueued && Field64(data, 40) == h.idHigh
    ensures Field64(data, 48) == h.idLow && Field32(data, 56) == h.routingKeySize
  {
    hide LittleEndian, Field16, Field32, Field64;
    var o, e := LittleEndian(h.offset, 8), LittleEndian(h.enqueued, 8);
    var i, l := LittleEndian(h.idHigh, 8), LittleEndian(h.idLow, 8);
    var k := LittleEndian(h.routingKeySize, 4) + LittleEndian(0, 4);
    assert Tags(h) == (o + e) + ((i + l) + k);
    hide Tags;
    Window(data, 24, o + e, (i + l) + k);
    Window(data, 24, o, e);
    Window(data, 40, i + l, k);
    Window(data, 40, i, l);
    Window(data, 56, LittleEndian(h.routingKeySize, 4), LittleEndian(0, 4));
    Written64(data, 24, h.offset);
    Written64(data, 32, h.enqueued);
    Written64(data, 40, h.idHigh);
    Written64(data, 48, h.idLow);
    Written32(data, 56, h.routingKeySize);
  }

  // A header survives the trip through its memory image, whatever follows it.
  lemma {:induction false} HeaderRoundTrip(h: Header, data: seq<byte>)
    requires |data| >= HEADER_SIZE && data[..HEADER_SIZE] == HeaderBytes(h)
    ensures HeaderOf(data) == h
  {
    hide Sizes, Tags, WordBytes, Field16, Field32, Field64, Word;
    var image := data[..HEADER_SIZE];
    assert data[..16] == image[..16] == Sizes(h);
    assert data[16..24] == image[16..24] == WordBytes(h.crc);
    assert data[24..64] == image[24..64] == Tags(h);
    SizesRead(h, data);
    TagsRead(h, data);
    WordOfBytes(h.crc);
  }

  lemma {:induction false} KvBytesWhole(kv: Kv)
    requires KvFits(kv)
    ensures KvBytes(kv) == LittleEndian(|kv.key|, 4) + LittleEndian(|kv.value|, 4) + (kv.key + kv.value)
  {
    hide LittleEndian;
    var k, v := |kv.key|, |kv.value|;
    assert Cast32(k) == k && Cast32(v) == v;
    assert kv.key[..k] == kv.key && kv.value[..v] == kv.value;
  }

  // One pair, read at the position where it was written.
  lemma {:induction false} KvRead(kv: Kv, data: seq<byte>, at: nat, end: nat)
    requires KvFits(kv) && at <= end <= |data| && data[at..end] == KvBytes(kv)
    ensures end == at + 8 + |kv.key| + |kv.value|
    ensures Field32(data, at) == |kv.key| && Field32(data, at + 4) == |kv.value|
    ensures data[at + 8..at + 8 + |kv.key|] == kv.key
    ensures data[at + 8 + |kv.key|..at + 8 + |kv.key| + |kv.value|] == kv.value
  {
    hide LittleEndian, Field32, KvBytes;
    var k, v := LittleEndian(|kv.key|, 4), LittleEndian(|kv.value|, 4);
    KvBytesWhole(kv);
    Window(data, at, k + v, kv.key + kv.value);
    Window(data, at, k, v);
    Window(data, at + 8, kv.key, kv.value);
    Written32(data, at, |kv.key|);
    Written32(data, at + 4, |kv.value|);
  }

  lemma {:induction false} KvsRoundTrip(kvs: seq<Kv>, data: seq<byte>, at: nat)
    requires at + |KvsBytes(kvs)| <= |data| && data[at..at + |KvsBytes(kvs)|] == KvsBytes(kvs)
    requires forall i :: 0 <= i < |kvs| ==> KvFits(kvs[i])
    ensures ParseKvs(data, at, |kvs|) == Ok(Parsed(kvs, at + |KvsBytes(kvs)|))
    decreases |kvs|
  {
    hide KvBytes, Field32, KvFits, Prepend;
    if kvs != [] {
      var first, rest := KvBytes(kvs[0]), KvsBytes(kvs[1..]);
      Window(data, at, first, rest);
      KvRead(kvs[0], data, at, at + |first|);
      KvsRoundTrip(kvs[1..], data, at + |first|);
      assert [kvs[0]] + kvs[1..] == kvs;
    }
  }

  // The records an encoder of this version can write.
  ghost predicate Writable(r: Record) {
    Fits(r) && r.header.magic == MAGIC && r.header.version == VERSION
  }

  lemma {:induction false} EncodingLayout(r: Record, data: seq<byte>)
    requires Encode(r) <= data && Fits(r)
    ensures HEADER_SIZE + |KvsBytes(r.headers)| <= |data|
    ensures HeaderOf(data) == Filled(r).header
    ensures ParseKvs(data, HEADER_SIZE, |r.headers|) == Ok(Parsed(r.headers, HEADER_SIZE + |KvsBytes(r.headers)|))
  {
    hide HeaderOf, ParseKvs, HeaderBytes, KvsBytes, Crc64.Crc, KvFits;
    var n := |Encode(r)|;
    assert data[..n] == Encode(r);
    Window(data, 0, HeaderBytes(Filled(r).header), Body(r));
    assert data[..HEADER_SIZE] == data[0..HEADER_SIZE];
    assert Body(r) == KvsBytes(r.headers) + (r.routingKey + r.payload);
    hide Body;
    HeaderRoundTrip(Filled(r).header, data);
    Window(data, HEADER_SIZE, KvsBytes(r.headers), r.routingKey + r.payload);
    KvsRoundTrip(r.headers, data, HEADER_SIZE);
  }

  lemma {:induction false} FilledSizes(r: Record)
    requires Fits(r)
    ensures
      var h := Filled(r).header;
      && h.kvCount == |r.headers| && h.payloadSize == |r.payload| && h.routingKeySize == |r.routingKey|
      && h.magic == r.header.magic && h.version == r.header.version && h.crc == Crc64.Crc(Body(r))
      && |Encode(r)| == HEADER_SIZE + |KvsBytes(r.headers)| + h.routingKeySize + h.payloadSize
  {
    hide KvsBytes, Crc64.Crc, HeaderBytes;
  }

  lemma {:induction false} DecodesWhatFits(r: Record)
    requires Writable(r)
    ensures Decode(Encode(r)) == Ok(Filled(r))
  {
    hide HeaderOf, ParseKvs, HeaderBytes, KvsBytes, Crc64.Crc, KvFits, Filled, Body;
    var data := Encode(r);
    EncodingLayout(r, data);
    FilledSizes(r);
    assert data[HEADER_SIZE..] == Body(r);
    var kvs := KvsBytes(r.headers);
    assert Body(r) == kvs + (r.routingKey + r.payload) by {
      BodyRegroups(r);
    }
    assert data[HEADER_SIZE..HEADER_SIZE + |Body(r)|] == Body(r);
    Window(data, HEADER_SIZE, kvs, r.routingKey + r.payload);
    Window(data, HEADER_SIZE + |kvs|, r.routingKey, r.payload);
    FilledKeeps(r);
  }

  lemma {:induction false} BodyRegroups(r: Record)
    ensures Body(r) == KvsBytes(r.headers) + (r.routingKey + r.payload)
  {
    hide KvsBytes;
  }

  lemma {:induction false} FilledKeeps(r: Record)
    ensures Filled(r) == Record(Filled(r).header, r.payload, r.headers, r.routingKey)
  {
    hide Crc64.Crc, Body;
  }

  lemma {:induction false} ParsedFits(data: seq<byte>, at: nat, n: nat)
    requires at <= |data| && ParseKvs(data, at, n).Ok?
    ensures
      var p := ParseKvs(data, at, n).value;
      at <= p.end <= |data| && |p.kvs| == n && forall i :: 0 <= i < n ==> KvFits(p.kvs[i])
    decreases n
  {
    hide Field32, Prepend;
    if n > 0 {
      ParsedFits(data, at + 8 + Field32(data, at) + Field32(data, at + 4), n - 1);
    }
  }

  // Whatever bytes it comes from, a decoded record has the sizes its header states.
  lemma {:induction false} DecodedFits(data: seq<byte>)
    requires Decode(data).Ok?
    ensures
      var r := Decode(data).value;
      && Writable(r) && r.header == HeaderOf(data)
      && r.header.kvCount == |r.headers| && r.header.payloadSize == |r.payload|
      && r.header.routingKeySize == |r.routingKey|
  {
    hide HeaderOf, ParseKvs, Crc64.Crc, KvFits;
    var h := HeaderOf(data);
    ParsedFits(data, HEADER_SIZE, h.kvCount);
  }

  // A record comes back as it was written, with its size and checksum fields filled, exactly if the format
  // can hold its counts and sizes and it carries the current magic number and version.
  lemma {:induction false} RoundTrip(r: Record)
    ensures Decode(Encode(r)) == Ok(Filled(r)) <==> Writable(r)
  {
    hide Decode, Encode, Filled, KvFits;
    if Decode(Encode(r)) == Ok(Filled(r)) {
      DecodedFits(Encode(r));
      FilledKeeps(r);
      FilledVersion(r);
    } else if Writable(r) {
      DecodesWhatFits(r);
    }
  }

  lemma {:induction false} FilledVersion(r: Record)
    ensures Filled(r).header.magic == r.header.magic && Filled(r).header.version == r.header.version
  {
    hide Crc64.Crc, Body;
  }

  // ---------------------------------------------------------------------------------------------
  // Where everything is
  // ---------------------------------------------------------------------------------------------

  // The format, byte by byte: the fields of the header at their places in the 64-byte image, "PMQQ" as a number
  // first, then the pairs, the routing key and the payload; the checksum is that of all behind the header.
  lemma {:induction false} RecordLayout(r: Record)
    requires Writable(r)
    ensures
      var d := Encode(r);
      var kvs, key := HEADER_SIZE + |KvsBytes(r.headers)|, |r.routingKey|;
      && |d| == kvs + key + |r.payload|
      && d[64..kvs] == KvsBytes(r.headers) && d[kvs..kvs + key] == r.routingKey && d[kvs + key..] == r.payload
      && Word(d[16..24]) == Crc64.Crc(d[64..])
      && Number(d[0..4]) == 0x504D5151 && Number(d[4..6]) == 1
      && Number(d[6..8]) == |r.headers| && Number(d[8..12]) == |r.payload|
      && Number(d[24..32]) == r.header.offset && Number(d[32..40]) == r.header.enqueued
      && Number(d[40..48]) == r.header.idHigh && Number(d[48..56]) == r.header.idLow
      && Number(d[56..60]) == |r.routingKey|
  {
    hide KvsBytes, Crc64.Crc, HeaderBytes, Number, KvFits, Word;
    var d, kvs := Encode(r), KvsBytes(r.headers);
    EncodingHasHeader(r);
    FilledSizes(r);
    EncodingLayout(r, d);
    assert d[HEADER_SIZE..] == Body(r);
    assert Body(r) == kvs + (r.routingKey + r.payload);
    HeaderNumbers(d);
    var b := HEADER_SIZE + |kvs|;
    assert d[64..b] == Body(r)[..|kvs|];
    assert d[b..b + |r.routingKey|] == Body(r)[|kvs|..|kvs| + |r.routingKey|];
    assert d[b + |r.routingKey|..] == Body(r)[|kvs| + |r.routingKey|..];
  }

  lemma HeaderNumbers(d: seq<byte>)
    requires |d| >= HEADER_SIZE
    ensures
      var h := HeaderOf(d);
      && h.magic == Number(d[0..4]) && h.version == Number(d[4..6])
      && h.kvCount == Number(d[6..8]) && h.payloadSize == Number(d[8..12]) && h.crc == Word(d[16..24])
      && h.offset == Number(d[24..32]) && h.enqueued == Number(d[32..40])
      && h.idHigh == Number(d[40..48]) && h.idLow == Number(d[48..56]) && h.routingKeySize == Number(d[56..60])
  {
    hide Number, Word;
  }

  // A pair is its two sizes, its key and its value; pairs follow one another.
  lemma {:induction false} KvsLayout(kvs: seq<Kv>)
    requires kvs != [] && KvFits(kvs[0])
    ensures
      var b, k, v := KvsBytes(kvs), |kvs[0].key|, |kvs[0].value|;
      && |b| >= 8 + k + v && Number(b[0..4]) == k && Number(b[4..8]) == v
      && b[8..8 + k] == kvs[0].key && b[8 + k..8 + k + v] == kvs[0].value && b[8 + k + v..] == KvsBytes(kvs[1..])
  {
    hide LittleEndian, Number;
    var k, v := |kvs[0].key|, |kvs[0].value|;
    var b := KvBytes(kvs[0]);
    assert b[0..4] == LittleEndian(k, 4) && b[4..8] == LittleEndian(v, 4);
    assert b[8..8 + k] == kvs[0].key && b[8 + k..8 + k + v] == kvs[0].value;
    Written32(b, 0, k);
    Written32(b, 4, v);
    hide KvBytes;
    var all := KvsBytes(kvs);
    assert all == b + KvsBytes(kvs[1..]) && all[..8 + k + v] == b;
    assert all[0..4] == b[0..4] && all[4..8] == b[4..8];
  }

  // Which bytes are refused before anything else is looked at.
  lemma {:induction false} RefusedByHeader(data: seq<byte>)
    ensures Decode(data) == Err(HeaderTooSmall) <==> |data| < 64
    ensures Decode(data) == Err(HeaderMismatch) <==>
      |data| >= 64 && (Number(data[0..4]) != 0x504D5151 || Number(data[4..6]) != 1)
  {
    hide Number, Crc64.Crc, HeaderOf;
    if |data| >= HEADER_SIZE {
      HeaderNumbers(data);
      KvErrors(data, HEADER_SIZE, HeaderOf(data).kvCount);
    }
  }

  lemma {:induction false} KvErrors(data: seq<byte>, at: nat, n: nat)
    ensures var r := ParseKvs(data, at, n); r.Err? ==> r.error == KvTooSmall || r.error == KvTruncated
    decreases n
  {
    hide Field32, Prepend;
    if n > 0 && at + 8 <= |data| {
      var k, v := Field32(data, at), Field32(data, at + 4);
      if at + 8 + k + v <= |data| {
        KvErrors(data, at + 8 + k + v, n - 1);
      }
    }
  }

  // ---------------------------------------------------------------------------------------------
  // The size announced by the first bytes of a record
  // ---------------------------------------------------------------------------------------------

  // The bytes taken by n pairs from position at on, going by their size fields alone. The position may run
  // past the end of the data; only the size fields themselves have to be there.
  function KvSizes(data: seq<byte>, at: nat, n: nat): Option<nat>
    decreases n
  {
    if n == 0 then Some(0)
    else if at + 8 > |data| then None
    else
      var size := 8 + Field32(data, at) + Field32(data, at + 4);
      match KvSizes(data, at + size, n - 1)
      case None => None
      case Some(rest) => Some(size + rest)
  }

  function RecordSize(data: seq<byte>): Option<nat>
    requires |data| >= HEADER_SIZE
  {
    var h := HeaderOf(data);
    match KvSizes(data, HEADER_SIZE, h.kvCount)
    case None => None
    case Some(kvs) => Some(HEADER_SIZE + h.routingKeySize + h.payloadSize + kvs)
  }

  lemma {:induction false} SizesOfParsed(data: seq<byte>, at: nat, n: nat)
    requires ParseKvs(data, at, n).Ok?
    ensures KvSizes(data, at, n).Some? && ParseKvs(data, at, n).value.end == at + KvSizes(data, at, n).value
    decreases n
  {
    hide Field32, Prepend;
    if n > 0 {
      SizesOfParsed(data, at + 8 + Field32(data, at) + Field32(data, at + 4), n - 1);
    }
  }

  lemma {:induction false} FieldCut(data: seq<byte>, m: nat, at: nat)
    requires at + 4 <= m <= |data|
    ensures Field32(data[..m], at) == Field32(data, at)
  {
    assert data[..m][at..at + 4] == data[at..at + 4];
  }

  // A shorter string announces the same sizes, or breaks off.
  lemma {:induction false} SizesCut(data: seq<byte>, m: nat, at: nat, n: nat)
    requires m <= |data|
    ensures KvSizes(data[..m], at, n).Some? ==> KvSizes(data, at, n) == KvSizes(data[..m], at, n)
    decreases n
  {
    hide Field32;
    if n > 0 && at + 8 <= m {
      FieldCut(data, m, at);
      FieldCut(data, m, at + 4);
      SizesCut(data, m, at + 8 + Field32(data, at) + Field32(data, at + 4), n - 1);
    }
  }

  lemma {:induction false} HeaderCut(data: seq<byte>, m: nat)
    requires HEADER_SIZE <= m <= |data|
    ensures HeaderOf(data[..m]) == HeaderOf(data)
  {
    SliceCut(data, m, 0, 4);
    SliceCut(data, m, 4, 6);
    SliceCut(data, m, 6, 8);
    SliceCut(data, m, 8, 12);
    SliceCut(data, m, 16, 24);
    SliceCut(data, m, 24, 32);
    SliceCut(data, m, 32, 40);
    SliceCut(data, m, 40, 48);
    SliceCut(data, m, 48, 56);
    SliceCut(data, m, 56, 60);
    hide Word, Number;
  }

  lemma SliceCut(data: seq<byte>, m: nat, from: nat, to: nat)
    requires from <= to <= m <= |data|
    ensures data[..m][from..to] == data[from..to]
  {
  }

  // The size scan finds exactly the length of an encoding, whatever bytes follow it.
  lemma {:induction false} PrescanExact(r: Record, tail: seq<byte>)
    requires Fits(r)
    ensures RecordSize(Encode(r) + tail) == Some(|Encode(r)|)
  {
    hide HeaderOf, ParseKvs, KvSizes, Encode, KvsBytes, Filled, KvFits;
    var data := Encode(r) + tail;
    EncodingLayout(r, data);
    FilledSizes(r);
    SizesOfParsed(data, HEADER_SIZE, |r.headers|);
  }

  // ---------------------------------------------------------------------------------------------
  // Damage that is detected
  // ---------------------------------------------------------------------------------------------

  // The errors that are reported without looking at the checksum.
  predicate LengthError(e: Error) {
    e == HeaderTooSmall || e == KvTooSmall || e == KvTruncated || e == PayloadTruncated
  }

  lemma {:induction false} ParsePrefix(data: seq<byte>, m: nat, at: nat, n: nat)
    requires at <= m <= |data| && ParseKvs(data, at, n).Ok?
    ensures
      var whole, cut := ParseKvs(data, at, n), ParseKvs(data[..m], at, n);
      if whole.value.end <= m then cut == whole else cut.Err? && LengthError(cut.error)
    decreases n
  {
    hide Field32, Prepend;
    if n > 0 {
      var next := at + 8 + Field32(data, at) + Field32(data, at + 4);
      ParsedFits(data, next, n - 1);
      if at + 8 <= m {
        FieldCut(data, m, at);
        FieldCut(data, m, at + 4);
        if next <= m {
          SliceCut(data, m, at + 8, at + 8 + Field32(data, at));
          SliceCut(data, m, at + 8 + Field32(data, at), next);
          ParsePrefix(data, m, next, n - 1);
        }
      }
    }
  }

  // Every strict prefix of an encoding is rejected, and for its length alone.
  lemma {:induction false} StrictPrefixRejected(r: Record, m: nat)
    requires Writable(r) && m < |Encode(r)|
    ensures var d := Decode(Encode(r)[..m]); d.Err? && LengthError(d.error)
  {
    hide HeaderOf, ParseKvs, Encode, KvsBytes, Filled, KvFits, Crc64.Crc;
    var data := Encode(r);
    if m >= HEADER_SIZE {
      EncodingLayout(r, data);
      FilledSizes(r);
      HeaderCut(data, m);
      ParsePrefix(data, m, HEADER_SIZE, |r.headers|);
    }
  }

  // Which error it is, by the place of the cut: in the header, in the sizes or in the text of the first pair, or
  // behind the pairs.
  lemma {:induction false} CutErrors(r: Record, m: nat)
    requires Writable(r) && m < |Encode(r)|
    ensures
      var d := Decode(Encode(r)[..m]);
      && (m < 64 ==> d == Err(HeaderTooSmall))
      && (m >= 64 + |KvsBytes(r.headers)| ==> d == Err(PayloadTruncated))
      && (64 <= m && r.headers != [] ==>
        var end := 72 + |r.headers[0].key| + |r.headers[0].value|;
        (m < 72 ==> d == Err(KvTooSmall)) && (72 <= m < end ==> d == Err(KvTruncated)))
  {
    hide HeaderOf, ParseKvs, Encode, KvsBytes, Filled, KvFits, Crc64.Crc, Number;
    var data := Encode(r);
    if m >= HEADER_SIZE {
      EncodingLayout(r, data);
      FilledSizes(r);
      HeaderCut(data, m);
      if r.headers != [] && m < 72 + |r.headers[0].key| + |r.headers[0].value| {
        FirstPairCut(r, m);
      }
      if m >= HEADER_SIZE + |KvsBytes(r.headers)| {
        ParsePrefix(data, m, HEADER_SIZE, |r.headers|);
      }
    }
  }

  lemma {:induction false} SliceOfSlice(data: seq<byte>, from: nat, to: nat, i: nat, j: nat)
    requires from <= to <= |data| && i <= j <= to - from
    ensures data[from..to][i..j] == data[from + i..from + j]
  {
    var a, b := data[from..to][i..j], data[from + i..from + j];
    assert |a| == |b|;
    forall k | 0 <= k < j - i
      ensures a[k] == b[k]
    {
      assert a[k] == data[from..to][i + k] == data[from + (i + k)];
    }
  }

  lemma {:induction false} FirstPairSizes(r: Record)
    requires Writable(r) && r.headers != []
    ensures
      var data := Encode(r);
      && |data| >= 72
      && Field32(data, 64) == |r.headers[0].key| && Field32(data, 68) == |r.headers[0].value|
  {
    hide Encode, KvsBytes, Number, Field32;
    var data, pairs := Encode(r), KvsBytes(r.headers);
    RecordLayout(r);
    assert KvFits(r.headers[0]);
    KvsLayout(r.headers);
    FrontFields(data, pairs);
  }

  lemma {:induction false} FrontFields(data: seq<byte>, pairs: seq<byte>)
    requires 8 <= |pairs| && 64 + |pairs| <= |data| && data[64..64 + |pairs|] == pairs
    ensures Field32(data, 64) == Number(pairs[0..4]) && Field32(data, 68) == Number(pairs[4..8])
  {
    hide Number;
    SliceOfSlice(data, 64, 64 + |pairs|, 0, 4);
    SliceOfSlice(data, 64, 64 + |pairs|, 4, 8);
    assert data[64..64 + 4] == pairs[0..4] && data[68..68 + 4] == pairs[4..8];
  }

  lemma {:induction false} FirstPairCut(r: Record, m: nat)
    requires Writable(r) && r.headers != [] && HEADER_SIZE <= m <= |Encode(r)|
    requires m < 72 + |r.headers[0].key| + |r.headers[0].value|
    ensures ParseKvs(Encode(r)[..m], HEADER_SIZE, |r.headers|) == Err(if m < 72 then KvTooSmall else KvTruncated)
  {
    hide Encode, Prepend, Field32, Writable;
    var data := Encode(r);
    assert |data[..m]| == m;
    if m >= 72 {
      FirstPairSizes(r);
      FieldCut(data, m, 64);
      FieldCut(data, m, 68);
    }
  }

  // Any change to an encoding that stays within 8 consecutive bytes behind the header is rejected. The
  // position p counts from the end of the header.
  lemma {:induction false} BurstRejected(r: Record, damaged: seq<byte>, p: nat)
    requires Writable(r) && damaged != Encode(r)
    requires |damaged| == |Encode(r)| && damaged[..HEADER_SIZE] == Encode(r)[..HEADER_SIZE]
    requires Crc64.DifferOnlyInWindow(Encode(r)[HEADER_SIZE..], damaged[HEADER_SIZE..], p)
    ensures Decode(damaged).Err?
  {
    hide Decode, Encode, HeaderOf, Writable, Crc64.Crc, Crc64.DifferOnlyInWindow;
    var data := Encode(r);
    DecodesWhatFits(r);
    EncodingHasHeader(r);
    SplitAtHeader(data, damaged);
    Crc64.BurstDetected(data[HEADER_SIZE..], damaged[HEADER_SIZE..], p);
    SameHeader(data, damaged);
    ChecksumHolds(data);
    if Decode(damaged).Ok? {
      ChecksumHolds(damaged);
    }
  }

  lemma {:induction false} EncodingHasHeader(r: Record)
    ensures |Encode(r)| >= HEADER_SIZE
  {
    hide HeaderBytes, Body, Filled;
  }

  lemma {:induction false} SplitAtHeader(a: seq<byte>, b: seq<byte>)
    requires |a| >= HEADER_SIZE && |b| >= HEADER_SIZE && a[..HEADER_SIZE] == b[..HEADER_SIZE] && a != b
    ensures a[HEADER_SIZE..] != b[HEADER_SIZE..]
  {
    assert a == a[..HEADER_SIZE] + a[HEADER_SIZE..];
    assert b == b[..HEADER_SIZE] + b[HEADER_SIZE..];
  }

  lemma {:induction false} SameHeader(a: seq<byte>, b: seq<byte>)
    requires |a| >= HEADER_SIZE && |b| >= HEADER_SIZE && a[..HEADER_SIZE] == b[..HEADER_SIZE]
    ensures HeaderOf(a) == HeaderOf(b)
  {
    hide HeaderOf;
    HeaderCut(a, HEADER_SIZE);
    HeaderCut(b, HEADER_SIZE);
  }

  lemma {:induction false} ChecksumHolds(data: seq<byte>)
    requires Decode(data).Ok?
    ensures |data| >= HEADER_SIZE && Crc64.Crc(data[HEADER_SIZE..]) == HeaderOf(data).crc
  {
    hide HeaderOf, ParseKvs, Crc64.Crc;
  }
}
