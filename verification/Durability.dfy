// From bytes to a running group: what a restart reads from the segment file and the event file is the
// queue and the history that were there before.
module Durability {
  import opened Bytes
  import opened Wrappers
  import opened Transitions
  import opened Operations
  import opened PointInTime
  import opened RecordCodec
  import opened SegmentLogs
  import opened EventFiles

  // What the group reads of a record.
  function MessageOf(r: Record): Message {
    Message(Id(r.header.idHigh, r.header.idLow), r.header.enqueued)
  }

  function MessagesOf(records: seq<Record>): seq<Message> {
    if records == [] then [] else MessagesOf(records[..|records| - 1]) + [MessageOf(records[|records| - 1])]
  }

  // The record ProduceOnShard makes of a message.
  function ProducedRecord(m: Message, payload: seq<byte>, headers: seq<Kv>, routingKey: seq<byte>): Record
    requires m.id.high < 0x1_0000_0000_0000_0000 && m.id.low < 0x1_0000_0000_0000_0000
    requires m.enqueued < 0x1_0000_0000_0000_0000
  {
    Record(Header(MAGIC, VERSION, 0, 0, 0, 0, m.enqueued, m.id.high, m.id.low, 0), payload, headers, routingKey)
  }

  // What is read back of a produced record under its offset: the message, and the payload, headers and routing
  // key it came with.
  lemma {:induction false} ProducedReadsBack(
    m: Message, payload: seq<byte>, headers: seq<Kv>, routingKey: seq<byte>, offset: u64)
    requires m.id.high < 0x1_0000_0000_0000_0000 && m.id.low < 0x1_0000_0000_0000_0000
    requires m.enqueued < 0x1_0000_0000_0000_0000
    requires Fits(ProducedRecord(m, payload, headers, routingKey))
    ensures
      var read := Decode(Encode(Stamped(ProducedRecord(m, payload, headers, routingKey), offset)));
      && read.Ok? && MessageOf(read.value) == m && read.value.header.offset == offset
      && read.value.payload == payload && read.value.headers == headers && read.value.routingKey == routingKey
  {
    hide Encode, Decode, Crc64.Crc, Body, KvFits;
    var r := Stamped(ProducedRecord(m, payload, headers, routingKey), offset);
    DecodesWhatFits(r);
  }

  // The reads of LoadGroupState: one record for each offset below n, in order. The first that fails is the
  // result.
  function ReadMessages(file: seq<byte>, positions: map<u64, nat>, n: nat): Result<seq<Message>, LogError> {
    if n == 0 then Ok([])
    else
      match ReadMessages(file, positions, n - 1)
      case Err(e) => Err(e)
      case Ok(messages) => Extend(messages, ReadOffset(file, positions, n - 1))
  }

  function ReadOffset(file: seq<byte>, positions: map<u64, nat>, k: nat): Result<Record, LogError> {
    if k < 0x1_0000_0000_0000_0000 && k in positions then ReadAt(file, positions[k]) else Err(LogError.NotFound)
  }

  function Extend(messages: seq<Message>, r: Result<Record, LogError>): Result<seq<Message>, LogError> {
    match r
    case Err(e) => Err(e)
    case Ok(record) => Ok(messages + [MessageOf(record)])
  }

  // A queue and a group opened from the bytes of the segment file and the event file.
  ghost function OpenFromDisk(
    cfg: Config, segmentFile: seq<byte>, snapshot: Option<Snapshot>, eventFile: seq<byte>, clock: LoadClock):
    Option<Group>
  {
    var index := Rescan(segmentFile);
    var messages := ReadMessages(segmentFile[..index.end], index.positions, |index.positions.Keys|);
    var events := LoadFrom(eventFile, 0, MAX_SEQUENCE);
    if messages.Ok? && events.Events? then Some(Load(cfg, messages.value, snapshot, events.events, clock)) else None
  }

  lemma MessageOfFilled(r: Record)
    ensures MessageOf(Filled(r)) == MessageOf(r)
  {
  }

  lemma {:induction false} MessagesReadBack(records: seq<Record>, n: nat)
    requires AllWritable(records) && Numbered(records) && n <= |records| <= 0x1_0000_0000_0000_0000
    ensures ReadMessages(FileOf(records), IndexOf(records).positions, n) == Ok(MessagesOf(records[..n]))
    decreases n
  {
    hide IndexOf, FileOf, ReadAt, Filled, Writable, Cast64, MessageOf;
    if n > 0 {
      MessagesReadBack(records, n - 1);
      NumberedPosition(records, n - 1);
      ReadsBack(records, n - 1);
      MessageOfFilled(records[n - 1]);
      assert records[..n][..n - 1] == records[..n - 1];
    }
  }

  // A log that numbered its records has one offset for each.
  lemma {:induction false} OffsetsCount(records: seq<Record>)
    requires Numbered(records) && |records| <= 0x1_0000_0000_0000_0000
    ensures |IndexOf(records).positions.Keys| == |records|
  {
    hide Encode, Cast64;
    if records != [] {
      var n := |records| - 1;
      var before := IndexOf(records[..n]).positions;
      OffsetsCount(records[..n]);
      IndexKeys(records[..n], n);
      SmallOffset(n);
      forall k | 0 <= k < n
        ensures records[..n][k].header.offset != n
      {
        SmallOffset(k);
        assert records[..n][k] == records[k];
      }
      assert IndexOf(records).positions.Keys == before.Keys + {n};
    }
  }

  // Files that end in a torn record and a torn event: the restart finds the whole records and the whole events,
  // and loads the group from them, if and only if the torn event is under 8 bytes.
  lemma {:induction false} RestartFromDisk(
    cfg: Config, snapshot: Option<Snapshot>, clock: LoadClock, records: seq<Record>, r: Record, m: nat,
    log: seq<Event>, e: Event, t: nat)
    requires AllWritable(records) && Numbered(records) && |records| <= 0x1_0000_0000_0000_0000
    requires Writable(r) && m < |Encode(r)|
    requires AllStorable(log) && Storable(e) && t < |EventBytes(e)|
    ensures OpenFromDisk(cfg, FileOf(records) + Encode(r)[..m], snapshot, LogBytes(log) + EventBytes(e)[..t], clock)
            == if t < 8 then Some(Load(cfg, MessagesOf(records), snapshot, log, clock)) else None
  {
    hide IndexOf, FileOf, ReadMessages, Encode, Writable, Rescan, Load;
    hide LoadFrom, LogBytes, EventBytes, UpTo, Storable, MessagesOf, Numbered;
    RecoversWholeRecords(records, r, m);
    OffsetsCount(records);
    MessagesReadBack(records, |records|);
    assert records[..|records|] == records;
    LoadsTornLog(log, e, t, MAX_SEQUENCE);
    EveryEventUpTo(log);
  }
}
