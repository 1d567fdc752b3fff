// Runs down to the bytes of the two files: what every run of the queue leaves in them, and what a restart makes
// of them when the process dies at any byte of any operation.
module DiskRuns {
  import opened Bytes
  import opened Wrappers
  import opened Transitions
  import opened Tokens
  import opened Legality
  import opened Operations
  import opened Reachability
  import opened Runs
  import opened Delivery
  import opened RecordCodec
  import opened SegmentLogs
  import opened EventFiles
  import opened TornTails
  import opened Durability
  import opened CutShort
  import opened Guarantees
  import opened FirstDelivery

  datatype Disk = Disk(segmentFile: seq<byte>, eventFile: seq<byte>)

  const EMPTY_DISK := Disk([], [])

  // An operation, with the record it writes if it produces a message.
  datatype DiskOp = DiskOp(op: Op, record: Record)

  ghost predicate Possible(w: World, d: DiskOp) {
    && Enabled(w, d.op)
    && (d.op.Produce? ==> Writable(d.record) && MessageOf(d.record) == d.op.message)
  }

  // The record a produce writes, under the next offset.
  function RecordOf(w: World, record: Record): Record {
    Stamped(record, Cast64(|w.segment|))
  }

  // The files after a completed operation: a produce appends its record, anything else the events it logs.
  ghost function Written(cfg: Config, owner: Text, w: World, d: DiskOp, disk: Disk): Disk
    requires Enabled(w, d.op)
  {
    if d.op.Produce? then disk.(segmentFile := disk.segmentFile + Encode(RecordOf(w, d.record)))
    else
      var log' := Log(Step(cfg, owner, w, d.op).0);
      disk.(eventFile := disk.eventFile + LogBytes(if |Log(w)| <= |log'| then log'[|Log(w)|..] else []))
  }

  ghost predicate DiskRun(cfg: Config, owner: Text, w: World, disk: Disk, ops: seq<DiskOp>, w': World, disk': Disk)
    decreases |ops|
  {
    if ops == [] then w' == w && disk' == disk
    else
      && Possible(w, ops[0])
      && DiskRun(
           cfg, owner, Step(cfg, owner, w, ops[0].op).0, Written(cfg, owner, w, ops[0], disk), ops[1..], w', disk')
  }

  // The files hold the queue: the segment file its messages, the event file its history.
  ghost predicate Backs(w: World, disk: Disk, records: seq<Record>) {
    && w.segment == MessagesOf(records) && AllWritable(records) && Numbered(records)
    && disk == Disk(FileOf(records), LogBytes(Log(w)))
  }

  // ---------------------------------------------------------------------------------------------
  // Every run keeps the files in step
  // ---------------------------------------------------------------------------------------------

  lemma {:induction false} LogBytesConcat(a: seq<Event>, b: seq<Event>)
    ensures LogBytes(a + b) == LogBytes(a) + LogBytes(b)
  {
    hide EventBytes;
    if a == [] {
      assert a + b == b;
    } else {
      assert (a + b)[1..] == a[1..] + b;
      LogBytesConcat(a[1..], b);
    }
  }

  lemma {:induction false} OtherOpsKeepSegment(cfg: Config, owner: Text, w: World, op: Op)
    requires Enabled(w, op) && !op.Produce?
    ensures Step(cfg, owner, w, op).0.segment == w.segment
  {
    hide Consume, Ack, Nack, Load, Defaults;
  }

  lemma {:induction false} MessagesCount(records: seq<Record>)
    ensures |MessagesOf(records)| == |records|
  {
    if records != [] {
      MessagesCount(records[..|records| - 1]);
    }
  }

  lemma {:induction false} ProduceStep(cfg: Config, owner: Text, w: World, op: Op)
    requires Enabled(w, op) && op.Produce?
    ensures Step(cfg, owner, w, op).0.segment == w.segment + [op.message]
    ensures Log(Step(cfg, owner, w, op).0) == Log(w)
  {
    hide Consume, Ack, Nack, Load, Defaults;
  }

  lemma {:induction false} OneMoreRecord(records: seq<Record>, r: Record)
    requires AllWritable(records) && Numbered(records) && Writable(r) && r.header.offset == Cast64(|records|)
    ensures AllWritable(records + [r]) && Numbered(records + [r])
    ensures MessagesOf(records + [r]) == MessagesOf(records) + [MessageOf(r)]
  {
    hide Writable, Cast64, MessageOf;
    assert (records + [r])[..|records|] == records;
  }

  lemma {:induction false} ProduceBacks(cfg: Config, owner: Text, w: World, d: DiskOp, disk: Disk, records: seq<Record>)
    requires Possible(w, d) && d.op.Produce? && Backs(w, disk, records)
    ensures Backs(Step(cfg, owner, w, d.op).0, Written(cfg, owner, w, d, disk), records + [RecordOf(w, d.record)])
  {
    hide Encode, FileOf, LogBytes, Writable, Cast64, Numbered, AllWritable, MessagesOf, Step, Log;
    var r := RecordOf(w, d.record);
    MessagesCount(records);
    StampedWritable(d.record, Cast64(|w.segment|));
    FilesAppend(records, r);
    ProduceStep(cfg, owner, w, d.op);
    OneMoreRecord(records, r);
    assert MessageOf(r) == d.op.message;
  }

  lemma {:induction false} OtherBacks(cfg: Config, owner: Text, w: World, d: DiskOp, disk: Disk, records: seq<Record>)
    requires WorldInv(cfg, w) && SaneRetryLimit(cfg) && Possible(w, d) && !d.op.Produce? && Backs(w, disk, records)
    ensures Backs(Step(cfg, owner, w, d.op).0, Written(cfg, owner, w, d, disk), records)
  {
    hide WorldInv, Step, Enabled, FileOf, LogBytes, AllWritable, Numbered, MessagesOf, Log, SaneRetryLimit;
    var w' := Step(cfg, owner, w, d.op).0;
    StepKeeps(cfg, owner, w, d.op);
    OtherOpsKeepSegment(cfg, owner, w, d.op);
    assert Log(w') == Log(w) + Log(w')[|Log(w)|..];
    LogBytesConcat(Log(w), Log(w')[|Log(w)|..]);
  }

  // After every run from the empty queue and empty files, the files hold exactly the queue.
  lemma {:induction false} FilesFollow(
    cfg: Config, owner: Text, w: World, disk: Disk, records: seq<Record>, ops: seq<DiskOp>, w': World, disk': Disk)
    returns (records': seq<Record>)
    requires WorldInv(cfg, w) && SaneRetryLimit(cfg) && Backs(w, disk, records)
    requires DiskRun(cfg, owner, w, disk, ops, w', disk')
    ensures WorldInv(cfg, w') && Backs(w', disk', records')
    decreases |ops|
  {
    hide WorldInv, Step, Enabled, Backs, SaneRetryLimit, FilesGrow, Written, RecordOf;
    records' := records;
    if ops != [] {
      var w1 := Step(cfg, owner, w, ops[0].op).0;
      var disk1 := Written(cfg, owner, w, ops[0], disk);
      StepKeeps(cfg, owner, w, ops[0].op);
      if ops[0].op.Produce? {
        ProduceBacks(cfg, owner, w, ops[0], disk, records);
        records' := FilesFollow(cfg, owner, w1, disk1, records + [RecordOf(w, ops[0].record)], ops[1..], w', disk');
      } else {
        OtherBacks(cfg, owner, w, ops[0], disk, records);
        records' := FilesFollow(cfg, owner, w1, disk1, records, ops[1..], w', disk');
      }
    }
  }

  // The two files as the code writes them. Each operation leaves in them what Written says, or, if a write falls
  // short, a piece of it.
  class DiskQueue {
    var log: SegmentLog
    var eventFile: seq<byte>

    ghost var world: World
    ghost var records: seq<Record>

    ghost function Files(): Disk
      reads this, log
    {
      Disk(log.file, eventFile)
    }

    // The files hold the queue; a segment that is not sealed is in the session it was created in.
    ghost predicate Valid(cfg: Config)
      reads this, log
    {
      && WorldInv(cfg, world) && Backs(world, Files(), records)
      && (!world.sealed ==> log.Clean() && log.records == records)
    }

    constructor (cfg: Config, syncAlways: bool)
      ensures Valid(cfg) && world == START && Files() == EMPTY_DISK && fresh(log)
    {
      log := new SegmentLog([], syncAlways);
      eventFile := [];
      world, records := START, [];
      new;
      log.Open();
      var failure := log.Recover({}, false);
      NothingScanned({});
      StartInv(cfg);
      NothingBacked();
    }

    // A produce: the record goes to the segment. If the append fails a piece of it may be there.
    method ProduceRecord(cfg: Config, owner: Text, d: DiskOp) returns (ok: bool)
      requires Valid(cfg) && SaneRetryLimit(cfg) && Possible(world, d) && d.op.Produce?
      modifies this`world, this`records, log
      ensures CutBetween(old(Files()), Files(), Written(cfg, owner, old(world), d, old(Files())))
      ensures ok ==> Valid(cfg) && world == Step(cfg, owner, old(world), d.op).0
      ensures ok ==> Files() == Written(cfg, owner, old(world), d, old(Files()))
    {
      hide WorldInv, Step, Enabled, SaneRetryLimit, LogBytes, MessagesOf, FileOf, AllWritable, Numbered, Encode;
      hide Writable, FilesGrow, IndexOf, Log, Cast64, Overwrite;
      UnsealedProduce(world, d.op);
      StepKeeps(cfg, owner, world, d.op);
      ProduceBacks(cfg, owner, world, d, Files(), records);
      NextNumber(records);
      MessagesCount(records);
      ghost var bytes := Encode(RecordOf(world, d.record));
      var answer, written := log.Append(d.record);
      ok := answer.Ok?;
      assert bytes[..|bytes|] == bytes;
      if ok {
        records := log.records;
        world := Step(cfg, owner, world, d.op).0;
      }
    }

    // The events of an operation, one after the other; the last one written may be torn.
    method AppendEvents(events: seq<Event>) returns (ok: bool)
      modifies this`eventFile
      ensures old(eventFile) <= eventFile <= old(eventFile) + LogBytes(events)
      ensures ok ==> eventFile == old(eventFile) + LogBytes(events)
    {
      hide EventBytes, LogBytes;
      NoEventBytes(events);
      for i := 0 to |events|
        invariant eventFile == old(eventFile) + LogBytes(events[..i])
        invariant |events| > 0 ==> LogBytes(events[..i]) <= LogBytes(events)
      {
        var whole := AppendEvent(eventFile, events[i]);
        NextEventBytes(events, i);
        var reached: int := *;
        if |eventFile| <= reached < |whole| {
          eventFile := whole[..reached];
          return false;
        }
        eventFile := whole;
      }
      assert events[..|events|] == events;
      ok := true;
    }

    // The segment opened and recovered by the next process.
    method Reopen()
      requires AllWritable(records) && log.file == FileOf(records)
      modifies this`log
      ensures fresh(log) && log.file == old(log.file)
      ensures records == [] ==> log.Clean() && log.records == []
    {
      hide FileOf, AllWritable, Rescan, IndexOf, Numbered;
      log := new SegmentLog(log.file, log.syncAlways);
      log.Open();
      var failure := log.Recover({}, false);
      RescanOfRecords(records);
      IndexEnd(records);
      FilesEmpty(records);
    }

    // One operation, given the events it logs. A crash is followed by the opening and recovery of the segment.
    method Perform(cfg: Config, owner: Text, d: DiskOp, events: seq<Event>) returns (ok: bool)
      requires Valid(cfg) && SaneRetryLimit(cfg) && Possible(world, d)
      requires Log(Step(cfg, owner, world, d.op).0) == Log(world) + events
      modifies this, log
      ensures log == old(log) || fresh(log)
      ensures CutBetween(old(Files()), Files(), Written(cfg, owner, old(world), d, old(Files())))
      ensures ok ==> Valid(cfg) && world == Step(cfg, owner, old(world), d.op).0
      ensures ok ==> Files() == Written(cfg, owner, old(world), d, old(Files()))
    {
      hide WorldInv, Step, SaneRetryLimit, LogBytes, Backs, Written, Log, FileOf, IndexOf, AllWritable, Numbered;
      if d.op.Produce? {
        ok := ProduceRecord(cfg, owner, d);
        return;
      }
      OtherFiles(cfg, owner, world, d, Files(), records, events);
      ok := AppendEvents(events);
      if ok {
        world := Step(cfg, owner, world, d.op).0;
        if d.op.Crash? {
          Reopen();
        }
      }
    }
  }

  // What an operation other than a produce leaves in the files, and of the session.
  lemma {:induction false} OtherFiles(
    cfg: Config, owner: Text, w: World, d: DiskOp, disk: Disk, records: seq<Record>, events: seq<Event>)
    requires WorldInv(cfg, w) && SaneRetryLimit(cfg) && Possible(w, d) && !d.op.Produce? && Backs(w, disk, records)
    requires Log(Step(cfg, owner, w, d.op).0) == Log(w) + events
    ensures Written(cfg, owner, w, d, disk) == disk.(eventFile := disk.eventFile + LogBytes(events))
    ensures
      var w' := Step(cfg, owner, w, d.op).0;
      && WorldInv(cfg, w') && Backs(w', Written(cfg, owner, w, d, disk), records)
      && (!w'.sealed ==> !w.sealed && (d.op.Crash? ==> records == []))
    ensures AllWritable(records) && disk.segmentFile == FileOf(records)
  {
    hide WorldInv, Step, Enabled, SaneRetryLimit, LogBytes, MessagesOf, FileOf, AllWritable, Numbered, Encode;
    hide FilesGrow, Log;
    StepKeeps(cfg, owner, w, d.op);
    OtherBacks(cfg, owner, w, d, disk, records);
    assert Log(Step(cfg, owner, w, d.op).0)[|Log(w)|..] == events;
    OtherOpsSeal(cfg, owner, w, d.op);
    MessagesCount(records);
  }

  lemma {:induction false} UnsealedProduce(w: World, op: Op)
    requires Enabled(w, op) && op.Produce?
    ensures !w.sealed
  {
  }

  // A produce leaves a segment open for appending as it is, and so does everything else but a crash of a segment
  // that holds messages.
  lemma {:induction false} OtherOpsSeal(cfg: Config, owner: Text, w: World, op: Op)
    requires Enabled(w, op) && !op.Produce?
    ensures var w' := Step(cfg, owner, w, op).0;
      w'.sealed == if op.Crash? then w.sealed || w.segment != [] else w.sealed
  {
    hide Consume, Ack, Nack, Reap, Load, Defaults;
  }

  lemma {:induction false} NextEventBytes(events: seq<Event>, i: nat)
    requires i < |events|
    ensures LogBytes(events[..i]) + EventBytes(events[i]) == LogBytes(events[..i + 1])
    ensures LogBytes(events[..i + 1]) <= LogBytes(events)
  {
    hide EventBytes;
    assert events[..i] + [events[i]] == events[..i + 1];
    LogBytesAppend(events[..i], events[i]);
    assert events[..i + 1] + events[i + 1..] == events;
    LogBytesConcat(events[..i + 1], events[i + 1..]);
  }

  // ---------------------------------------------------------------------------------------------
  // Dying at any byte
  // ---------------------------------------------------------------------------------------------

  const SOME_RECORD := Record(Header(MAGIC, VERSION, 0, 0, 0, 0, 0, 0, 0, 0), [], [], [])
  const SOME_EVENT := Event(0, Id(0, 0), Ready, 0, 0, 0, 0, [], [], Produced)

  lemma {:induction false} SomeRecordWritable()
    ensures Writable(SOME_RECORD) && |Encode(SOME_RECORD)| > 0
  {
    hide Encode;
    EncodingNotEmpty(SOME_RECORD);
  }

  // A prefix of two byte strings in a row stays in the first, or holds it and a prefix of the second.
  lemma {:induction false} PrefixOfTwo(first: seq<byte>, rest: seq<byte>, bytes: seq<byte>)
    requires bytes <= first + rest
    ensures |bytes| < |first| ==> bytes == first[..|bytes|]
    ensures |bytes| >= |first| ==> bytes == first + bytes[|first|..] && bytes[|first|..] <= rest
  {
    assert bytes == (first + rest)[..|bytes|];
    if |bytes| >= |first| {
      assert (first + rest)[|first|..] == rest;
      assert bytes[..|first|] == first;
      assert bytes[|first|..] == rest[..|bytes| - |first|];
    }
  }

  lemma {:induction false} FirstEventBytes(log: seq<Event>, l: nat)
    requires l < |log|
    ensures LogBytes(log) == EventBytes(log[0]) + LogBytes(log[1..])
    ensures LogBytes(log[..l + 1]) == EventBytes(log[0]) + LogBytes(log[1..][..l])
  {
    hide EventBytes;
    assert log[..l + 1][0] == log[0] && log[..l + 1][1..] == log[1..][..l];
  }

  // A piece of some events is a number of whole ones and a strict prefix of the next.
  lemma {:induction false} WholeAndTorn(added: seq<Event>, bytes: seq<byte>) returns (k: nat, e: Event, t: nat)
    requires AllStorable(added) && bytes <= LogBytes(added)
    ensures k <= |added| && Storable(e) && t < |EventBytes(e)|
    ensures bytes == LogBytes(added[..k]) + EventBytes(e)[..t]
    decreases |added|
  {
    hide EventBytes, Storable;
    if added == [] {
      k, e, t := 0, SOME_EVENT, 0;
      SomeEventStorable();
    } else {
      hide LogBytes;
      var first := EventBytes(added[0]);
      FirstEventBytes(added, 0);
      PrefixOfTwo(first, LogBytes(added[1..]), bytes);
      if |bytes| < |first| {
        k, e, t := 0, added[0], |bytes|;
        NoEventBytes(added);
      } else {
        var l;
        l, e, t := WholeAndTorn(added[1..], bytes[|first|..]);
        k := l + 1;
        FirstEventBytes(added, l);
        assert bytes == first + LogBytes(added[1..][..l]) + EventBytes(e)[..t];
      }
    }
  }

  lemma NoEventBytes(log: seq<Event>)
    ensures LogBytes(log[..0]) == []
  {
  }

  lemma {:induction false} SomeEventStorable()
    ensures Storable(SOME_EVENT) && |EventBytes(SOME_EVENT)| > 0
  {
    EventLength(SOME_EVENT);
  }

  // Between the files before an operation and those after it.
  ghost predicate CutBetween(before: Disk, cut: Disk, after: Disk) {
    && before.segmentFile <= cut.segmentFile <= after.segmentFile
    && before.eventFile <= cut.eventFile <= after.eventFile
  }

  // The event file cut anywhere in what an operation logs, and the segment file whole.
  lemma {:induction false} CutEvents(
    cfg: Config, snapshot: Option<Snapshot>, clock: LoadClock, records: seq<Record>, log: seq<Event>, added: seq<Event>,
    eventFile: seq<byte>)
    returns (events: seq<Event>, torn: nat)
    requires AllWritable(records) && Numbered(records) && |records| <= 0x1_0000_0000_0000_0000
    requires AllStorable(log + added) && LogBytes(log) <= eventFile <= LogBytes(log + added)
    ensures log <= events <= log + added
    ensures LogBytes(events) <= eventFile && |eventFile| == |LogBytes(events)| + torn
    ensures OpenFromDisk(cfg, FileOf(records), snapshot, eventFile, clock)
            == if torn < 8 then Some(Load(cfg, MessagesOf(records), snapshot, events, clock)) else None
  {
    hide LogBytes, EventBytes, Storable, Encode, FileOf, Writable, Numbered, OpenFromDisk, Load, MessagesOf;
    LogBytesConcat(log, added);
    var piece := eventFile[|LogBytes(log)|..];
    assert eventFile == LogBytes(log) + piece;
    assert piece <= LogBytes(added);
    AddedStorable(log, added);
    var k, e, t := WholeAndTorn(added, piece);
    events, torn := log + added[..k], t;
    assert events == (log + added)[..|log| + k];
    LogBytesConcat(log, added[..k]);
    assert eventFile == LogBytes(events) + EventBytes(e)[..t];
    PrefixStorable(log + added, |log| + k);
    SomeRecordWritable();
    assert FileOf(records) + Encode(SOME_RECORD)[..0] == FileOf(records);
    RestartFromDisk(cfg, snapshot, clock, records, SOME_RECORD, 0, events, e, t);
  }

  lemma {:induction false} AddedStorable(log: seq<Event>, added: seq<Event>)
    requires AllStorable(log + added)
    ensures AllStorable(added)
  {
    forall i | 0 <= i < |added|
      ensures Storable(added[i])
    {
      assert (log + added)[|log| + i] == added[i];
    }
  }

  lemma PrefixStorable(log: seq<Event>, n: nat)
    requires AllStorable(log) && n <= |log|
    ensures AllStorable(log[..n])
  {
  }

  // The segment file cut anywhere in the record a produce writes, and the event file whole.
  lemma {:induction false} CutRecord(
    cfg: Config, snapshot: Option<Snapshot>, clock: LoadClock, records: seq<Record>, r: Record, log: seq<Event>,
    segmentFile: seq<byte>)
    returns (whole: bool)
    requires AllWritable(records + [r]) && Numbered(records + [r]) && |records| < 0x1_0000_0000_0000_0000
    requires AllStorable(log) && FileOf(records) <= segmentFile <= FileOf(records) + Encode(r)
    ensures whole <==> segmentFile == FileOf(records) + Encode(r)
    ensures segmentFile[..Rescan(segmentFile).end] == FileOf(if whole then records + [r] else records)
    ensures
      var messages := MessagesOf(if whole then records + [r] else records);
      OpenFromDisk(cfg, segmentFile, snapshot, LogBytes(log), clock) == Some(Load(cfg, messages, snapshot, log, clock))
  {
    hide LogBytes, EventBytes, Storable, Encode, FileOf, Writable, OpenFromDisk, Load, MessagesOf, Cast64, Rescan;
    var piece := segmentFile[|FileOf(records)|..];
    assert segmentFile == FileOf(records) + piece;
    assert piece == Encode(r)[..|piece|];
    assert (records + [r])[..|records|] == records && (records + [r])[|records|] == r;
    PrefixRecords(records, r);
    SomeEventStorable();
    assert LogBytes(log) + EventBytes(SOME_EVENT)[..0] == LogBytes(log);
    whole := |piece| == |Encode(r)|;
    if whole {
      FilesAppend(records, r);
      SomeRecordWritable();
      assert FileOf(records + [r]) + Encode(SOME_RECORD)[..0] == segmentFile;
      RestartFromDisk(cfg, snapshot, clock, records + [r], SOME_RECORD, 0, log, SOME_EVENT, 0);
      RecoversWholeRecords(records + [r], SOME_RECORD, 0);
    } else {
      RestartFromDisk(cfg, snapshot, clock, records, r, |piece|, log, SOME_EVENT, 0);
      RecoversWholeRecords(records, r, |piece|);
    }
  }

  lemma {:induction false} PrefixRecords(records: seq<Record>, r: Record)
    requires AllWritable(records + [r]) && Numbered(records + [r])
    ensures AllWritable(records) && Numbered(records) && Writable(r)
  {
    hide Writable;
    forall k | 0 <= k < |records|
      ensures records[k] == (records + [r])[k]
    {
    }
    assert (records + [r])[|records|] == r;
  }

  // What a death leaves: whole records and events, and a piece of an event behind them.
  ghost predicate Leaves(cut: Disk, kept: seq<Record>, messages: seq<Message>, events: seq<Event>, torn: nat) {
    && messages == MessagesOf(kept) && AllWritable(kept) && Numbered(kept)
    && cut.segmentFile[..Rescan(cut.segmentFile).end] == FileOf(kept)
    && LogBytes(events) <= cut.eventFile && |cut.eventFile| == |LogBytes(events)| + torn
  }

  // After any run from the empty queue the process may die at any byte of the next operation. The restart then
  // loads the group from the messages before the operation or after it, and from the events before it and the
  // whole ones among those it logged; or it reports corruption, exactly if 8 bytes or more of a torn event
  // follow. No message or event is lost from before, changed or invented. The numbers in the events fit the
  // fields of the file.
  lemma {:induction false} CrashAnywhere(
    cfg: Config, owner: Text, ops: seq<DiskOp>, w: World, disk: Disk, d: DiskOp, cut: Disk, snapshot: Option<Snapshot>,
    clock: LoadClock)
    returns (messages: seq<Message>, events: seq<Event>, torn: nat, kept: seq<Record>)
    requires SaneRetryLimit(cfg) && DiskRun(cfg, owner, START, EMPTY_DISK, ops, w, disk) && Possible(w, d)
    requires CutBetween(disk, cut, Written(cfg, owner, w, d, disk))
    requires
      var after := Step(cfg, owner, w, d.op).0;
      AllStorable(Log(after)) && |after.segment| <= 0x1_0000_0000_0000_0000
    ensures
      var after := Step(cfg, owner, w, d.op).0;
      && (messages == w.segment || messages == after.segment)
      && Log(w) <= events <= Log(after)
      && Leaves(cut, kept, messages, events, torn)
    ensures OpenFromDisk(cfg, cut.segmentFile, snapshot, cut.eventFile, clock)
            == if torn < 8 then Some(Load(cfg, messages, snapshot, events, clock)) else None
  {
    hide WorldInv, Step, Enabled, SaneRetryLimit, FilesGrow, LogBytes, Encode, Writable, OpenFromDisk, Load, DiskRun;
    hide FileOf, MessagesOf, Storable, Cast64, Numbered, Log, Rescan, AllWritable;
    StartInv(cfg);
    NothingBacked();
    var records := FilesFollow(cfg, owner, START, EMPTY_DISK, [], ops, w, disk);
    var after := Step(cfg, owner, w, d.op).0;
    LogGrows(cfg, owner, w, d.op);
    MessagesCount(records);
    if d.op.Produce? {
      ProduceBacks(cfg, owner, w, d, disk, records);
      ProduceStep(cfg, owner, w, d.op);
      var r := RecordOf(w, d.record);
      MessagesCount(records + [r]);
      var whole := CutRecord(cfg, snapshot, clock, records, r, Log(w), cut.segmentFile);
      messages, events, torn := if whole then after.segment else w.segment, Log(w), 0;
      kept := if whole then records + [r] else records;
      assert cut.eventFile == LogBytes(events);
    } else {
      OtherBacks(cfg, owner, w, d, disk, records);
      OtherOpsKeepSegment(cfg, owner, w, d.op);
      var added := Log(after)[|Log(w)|..];
      assert Log(after) == Log(w) + added;
      messages, kept := w.segment, records;
      assert cut.segmentFile == FileOf(records);
      RescanWhole(records);
      events, torn := CutEvents(cfg, snapshot, clock, records, Log(w), added, cut.eventFile);
    }
  }

  lemma {:induction false} RescanWhole(records: seq<Record>)
    requires AllWritable(records)
    ensures FileOf(records)[..Rescan(FileOf(records)).end] == FileOf(records)
  {
    hide FileOf, AllWritable, IndexOf, Rescan;
    RescanOfRecords(records);
    IndexEnd(records);
  }

  lemma {:induction false} DiskRunReaches(
    cfg: Config, owner: Text, w: World, disk: Disk, ops: seq<DiskOp>, w': World, disk': Disk)
    requires Reachable(cfg, owner, w) && DiskRun(cfg, owner, w, disk, ops, w', disk')
    ensures Reachable(cfg, owner, w')
    decreases |ops|
  {
    hide Step, Enabled, Reachable, Written;
    if ops != [] {
      StepReaches(cfg, owner, w, ops[0].op);
      DiskRunReaches(
        cfg, owner, Step(cfg, owner, w, ops[0].op).0, Written(cfg, owner, w, ops[0], disk), ops[1..], w', disk');
    }
  }

  lemma {:induction false} StartReachable(cfg: Config, owner: Text)
    ensures Reachable(cfg, owner, START)
  {
    assert EnabledRun(cfg, owner, START, []) && Run(cfg, owner, START, []) == START;
  }

  // The files of a finished operation load its messages and events.
  lemma {:induction false} OpensWhole(
    cfg: Config, records: seq<Record>, log: seq<Event>, snapshot: Option<Snapshot>, clock: LoadClock)
    requires AllWritable(records) && Numbered(records) && |records| <= 0x1_0000_0000_0000_0000 && AllStorable(log)
    ensures OpenFromDisk(cfg, FileOf(records), snapshot, LogBytes(log), clock)
            == Some(Load(cfg, MessagesOf(records), snapshot, log, clock))
  {
    hide LogBytes, EventBytes, Storable, Encode, FileOf, Writable, OpenFromDisk, Load, MessagesOf, Numbered;
    SomeEventStorable();
    SomeRecordWritable();
    assert LogBytes(log) + EventBytes(SOME_EVENT)[..0] == LogBytes(log);
    assert FileOf(records) + Encode(SOME_RECORD)[..0] == FileOf(records);
    RestartFromDisk(cfg, snapshot, clock, records, SOME_RECORD, 0, log, SOME_EVENT, 0);
  }

  // What is on disk when the process dies at any byte of an operation is what some run between operations leaves,
  // so everything proved of reachable states holds of what the restart loads. The new snapshot is there only if
  // everything else is. Without a torn event the files hold that state, once the segment is recovered, and
  // runs go on from there.
  lemma {:induction false} CrashIsReachable(
    cfg: Config, owner: Text, ops: seq<DiskOp>, w: World, disk: Disk, d: DiskOp, cut: Disk, snapshot: Option<Snapshot>,
    clock: LoadClock)
    returns (down: World, torn: nat, kept: seq<Record>)
    requires SaneRetryLimit(cfg) && DiskRun(cfg, owner, START, EMPTY_DISK, ops, w, disk) && Possible(w, d)
    requires CutBetween(disk, cut, Written(cfg, owner, w, d, disk))
    requires
      var after := Step(cfg, owner, w, d.op).0;
      && AllStorable(Log(after)) && |after.segment| <= 0x1_0000_0000_0000_0000
      && (snapshot == w.snapshot || (snapshot == after.snapshot && cut == Written(cfg, owner, w, d, disk)))
    ensures Reachable(cfg, owner, down) && WorldInv(cfg, down) && down.Down? && down.snapshot == snapshot
    ensures
      var after := Step(cfg, owner, w, d.op).0;
      (down.segment == w.segment || down.segment == after.segment) && Log(w) <= down.log <= Log(after)
    ensures Leaves(cut, kept, down.segment, down.log, torn)
    ensures OpenFromDisk(cfg, cut.segmentFile, snapshot, cut.eventFile, clock)
            == if torn < 8 then Some(Load(cfg, down.segment, snapshot, down.log, clock)) else None
    ensures torn == 0 ==>
      Backs(down, Disk(cut.segmentFile[..Rescan(cut.segmentFile).end], cut.eventFile), kept)
  {
    hide WorldInv, Step, Enabled, SaneRetryLimit, LogBytes, OpenFromDisk, Load, DiskRun, Reachable, Written;
    hide FileOf, MessagesOf, Storable, Numbered, Log, Rescan, AllWritable, Backs, Leaves, CutBetween;
    StartReachable(cfg, owner);
    DiskRunReaches(cfg, owner, START, EMPTY_DISK, ops, w, disk);
    var after := Step(cfg, owner, w, d.op).0;
    if snapshot == w.snapshot {
      var messages, events;
      messages, events, torn, kept := CrashAnywhere(cfg, owner, ops, w, disk, d, cut, snapshot, clock);
      var whole := messages != w.segment;
      if whole {
        WholeProduce(cfg, owner, w, d.op);
      }
      down := DiesReachable(cfg, owner, w, d.op, |events|, whole);
      assert down.log == events;
    } else {
      torn := 0;
      kept := WholeFiles(cfg, owner, ops, w, disk, d, snapshot, clock);
      LogGrowsInRun(cfg, owner, w, d.op);
      down := DiesReachable(cfg, owner, w, d.op, |Log(after)|, true);
      assert down.log == Log(after);
    }
    BacksWhatItLeaves(cut, kept, down, torn);
  }

  lemma {:induction false} BacksWhatItLeaves(cut: Disk, kept: seq<Record>, down: World, torn: nat)
    requires down.Down? && Leaves(cut, kept, down.segment, down.log, torn)
    ensures torn == 0 ==>
      Backs(down, Disk(cut.segmentFile[..Rescan(cut.segmentFile).end], cut.eventFile), kept)
  {
    hide LogBytes, FileOf, MessagesOf, Rescan, AllWritable, Numbered;
  }

  lemma {:induction false} LogGrowsInRun(cfg: Config, owner: Text, w: World, op: Op)
    requires SaneRetryLimit(cfg) && Reachable(cfg, owner, w) && Enabled(w, op)
    ensures Log(w) <= Log(Step(cfg, owner, w, op).0)
  {
    hide WorldInv, Reachable, Step, Enabled, Log;
    ReachableInv(cfg, owner, w);
    LogGrows(cfg, owner, w, op);
  }

  // Only a produce changes the messages; it logs nothing and leaves the snapshot.
  lemma {:induction false} WholeProduce(cfg: Config, owner: Text, w: World, op: Op)
    requires Enabled(w, op) && Step(cfg, owner, w, op).0.segment != w.segment
    ensures Log(Step(cfg, owner, w, op).0) == Log(w) && Step(cfg, owner, w, op).0.snapshot == w.snapshot
  {
    if !op.Produce? {
      OtherOpsKeepSegment(cfg, owner, w, op);
    }
    hide Consume, Ack, Nack, Reap, Load, Defaults;
  }

  // The files of a finished operation.
  lemma {:induction false} WholeFiles(
    cfg: Config, owner: Text, ops: seq<DiskOp>, w: World, disk: Disk, d: DiskOp, snapshot: Option<Snapshot>,
    clock: LoadClock)
    returns (kept: seq<Record>)
    requires SaneRetryLimit(cfg) && DiskRun(cfg, owner, START, EMPTY_DISK, ops, w, disk) && Possible(w, d)
    requires
      var after := Step(cfg, owner, w, d.op).0;
      AllStorable(Log(after)) && |after.segment| <= 0x1_0000_0000_0000_0000
    ensures
      var after := Step(cfg, owner, w, d.op).0;
      var cut := Written(cfg, owner, w, d, disk);
      && Leaves(cut, kept, after.segment, Log(after), 0)
      && OpenFromDisk(cfg, cut.segmentFile, snapshot, cut.eventFile, clock)
         == Some(Load(cfg, after.segment, snapshot, Log(after), clock))
  {
    hide WorldInv, Step, Enabled, SaneRetryLimit, LogBytes, OpenFromDisk, Load, DiskRun, Written;
    hide FileOf, MessagesOf, Storable, Numbered, Log, Rescan, AllWritable;
    StartInv(cfg);
    NothingBacked();
    var records := FilesFollow(cfg, owner, START, EMPTY_DISK, [], ops, w, disk);
    if d.op.Produce? {
      ProduceBacks(cfg, owner, w, d, disk, records);
      kept := records + [RecordOf(w, d.record)];
    } else {
      OtherBacks(cfg, owner, w, d, disk, records);
      kept := records;
    }
    MessagesCount(kept);
    RescanWhole(kept);
    OpensWhole(cfg, kept, Log(Step(cfg, owner, w, d.op).0), snapshot, clock);
  }

  lemma {:induction false} LogGrows(cfg: Config, owner: Text, w: World, op: Op)
    requires WorldInv(cfg, w) && SaneRetryLimit(cfg) && Enabled(w, op)
    ensures Log(w) <= Log(Step(cfg, owner, w, op).0)
  {
    hide WorldInv, Step, Enabled, Log, Defaults;
    StepKeeps(cfg, owner, w, op);
  }

  lemma NothingBacked()
    ensures Backs(START, EMPTY_DISK, [])
  {
  }

  // ---------------------------------------------------------------------------------------------
  // A torn tail the engine leaves, and what follows it
  // ---------------------------------------------------------------------------------------------

  lemma {:induction false} DecimalShort(n: nat)
    ensures |Decimal(n)| <= 1 + n / 10
  {
    hide Digit;
    if n >= 10 {
      DecimalShort(n / 10);
    }
  }

  lemma {:induction false} TokenShort(id: Id, sequence: nat)
    ensures |Token(id, sequence)| <= 5 + (id.high + id.low + sequence) / 10
  {
    hide Decimal;
    DecimalShort(id.high);
    DecimalShort(id.low);
    DecimalShort(sequence);
  }

  // The numbers of the first delivery fit the event file.
  ghost predicate SmallNumbers(cfg: Config, owner: Text, m: Message, t: nat) {
    && m.id.high < 0x1_0000_0000_0000_0000 && m.id.low < 0x1_0000_0000_0000_0000
    && t + cfg.visibility < 0x1_0000_0000_0000_0000 && |owner| < 0x1_0000_0000_0000_0000
  }

  lemma {:induction false} FirstEventsStorable(cfg: Config, owner: Text, m: Message, t: nat)
    requires SmallNumbers(cfg, owner, m, t)
    ensures Storable(DeliveryEvent(cfg, owner, 1, m.id, 0, t)) && Storable(AckEvent(2, m.id, 0, t))
  {
    hide Token;
    TokenShort(m.id, 1);
  }

  // The event an acknowledgement logs.
  lemma {:induction false} AckLogs(cfg: Config, g: Group, id: Id, now: nat)
    requires id in g.inflight && id in g.runtime
    ensures Ack(cfg, g, id, now, {}).0.log == g.log + [AckEvent(g.next, id, g.runtime[id].retry, now)]
  {
    hide RuntimeAfter, LeaseOf, Push, Tick;
  }

  lemma {:induction false} FirstLog(cfg: Config, owner: Text, m: Message, t: nat, before: Group, after: Group)
    requires DeliveredAs(cfg, owner, before, after, m.id, t) && before.log == [] && before.next == 1
    requires before.runtime == map[m.id := DefaultRuntime(0, m.enqueued)]
    ensures after.log == [DeliveryEvent(cfg, owner, 1, m.id, 0, t)] && after.next == 2
    ensures m.id in after.inflight && m.id in after.runtime && after.runtime[m.id].retry == 0
    ensures InFlightIds(after.log) == {m.id}
  {
    hide Push, Token, Tick;
    var e := DeliveryEvent(cfg, owner, 1, m.id, 0, t);
    assert [] + [e] == [e];
    assert LastEvents([e]) == map[m.id := e] by {
      LastEventsAppend([], e);
    }
  }

  // The group opened again on the log of that one delivery: the lease is still there, and the sequence number
  // of the torn event is given out again.
  lemma {:induction false} ReopenedFirst(cfg: Config, w: World, e: Event, t: nat)
    requires WorldInv(cfg, w) && w.Down? && w.log == [e] && e.state == InFlight && e.sequence == 1 && e.retry == 0
    requires w.snapshot.Some? ==> w.snapshot.value.next <= 2
    ensures
      var g := Load(cfg, w.segment, w.snapshot, w.log, LoadClock(t, t, t));
      && g.log == [e] && g.next == 2 && e.id in g.inflight && e.id in g.runtime && g.runtime[e.id].retry == 0
  {
    hide WorldInv, Defaults, Eligible, Ascending, Overlay, Replay, RewriteInFlight, Tick;
    var clock := LoadClock(t, t, t);
    var g := Load(cfg, w.segment, w.snapshot, w.log, clock);
    assert NextAfter(2, []) == 2;
    assert [e][1..] == [];
    LastOfOne(e);
    LoggedHaveDefaults(cfg, w);
    ReopenedEntry(cfg, w, e, clock);
  }

  lemma {:induction false} LastOfOne(e: Event)
    ensures LastEvents([e]) == map[e.id := e]
  {
    assert [] + [e] == [e];
    LastEventsAppend([], e);
  }

  lemma {:induction false} ReopenedEntry(cfg: Config, w: World, e: Event, clock: LoadClock)
    requires WorldInv(cfg, w) && w.Down? && w.log == [e] && e.state == InFlight
    requires e.id in Defaults(w.segment) && LastEvents(w.log) == map[e.id := e]
    ensures
      var g := Load(cfg, w.segment, w.snapshot, w.log, clock);
      e.id in g.inflight && e.id in g.runtime && g.runtime[e.id].retry == e.retry
  {
    hide Load, Defaults, LastEvents, History, SnapshotFits, UniqueIds, Inv;
    LoadIsReplay(cfg, w.segment, w.snapshot, w.log, clock);
  }

  // A file the engine leaves behind: the first message of a queue is delivered, the process dies after the first
  // byte of its acknowledgement, the group is opened again, the lease is still there, and the acknowledgement is
  // repeated. Of the bytes then in the event file the second event is read back under sequence number 514
  // instead of 2.
  lemma {:induction false} TornAckReadsBackWrong(cfg: Config, owner: Text, m: Message, t: nat)
    returns (w: World, torn: Event, down: World, e: Event, x: Event)
    requires SaneRetryLimit(cfg) && cfg.maxInflight >= 1 && SmallNumbers(cfg, owner, m, t)
    ensures Reachable(cfg, owner, w) && w.Up? && m.id in w.group.inflight
    ensures Ack(cfg, w.group, m.id, t, {}).0.log == w.group.log + [torn]
    ensures down == Step(cfg, owner, w, Crash).0
    ensures
      var g := Load(cfg, down.segment, down.snapshot, Log(down), LoadClock(t, t, t));
      Ack(cfg, g, m.id, t, {}).0.log == w.group.log + [e]
    ensures LoadFrom(LogBytes(w.group.log) + EventBytes(torn)[..1] + EventBytes(e), 0, MAX_SEQUENCE)
            == Events(w.group.log + [x])
    ensures e.sequence == 2 && x.sequence == 514
  {
    hide WorldInv, Load, DeliveredAs, SaneRetryLimit, Reachable, EventBytes, LogBytes, LoadFrom, Unlisted, Storable,
      Ack;
    hide SmallNumbers, DeliveryEvent, InFlightIds;
    var before;
    w, before := FirstDelivered(cfg, owner, m, t, ConsumeClock(t, t, t, t));
    FirstLog(cfg, owner, m, t, before, w.group);
    AckLogs(cfg, w.group, m.id, t);
    torn := AckEvent(2, m.id, 0, t);
    down := Step(cfg, owner, w, Crash).0;
    DownAfterFirst(cfg, owner, w, down);
    var d := DeliveryEvent(cfg, owner, 1, m.id, 0, t);
    DeliveryEventIs(cfg, owner, m.id, t);
    ReopenedFirst(cfg, down, d, t);
    var g := Load(cfg, down.segment, down.snapshot, Log(down), LoadClock(t, t, t));
    AckLogs(cfg, g, m.id, t);
    e := AckEvent(2, m.id, 0, t);
    FirstEventsStorable(cfg, owner, m, t);
    x := TornTailShiftsNextEvent([d], torn, e);
  }

  lemma DeliveryEventIs(cfg: Config, owner: Text, id: Id, t: nat)
    ensures var d := DeliveryEvent(cfg, owner, 1, id, 0, t);
      d.id == id && d.state == InFlight && d.sequence == 1 && d.retry == 0
  {
  }

  lemma {:induction false} DownAfterFirst(cfg: Config, owner: Text, w: World, down: World)
    requires SaneRetryLimit(cfg) && Reachable(cfg, owner, w) && w.Up? && down == Step(cfg, owner, w, Crash).0
    ensures WorldInv(cfg, down) && down.Down? && down.log == w.group.log && down.snapshot == w.snapshot
  {
    hide WorldInv, Reachable, FilesGrow;
    ReachableInv(cfg, owner, w);
    StepKeeps(cfg, owner, w, Crash);
  }
}
