// The segment file and its offset index: src/core/storage/segment_log.cc.
module SegmentLogs {
  import opened Bytes
  import opened Wrappers
  import opened RecordCodec

  function Cast64(n: nat): u64 {
    n % 0x1_0000_0000_0000_0000
  }

  // ---------------------------------------------------------------------------------------------
  // What a scan of the bytes finds
  // ---------------------------------------------------------------------------------------------

  datatype Found = Found(record: Record, size: nat)

  // The record at the front of some bytes, if a whole one is there.
  function NextRecord(data: seq<byte>): (r: Option<Found>)
    ensures r.Some? ==> HEADER_SIZE <= r.value.size <= |data|
  {
    if |data| < HEADER_SIZE || HeaderOf(data).magic != MAGIC || HeaderOf(data).version != VERSION then None
    else
      match RecordSize(data)
      case None => None
      case Some(size) => if size > |data| then None else Complete(Decode(data[..size]), size)
  }

  function Complete(decoded: Result<Record, Error>, size: nat): Option<Found> {
    match decoded
    case Err(_) => None
    case Ok(r) => Some(Found(r, size))
  }

  // How far the log reaches, the offset the next record gets, and where each offset starts.
  datatype Index = Index(end: nat, next: u64, positions: map<u64, nat>)

  const EMPTY := Index(0, 0, map[])

  function Indexed(index: Index, offset: u64, size: nat): Index {
    Index(index.end + size, Cast64(offset + 1), index.positions[offset := index.end])
  }

  function ScanFrom(file: seq<byte>, index: Index): (r: Index)
    requires index.end <= |file|
    ensures index.end <= r.end <= |file|
    decreases |file| - index.end
  {
    match NextRecord(file[index.end..])
    case None => index
    case Some(found) => ScanFrom(file, Indexed(index, found.record.header.offset, found.size))
  }

  // The index Recover builds from the bytes of a file; the file is cut at its end.
  function Rescan(file: seq<byte>): (r: Index)
    ensures r.end <= |file|
  {
    ScanFrom(file, EMPTY)
  }

  // ---------------------------------------------------------------------------------------------
  // Reads that fail
  // ---------------------------------------------------------------------------------------------

  // The reads of one call are numbered from 0. Recovery reads the header of a record, then the sizes of each of
  // its pairs, then the whole record.
  function ReadsOf(data: seq<byte>): nat
    requires |data| >= HEADER_SIZE
  {
    HeaderOf(data).kvCount + 2
  }

  // Some read with a number from lo up to hi fails.
  ghost predicate FailsIn(fails: set<nat>, lo: nat, hi: nat) {
    exists k :: lo <= k < hi && k in fails
  }

  datatype Scan = Scan(index: Index, broken: bool)

  // The scan when some reads fail, the next read having number k: a failing read of a header breaks it off, any
  // other failing read ends the log there.
  ghost function ScanWith(file: seq<byte>, index: Index, fails: set<nat>, k: nat): (r: Scan)
    requires index.end <= |file|
    ensures index.end <= r.index.end <= |file|
    decreases |file| - index.end
  {
    if k in fails then Scan(index, true)
    else
      var data := file[index.end..];
      match NextRecord(data)
      case None => Scan(index, false)
      case Some(found) =>
        if FailsIn(fails, k + 1, k + ReadsOf(data)) then Scan(index, false)
        else ScanWith(file, Indexed(index, found.record.header.offset, found.size), fails, k + ReadsOf(data))
  }

  ghost function RescanWith(file: seq<byte>, fails: set<nat>): (r: Scan)
    ensures r.index.end <= |file|
  {
    ScanWith(file, EMPTY, fails, 0)
  }

  // Of the reads of a scan without failures, the f-th lies inside a whole record, behind its header.
  ghost predicate InsideRecord(file: seq<byte>, index: Index, k: nat, f: nat)
    requires index.end <= |file|
    decreases |file| - index.end
  {
    var data := file[index.end..];
    match NextRecord(data)
    case None => false
    case Some(found) =>
      || k < f < k + ReadsOf(data)
      || InsideRecord(file, Indexed(index, found.record.header.offset, found.size), k + ReadsOf(data), f)
  }

  ghost predicate FirstFailure(fails: set<nat>, f: nat) {
    f in fails && forall k :: k in fails ==> f <= k
  }

  // Recovery succeeds with fewer records than the file holds.
  ghost predicate Forgets(file: seq<byte>, fails: set<nat>) {
    var scan := RescanWith(file, fails);
    !scan.broken && scan.index.end < Rescan(file).end
  }

  // ---------------------------------------------------------------------------------------------
  // What appending records leaves behind
  // ---------------------------------------------------------------------------------------------

  function FileOf(records: seq<Record>): seq<byte> {
    if records == [] then [] else
    var n := |records| - 1;
    FileOf(records[..n]) + Encode(records[n])
  }

  function IndexOf(records: seq<Record>): Index {
    if records == [] then EMPTY else
    var n := |records| - 1;
    Indexed(IndexOf(records[..n]), records[n].header.offset, |Encode(records[n])|)
  }

  ghost predicate AllWritable(records: seq<Record>) {
    forall i :: 0 <= i < |records| ==> Writable(records[i])
  }

  lemma {:induction false} IndexEnd(records: seq<Record>)
    ensures IndexOf(records).end == |FileOf(records)|
  {
    hide Encode;
    if records != [] {
      IndexEnd(records[..|records| - 1]);
    }
  }

  lemma {:induction false} FilesAppend(records: seq<Record>, r: Record)
    ensures FileOf(records + [r]) == FileOf(records) + Encode(r)
    ensures IndexOf(records + [r]) == Indexed(IndexOf(records), r.header.offset, |Encode(r)|)
  {
    hide Encode, Indexed;
    assert (records + [r])[..|records|] == records;
  }

  // ---------------------------------------------------------------------------------------------
  // Rescanning
  // ---------------------------------------------------------------------------------------------

  lemma {:induction false} FilledOffset(r: Record)
    ensures Filled(r).header.offset == r.header.offset
    ensures Filled(r).header.magic == r.header.magic && Filled(r).header.version == r.header.version
  {
    hide Crc64.Crc, Body;
  }

  // A whole encoding is found whatever follows it.
  lemma {:induction false} NextOfEncoding(r: Record, tail: seq<byte>)
    requires Writable(r)
    ensures NextRecord(Encode(r) + tail) == Some(Found(Filled(r), |Encode(r)|))
  {
    hide Encode, HeaderOf, RecordSize, Decode, Filled, Fits, ParseKvs, KvsBytes;
    var data := Encode(r) + tail;
    EncodingHasHeader(r);
    EncodingLayout(r, data);
    FilledOffset(r);
    PrescanExact(r, tail);
    DecodesWhatFits(r);
    assert data[..|Encode(r)|] == Encode(r);
  }

  // Of a torn encoding nothing is found.
  lemma {:induction false} NextOfTorn(r: Record, m: nat)
    requires Writable(r) && m < |Encode(r)|
    ensures NextRecord(Encode(r)[..m]) == None
  {
    hide Encode, HeaderOf, Decode, Filled, Fits, ParseKvs, KvSizes;
    var data := Encode(r);
    if m >= HEADER_SIZE {
      HeaderCut(data, m);
      assert data + [] == data;
      PrescanExact(r, []);
      SizesCut(data, m, HEADER_SIZE, HeaderOf(data).kvCount);
    }
  }

  lemma {:induction false} ScanPassesRecords(records: seq<Record>, tail: seq<byte>)
    requires AllWritable(records)
    ensures IndexOf(records).end <= |FileOf(records) + tail|
    ensures Rescan(FileOf(records) + tail) == ScanFrom(FileOf(records) + tail, IndexOf(records))
    decreases |records|
  {
    hide Encode, Indexed, NextRecord, Writable;
    IndexEnd(records);
    if records != [] {
      var n := |records| - 1;
      var init, r := records[..n], records[n];
      assert FileOf(records) + tail == FileOf(init) + (Encode(r) + tail);
      ScanPassesRecords(init, Encode(r) + tail);
      IndexEnd(init);
      var file := FileOf(records) + tail;
      assert file[IndexOf(init).end..] == Encode(r) + tail;
      NextOfEncoding(r, tail);
      FilledOffset(r);
    }
  }

  // Recovery after a torn write: of any records followed by a strict prefix of another, exactly the whole
  // records are kept. The prefix may be empty.
  lemma {:induction false} RecoversWholeRecords(records: seq<Record>, r: Record, m: nat)
    requires AllWritable(records) && Writable(r) && m < |Encode(r)|
    ensures
      var file := FileOf(records) + Encode(r)[..m];
      Rescan(file) == IndexOf(records) && file[..Rescan(file).end] == FileOf(records)
  {
    hide Encode, IndexOf, FileOf, NextRecord, Writable, Rescan;
    var tail := Encode(r)[..m];
    ScanPassesRecords(records, tail);
    IndexEnd(records);
    NextOfTorn(r, m);
    assert (FileOf(records) + tail)[IndexOf(records).end..] == tail;
  }

  // A crash while a record is appended leaves a file that recovers to the records before it, or to those
  // and the new one, the latter exactly if every byte was written.
  lemma {:induction false} AppendIsAtomic(records: seq<Record>, r: Record, m: nat)
    requires AllWritable(records) && Writable(r) && m <= |Encode(r)|
    ensures Rescan(FileOf(records) + Encode(r)[..m]) == IndexOf(if m == |Encode(r)| then records + [r] else records)
  {
    hide Encode, IndexOf, FileOf, NextRecord, Writable, Rescan;
    if m < |Encode(r)| {
      RecoversWholeRecords(records, r, m);
    } else {
      assert Encode(r)[..m] == Encode(r);
      FilesAppend(records, r);
      RescanOfRecords(records + [r]);
    }
  }

  lemma {:induction false} RescanOfRecords(records: seq<Record>)
    requires AllWritable(records)
    ensures Rescan(FileOf(records)) == IndexOf(records)
  {
    hide Encode, IndexOf, FileOf, Writable, Rescan, RecordSize, Decode, HeaderOf;
    ScanPassesRecords(records, []);
    assert FileOf(records) + [] == FileOf(records);
    IndexEnd(records);
  }

  // The index holds each offset at the sum of the lengths of the records before, and no other offset. When
  // an offset occurs twice, the later record wins.
  lemma {:induction false} IndexPositions(records: seq<Record>, k: nat)
    requires k < |records|
    requires forall i :: k < i < |records| ==> records[i].header.offset != records[k].header.offset
    ensures records[k].header.offset in IndexOf(records).positions
    ensures IndexOf(records).positions[records[k].header.offset] == |FileOf(records[..k])|
    decreases |records|
  {
    hide Encode, FileOf;
    var n := |records| - 1;
    if k < n {
      assert records[..n][..k] == records[..k];
      IndexPositions(records[..n], k);
    } else {
      IndexEnd(records[..n]);
    }
  }

  lemma {:induction false} IndexKeys(records: seq<Record>, offset: u64)
    ensures offset in IndexOf(records).positions <==>
      exists k :: 0 <= k < |records| && records[k].header.offset == offset
    decreases |records|
  {
    hide Encode, FileOf;
    if records != [] {
      var n := |records| - 1;
      var init := records[..n];
      IndexKeys(init, offset);
      if offset in IndexOf(init).positions {
        var k :| 0 <= k < |init| && init[k].header.offset == offset;
        assert records[k] == init[k];
      }
      if k :| 0 <= k < |records| && records[k].header.offset == offset {
        assert k < n ==> init[k] == records[k];
      }
    }
  }

  // ---------------------------------------------------------------------------------------------
  // Arbitrary bytes
  // ---------------------------------------------------------------------------------------------

  // The stretches of a file that are kept, one per record.
  function Kept(file: seq<byte>, at: nat): seq<seq<byte>>
    requires at <= |file|
    decreases |file| - at
  {
    match NextRecord(file[at..])
    case None => []
    case Some(found) => [file[at..at + found.size]] + Kept(file, at + found.size)
  }

  function Flatten(parts: seq<seq<byte>>): seq<byte> {
    if parts == [] then [] else parts[0] + Flatten(parts[1..])
  }

  predicate WholeRecord(part: seq<byte>) {
    Decode(part).Ok? && |part| >= HEADER_SIZE && RecordSize(part) == Some(|part|)
  }

  lemma {:induction false} SizesKept(data: seq<byte>, m: nat, at: nat, n: nat)
    requires m <= |data| && KvSizes(data, at, n).Some? && at + KvSizes(data, at, n).value <= m
    ensures KvSizes(data[..m], at, n) == KvSizes(data, at, n)
    decreases n
  {
    hide Field32;
    if n > 0 {
      FieldCut(data, m, at);
      FieldCut(data, m, at + 4);
      SizesKept(data, m, at + 8 + Field32(data, at) + Field32(data, at + 4), n - 1);
    }
  }

  // A record found stays found when the bytes behind it go.
  lemma {:induction false} NextKept(data: seq<byte>, m: nat)
    requires m <= |data| && NextRecord(data).Some? && NextRecord(data).value.size <= m
    ensures NextRecord(data[..m]) == NextRecord(data)
    ensures WholeRecord(data[..NextRecord(data).value.size])
  {
    hide HeaderOf, Decode, KvSizes;
    var size := NextRecord(data).value.size;
    HeaderCut(data, m);
    HeaderCut(data, size);
    SizesKept(data, m, HEADER_SIZE, HeaderOf(data).kvCount);
    SizesKept(data, size, HEADER_SIZE, HeaderOf(data).kvCount);
    assert data[..m][..size] == data[..size];
  }

  lemma {:induction false} KeptFrom(file: seq<byte>, index: Index)
    requires index.end <= |file|
    ensures file[index.end..ScanFrom(file, index).end] == Flatten(Kept(file, index.end))
    ensures forall i :: 0 <= i < |Kept(file, index.end)| ==> WholeRecord(Kept(file, index.end)[i])
    ensures NextRecord(file[ScanFrom(file, index).end..]) == None
    decreases |file| - index.end
  {
    hide NextRecord, WholeRecord;
    var data := file[index.end..];
    if NextRecord(data).Some? {
      var found := NextRecord(data).value;
      var next := Indexed(index, found.record.header.offset, found.size);
      NextKept(data, found.size);
      KeptFrom(file, next);
      assert data[..found.size] == file[index.end..next.end];
      var end := ScanFrom(file, next).end;
      assert file[index.end..end] == file[index.end..next.end] + file[next.end..end];
    }
  }

  // Whatever the bytes, recovery keeps a concatenation of decodable records, and all of it: at the cut no
  // further record starts.
  lemma {:induction false} RecoverKeepsRecords(file: seq<byte>)
    ensures file[..Rescan(file).end] == Flatten(Kept(file, 0))
    ensures forall i :: 0 <= i < |Kept(file, 0)| ==> WholeRecord(Kept(file, 0)[i])
    ensures NextRecord(file[Rescan(file).end..]) == None
  {
    hide NextRecord, WholeRecord, Kept, Flatten, ScanFrom;
    KeptFrom(file, EMPTY);
    assert file[0..Rescan(file).end] == file[..Rescan(file).end];
  }

  lemma NothingInNothing()
    ensures NextRecord([]) == None
  {
  }

  // One step of a scan.
  lemma {:induction false} ScanStep(file: seq<byte>, index: Index)
    requires index.end <= |file|
    ensures
      match NextRecord(file[index.end..])
      case None => ScanFrom(file, index) == index
      case Some(found) =>
        var next := Indexed(index, found.record.header.offset, found.size);
        next.end == index.end + found.size <= |file| && ScanFrom(file, index) == ScanFrom(file, next)
  {
    hide NextRecord;
  }

  lemma SuffixOfPrefix(file: seq<byte>, at: nat, m: nat)
    requires at <= m <= |file|
    ensures file[..m][at..] == file[at..][..m - at]
  {
  }

  lemma {:induction false} ScanOfKept(file: seq<byte>, index: Index, m: nat)
    requires index.end <= |file| && m == ScanFrom(file, index).end
    ensures index.end <= |file[..m]| && ScanFrom(file[..m], index) == ScanFrom(file, index)
    decreases |file| - index.end
  {
    hide NextRecord, Indexed, ScanFrom, WholeRecord;
    var data := file[index.end..];
    ScanStep(file, index);
    SuffixOfPrefix(file, index.end, m);
    ScanStep(file[..m], index);
    match NextRecord(data) {
      case None =>
        NothingInNothing();
        assert data[..0] == [];
      case Some(found) =>
        NextKept(data, m - index.end);
        ScanOfKept(file, Indexed(index, found.record.header.offset, found.size), m);
    }
  }

  // Recovering a recovered file changes nothing and builds the same index.
  lemma {:induction false} RecoverIdempotent(file: seq<byte>)
    ensures var kept := file[..Rescan(file).end]; Rescan(kept) == Rescan(file) && kept[..Rescan(kept).end] == kept
  {
    hide ScanFrom;
    ScanOfKept(file, EMPTY, Rescan(file).end);
  }

  // ---------------------------------------------------------------------------------------------
  // What failing reads cost
  // ---------------------------------------------------------------------------------------------

  lemma {:induction false} NoFailures(file: seq<byte>, index: Index, fails: set<nat>, k: nat)
    requires index.end <= |file| && forall f :: f in fails ==> f < k
    ensures ScanWith(file, index, fails, k) == Scan(ScanFrom(file, index), false)
    decreases |file| - index.end
  {
    hide NextRecord, Indexed, ReadsOf;
    var data := file[index.end..];
    ScanStep(file, index);
    if NextRecord(data).Some? {
      var found := NextRecord(data).value;
      NoFailures(file, Indexed(index, found.record.header.offset, found.size), fails, k + ReadsOf(data));
    }
  }

  // Whether the first failing read is of a header, inside a record, or beyond the last one, decides what the scan
  // finds.
  lemma {:induction false} ScanWithFailure(file: seq<byte>, index: Index, fails: set<nat>, k: nat, f: nat)
    requires index.end <= |file| && FirstFailure(fails, f) && k <= f
    ensures
      var scan := ScanWith(file, index, fails, k);
      var all := ScanFrom(file, index);
      && scan.index.end <= all.end
      && (!scan.broken && scan.index.end < all.end <==> InsideRecord(file, index, k, f))
      && (!scan.broken && scan.index.end == all.end ==> scan.index == all)
    decreases |file| - index.end
  {
    hide NextRecord, Indexed, ReadsOf;
    var data := file[index.end..];
    ScanStep(file, index);
    if f == k {
      HeaderNotInside(file, index, k, f);
    } else if NextRecord(data).Some? {
      var found := NextRecord(data).value;
      var next := Indexed(index, found.record.header.offset, found.size);
      if f < k + ReadsOf(data) {
        assert FailsIn(fails, k + 1, k + ReadsOf(data));
        HeaderNotInside(file, next, k + ReadsOf(data), f);
      } else {
        ScanWithFailure(file, next, fails, k + ReadsOf(data), f);
      }
    }
  }

  // The reads inside the records from here on have later numbers than the read of the next header.
  lemma {:induction false} HeaderNotInside(file: seq<byte>, index: Index, k: nat, f: nat)
    requires index.end <= |file| && f <= k
    ensures !InsideRecord(file, index, k, f)
    decreases |file| - index.end
  {
    hide NextRecord, Indexed, ReadsOf;
    var data := file[index.end..];
    ScanStep(file, index);
    if NextRecord(data).Some? {
      var found := NextRecord(data).value;
      HeaderNotInside(file, Indexed(index, found.record.header.offset, found.size), k + ReadsOf(data), f);
    }
  }

  // Recovery cuts whole records off without reporting an error if and only if the first read that fails lies
  // inside a whole record. Short of that it finds all of them, or reports the error.
  lemma {:induction false} ForgetsExactly(file: seq<byte>, fails: set<nat>)
    ensures Forgets(file, fails) <==> exists f :: FirstFailure(fails, f) && InsideRecord(file, EMPTY, 0, f)
    ensures !Forgets(file, fails) && !RescanWith(file, fails).broken ==> RescanWith(file, fails).index == Rescan(file)
  {
    hide ScanWith, ScanFrom, InsideRecord, FirstFailure;
    if fails == {} {
      NoFailures(file, EMPTY, fails, 0);
      assert forall f :: !FirstFailure(fails, f) by {
        NoneFirst(fails);
      }
    } else {
      var f := SmallestFailure(fails);
      ScanWithFailure(file, EMPTY, fails, 0, f);
      forall other | FirstFailure(fails, other)
        ensures other == f
      {
        OneFirst(fails, f, other);
      }
    }
  }

  lemma NoneFirst(fails: set<nat>)
    requires fails == {}
    ensures forall f :: !FirstFailure(fails, f)
  {
  }

  lemma OneFirst(fails: set<nat>, a: nat, b: nat)
    requires FirstFailure(fails, a) && FirstFailure(fails, b)
    ensures a == b
  {
  }

  lemma {:induction false} SmallestFailure(fails: set<nat>) returns (f: nat)
    requires fails != {}
    ensures FirstFailure(fails, f)
    decreases |fails|
  {
    var some :| some in fails;
    var rest := fails - {some};
    assert fails == rest + {some};
    f := some;
    if rest != {} {
      f := SmallestFailure(rest);
      if some < f {
        f := some;
      }
    }
  }

  // The plainest case: a file that is one record, and the last read of that record fails. Recovery reports no
  // error and cuts the file to nothing.
  lemma {:induction false} OneRecordForgotten(r: Record)
    requires Writable(r)
    ensures
      var fails := {|r.headers| + 1};
      && RescanWith(Encode(r), fails) == Scan(EMPTY, false)
      && Rescan(Encode(r)) == IndexOf([r]) && Rescan(Encode(r)).end == |Encode(r)| > 0
  {
    hide Encode, NextRecord, Writable, HeaderOf, Rescan, IndexOf;
    ReadsOfEncoding(r);
    NextOfEncoding(r, []);
    assert Encode(r) + [] == Encode(r) && Encode(r)[0..] == Encode(r);
    assert FailsIn({|r.headers| + 1}, 1, 0 + ReadsOf(Encode(r)));
    OneRecordFile(r);
    RescanOfRecords([r]);
    IndexEnd([r]);
  }

  lemma {:induction false} ReadsOfEncoding(r: Record)
    requires Writable(r)
    ensures |Encode(r)| >= HEADER_SIZE && ReadsOf(Encode(r)) == |r.headers| + 2
  {
    hide Encode, HeaderOf, Filled, Fits, ParseKvs, KvsBytes;
    EncodingHasHeader(r);
    EncodingLayout(r, Encode(r));
    FilledSizes(r);
  }

  lemma {:induction false} OneRecordFile(r: Record)
    ensures FileOf([r]) == Encode(r)
  {
    hide Encode;
    FilesAppend([], r);
    assert [] + [r] == [r];
  }

  // A record damaged within 8 consecutive bytes of its routing key or payload ends the log: recovery keeps
  // the records before it and drops it with all that follows.
  lemma {:induction false} DamagedRecordEndsLog(
    records: seq<Record>, r: Record, damaged: seq<byte>, p: nat, tail: seq<byte>)
    requires AllWritable(records) && Writable(r) && damaged != Encode(r) && |damaged| == |Encode(r)|
    requires |KvsBytes(r.headers)| <= p && damaged[..HEADER_SIZE] == Encode(r)[..HEADER_SIZE]
    requires Crc64.DifferOnlyInWindow(Encode(r)[HEADER_SIZE..], damaged[HEADER_SIZE..], p)
    ensures Rescan(FileOf(records) + (damaged + tail)) == IndexOf(records)
  {
    hide Encode, IndexOf, FileOf, NextRecord, Writable, Rescan, Indexed, Crc64.DifferOnlyInWindow, KvsBytes;
    ScanPassesRecords(records, damaged + tail);
    IndexEnd(records);
    NextOfDamaged(r, damaged, p, tail);
    assert (FileOf(records) + (damaged + tail))[IndexOf(records).end..] == damaged + tail;
  }

  lemma {:induction false} NextOfDamaged(r: Record, damaged: seq<byte>, p: nat, tail: seq<byte>)
    requires Writable(r) && damaged != Encode(r) && |damaged| == |Encode(r)|
    requires |KvsBytes(r.headers)| <= p && damaged[..HEADER_SIZE] == Encode(r)[..HEADER_SIZE]
    requires Crc64.DifferOnlyInWindow(Encode(r)[HEADER_SIZE..], damaged[HEADER_SIZE..], p)
    ensures NextRecord(damaged + tail) == None
  {
    hide Encode, Crc64.DifferOnlyInWindow, KvsBytes, HeaderOf, Decode, KvSizes, Writable;
    BurstRejected(r, damaged, p);
    AnnouncesSameSize(r, damaged, p, tail);
    assert (damaged + tail)[..|damaged|] == damaged;
  }

  lemma {:induction false} AnnouncesSameSize(r: Record, damaged: seq<byte>, p: nat, tail: seq<byte>)
    requires Writable(r) && |damaged| == |Encode(r)|
    requires |KvsBytes(r.headers)| <= p && damaged[..HEADER_SIZE] == Encode(r)[..HEADER_SIZE]
    requires Crc64.DifferOnlyInWindow(Encode(r)[HEADER_SIZE..], damaged[HEADER_SIZE..], p)
    ensures |damaged| >= HEADER_SIZE && RecordSize(damaged + tail) == Some(|Encode(r)|)
  {
    hide Encode, KvsBytes, HeaderOf, ParseKvs, KvSizes, Filled, KvFits;
    var data := Encode(r);
    EncodingHasHeader(r);
    EncodingLayout(r, data);
    FilledSizes(r);
    SizesOfParsed(data, HEADER_SIZE, |r.headers|);
    var m := HEADER_SIZE + |KvsBytes(r.headers)|;
    AgreeBefore(data, damaged, p, m);
    SizesKept(data, m, HEADER_SIZE, |r.headers|);
    assert (damaged + tail)[..m] == damaged[..m];
    SizesCut(damaged + tail, m, HEADER_SIZE, |r.headers|);
    assert (damaged + tail)[..HEADER_SIZE] == damaged[..HEADER_SIZE];
    SameHeader(damaged + tail, data);
  }

  lemma {:induction false} AgreeBefore(a: seq<byte>, b: seq<byte>, p: nat, m: nat)
    requires |a| == |b| && HEADER_SIZE <= m <= |a| && m <= HEADER_SIZE + p && a[..HEADER_SIZE] == b[..HEADER_SIZE]
    requires Crc64.DifferOnlyInWindow(a[HEADER_SIZE..], b[HEADER_SIZE..], p)
    ensures a[..m] == b[..m]
  {
    forall i | 0 <= i < m
      ensures a[i] == b[i]
    {
      if i < HEADER_SIZE {
        assert a[i] == a[..HEADER_SIZE][i] && b[i] == b[..HEADER_SIZE][i];
      } else {
        assert a[i] == a[HEADER_SIZE..][i - HEADER_SIZE] && b[i] == b[HEADER_SIZE..][i - HEADER_SIZE];
      }
    }
  }

  // ---------------------------------------------------------------------------------------------
  // Reading through the index
  // ---------------------------------------------------------------------------------------------

  datatype LogError = NotOpen | NotFound | IoError | Corrupt(reason: Error)

  // What can be read at a position, which may lie past the end.
  function Suffix(file: seq<byte>, at: nat): seq<byte> {
    if at <= |file| then file[at..] else []
  }

  // The pread system call.
  function Pread(file: seq<byte>, at: nat, size: nat): (bytes: seq<byte>)
    ensures |bytes| <= size
  {
    var data := Suffix(file, at);
    if size <= |data| then data[..size] else data
  }

  function ReadAt(file: seq<byte>, at: nat): Result<Record, LogError> {
    var data := Suffix(file, at);
    if |data| < HEADER_SIZE then Err(IoError)
    else
      match RecordSize(data)
      case None => Err(IoError)
      case Some(size) =>
        if size > |data| then Err(IoError)
        else
          match Decode(data[..size])
          case Err(e) => Err(Corrupt(e))
          case Ok(r) => Ok(r)
  }

  // A stored record that was damaged within 8 consecutive bytes of its routing key or payload is reported as
  // corrupt when it is read; one that breaks off, as a failing read.
  lemma {:induction false} DamageReported(
    front: seq<byte>, r: Record, damaged: seq<byte>, p: nat, tail: seq<byte>, m: nat)
    requires Writable(r) && damaged != Encode(r) && |damaged| == |Encode(r)| && m < |Encode(r)|
    requires |KvsBytes(r.headers)| <= p && damaged[..HEADER_SIZE] == Encode(r)[..HEADER_SIZE]
    requires Crc64.DifferOnlyInWindow(Encode(r)[HEADER_SIZE..], damaged[HEADER_SIZE..], p)
    ensures var answer := ReadAt(front + (damaged + tail), |front|); answer.Err? && answer.error.Corrupt?
    ensures ReadAt(front + Encode(r)[..m], |front|) == Err(IoError)
  {
    hide Encode, Crc64.DifferOnlyInWindow, KvsBytes, HeaderOf, Decode, RecordSize, Writable;
    assert Suffix(front + (damaged + tail), |front|) == damaged + tail;
    assert Suffix(front + Encode(r)[..m], |front|) == Encode(r)[..m];
    BurstRejected(r, damaged, p);
    AnnouncesSameSize(r, damaged, p, tail);
    assert (damaged + tail)[..|damaged|] == damaged;
    TornSize(r, m);
  }

  lemma {:induction false} TornSize(r: Record, m: nat)
    requires Writable(r) && m < |Encode(r)|
    ensures
      var data := Encode(r)[..m];
      m < HEADER_SIZE || RecordSize(data) == None || RecordSize(data).value > m
  {
    hide Encode, HeaderOf, Decode, Filled, Fits, ParseKvs, KvSizes;
    var data := Encode(r);
    if m >= HEADER_SIZE {
      HeaderCut(data, m);
      assert data + [] == data;
      PrescanExact(r, []);
      SizesCut(data, m, HEADER_SIZE, HeaderOf(data).kvCount);
    }
  }

  lemma {:induction false} RecordInFile(records: seq<Record>, k: nat) returns (rest: seq<byte>)
    requires k < |records|
    ensures |FileOf(records[..k])| <= |FileOf(records)|
    ensures FileOf(records)[|FileOf(records[..k])|..] == Encode(records[k]) + rest
    decreases |records|
  {
    hide Encode;
    var n := |records| - 1;
    if k == n {
      rest := [];
      assert FileOf(records)[|FileOf(records[..n])|..] == Encode(records[n]) + [];
    } else {
      assert records[..n][..k] == records[..k];
      var inner := RecordInFile(records[..n], k);
      rest := inner + Encode(records[n]);
      assert FileOf(records)[|FileOf(records[..k])|..]
        == FileOf(records[..n])[|FileOf(records[..k])|..] + Encode(records[n]);
    }
  }

  // Each record is read back at the position of its offset.
  lemma {:induction false} ReadsBack(records: seq<Record>, k: nat)
    requires AllWritable(records) && k < |records|
    ensures ReadAt(FileOf(records), |FileOf(records[..k])|) == Ok(Filled(records[k]))
  {
    hide Encode, RecordSize, Decode, Filled, Fits, FileOf;
    var rest := RecordInFile(records, k);
    EncodingHasHeader(records[k]);
    PrescanExact(records[k], rest);
    DecodesWhatFits(records[k]);
    assert (Encode(records[k]) + rest)[..|Encode(records[k])|] == Encode(records[k]);
  }

  // ---------------------------------------------------------------------------------------------
  // Writing at a position
  // ---------------------------------------------------------------------------------------------

  function Zeros(n: nat): (z: seq<byte>)
    ensures |z| == n
  {
    seq(n, _ => 0)
  }

  // The bytes of a file after a write at some position; a gap before it reads as zeros.
  function Overwrite(file: seq<byte>, at: nat, bytes: seq<byte>): seq<byte> {
    if bytes == [] then file
    else
      (if at <= |file| then file[..at] else file + Zeros(at - |file|)) + bytes + Suffix(file, at + |bytes|)
  }

  lemma {:induction false} OverwriteTwice(file: seq<byte>, at: nat, a: seq<byte>, b: seq<byte>)
    ensures Overwrite(Overwrite(file, at, a), at + |a|, b) == Overwrite(file, at, a + b)
  {
    if a == [] {
      assert a + b == b;
    } else if b == [] {
      assert a + b == a;
    } else {
      hide Overwrite;
      OverwriteOnce(file, at, a);
      OverwriteOnce(file, at, a + b);
      var start := Start(file, at);
      hide Start, Suffix;
      OverwriteInside(start + a, Suffix(file, at + |a|), b);
      SuffixTwice(file, at + |a|, |b|);
      Associates(start, a, b, Suffix(file, at + |a + b|));
    }
  }

  lemma {:induction false} Associates(s: seq<byte>, a: seq<byte>, b: seq<byte>, z: seq<byte>)
    ensures s + a + b + z == s + (a + b) + z
  {
    assert s + a + b == s + (a + b);
  }

  function Start(file: seq<byte>, at: nat): (start: seq<byte>)
    ensures |start| == at
  {
    if at <= |file| then file[..at] else file + Zeros(at - |file|)
  }

  lemma OverwriteOnce(file: seq<byte>, at: nat, a: seq<byte>)
    requires a != []
    ensures Overwrite(file, at, a) == Start(file, at) + a + Suffix(file, at + |a|)
  {
  }

  lemma {:induction false} OverwriteInside(x: seq<byte>, y: seq<byte>, b: seq<byte>)
    requires b != []
    ensures Overwrite(x + y, |x|, b) == x + b + Suffix(y, |b|)
  {
    assert (x + y)[..|x|] == x;
    if |b| <= |y| {
      assert (x + y)[|x| + |b|..] == y[|b|..];
    }
  }

  lemma SuffixTwice(file: seq<byte>, at: nat, n: nat)
    ensures Suffix(Suffix(file, at), n) == Suffix(file, at + n)
  {
  }

  // A write extends the file by its bytes exactly if it starts at the end. A log reopened with records in
  // it writes from position 0 and so overwrites them.
  lemma {:induction false} ExtendsOnlyAtEnd(file: seq<byte>, at: nat, bytes: seq<byte>)
    requires at <= |file| && bytes != []
    ensures Overwrite(file, at, bytes) == file + bytes <==> at == |file|
  {
    if at == |file| {
      assert file[..at] == file;
    } else {
      assert |Overwrite(file, at, bytes)| < |file| + |bytes|;
    }
  }

  // ---------------------------------------------------------------------------------------------
  // The log
  // ---------------------------------------------------------------------------------------------

  // The record as Append stores it.
  function Stamped(r: Record, offset: u64): Record {
    r.(header := r.header.(offset := offset))
  }

  ghost predicate Numbered(records: seq<Record>) {
    forall k :: 0 <= k < |records| ==> records[k].header.offset == Cast64(k)
  }

  class SegmentLog {
    const syncAlways: bool

    var isOpen: bool

    // The file on disk, and the write position of the descriptor.
    var file: seq<byte>
    var cursor: nat

    var next: u64
    var positions: map<u64, nat>

    // The records appended in this session.
    ghost var records: seq<Record>

    // A session that started on an empty file and in which every write succeeded.
    ghost predicate Clean()
      reads this
    {
      && isOpen && cursor == |file|
      && AllWritable(records) && Numbered(records)
      && file == FileOf(records) && Index(|file|, next, positions) == IndexOf(records)
    }

    constructor (file: seq<byte>, syncAlways: bool)
      ensures this.file == file && this.syncAlways == syncAlways
      ensures !isOpen && next == 0 && positions == map[]
    {
      this.file, this.syncAlways := file, syncAlways;
      isOpen, cursor, next, positions, records := false, 0, 0, map[], [];
    }

    // A descriptor starts at position 0, whatever the file holds.
    method Open()
      modifies this`isOpen, this`cursor
      ensures isOpen && cursor == 0
    {
      isOpen, cursor := true, 0;
    }

    // The read with number k of a call; None when it fails.
    method ReadFile(at: nat, size: nat, k: nat, fails: set<nat>) returns (bytes: Option<seq<byte>>)
      ensures bytes == if k in fails then None else Some(Pread(file, at, size))
    {
      bytes := if k in fails then None else Some(Pread(file, at, size));
    }

    // Cuts the file; the code does not look whether that fails.
    method Truncate(size: nat, fails: bool)
      requires size <= |file|
      modifies this`file
      ensures file == if fails then old(file) else old(file)[..size]
    {
      if !fails {
        file := file[..size];
      }
    }

    // The loop over the size fields that Recover and Read share, its reads numbered from k on; None when it runs
    // out of bytes or a read fails.
    method ScanSizes(header: Header, position: nat, k: nat, fails: set<nat>) returns (size: Option<nat>)
      requires |Suffix(file, position)| >= HEADER_SIZE && header == HeaderOf(Suffix(file, position))
      ensures size == if FailsIn(fails, k, k + header.kvCount) then None else RecordSize(Suffix(file, position))
    {
      ghost var data := Suffix(file, position);
      hide HeaderOf, Field32, Pread;
      var recordSize: nat := HEADER_SIZE + header.routingKeySize + header.payloadSize;
      var kvCursor: nat := position + HEADER_SIZE;
      ghost var scanned: nat := 0;
      var i := 0;
      while i < header.kvCount
        invariant 0 <= i <= header.kvCount && !FailsIn(fails, k, k + i)
        invariant kvCursor == position + HEADER_SIZE + scanned
        invariant recordSize == HEADER_SIZE + header.routingKeySize + header.payloadSize + scanned
        invariant KvSizes(data, HEADER_SIZE, header.kvCount)
                  == Plus(scanned, KvSizes(data, HEADER_SIZE + scanned, header.kvCount - i))
      {
        var sizes := ReadFile(kvCursor, 8, k + i, fails);
        PreadSizes(file, position, kvCursor - position);
        if sizes.None? || |sizes.value| < 8 {
          return None;
        }
        var step := 8 + Field32(sizes.value, 0) + Field32(sizes.value, 4);
        recordSize := recordSize + step;
        kvCursor := kvCursor + step;
        scanned := scanned + step;
        i := i + 1;
      }
      size := Some(recordSize);
    }

    // Without failing reads the file is cut where the scan ends and the index is that of the scan. A read that
    // fails inside a record cuts the log there like a torn one; one that fails at the start of a record is
    // reported and leaves the file. Either way the index is that of the records before.
    method Recover(fails: set<nat>, cutFails: bool) returns (failure: Option<LogError>)
      modifies this`file, this`next, this`positions, this`records
      ensures !isOpen ==>
        failure == Some(NotOpen) && file == old(file) && next == old(next) && positions == old(positions)
      ensures isOpen ==>
        var scan := RescanWith(old(file), fails);
        && failure == (if scan.broken then Some(IoError) else None)
        && next == scan.index.next && positions == scan.index.positions
        && file == if scan.broken || cutFails then old(file) else old(file)[..scan.index.end]
      ensures isOpen && fails == {} ==>
        && failure == None && RescanWith(old(file), fails).index == Rescan(old(file))
        && next == Rescan(old(file)).next && positions == Rescan(old(file)).positions
      ensures isOpen && old(file) == [] && cursor == 0 && failure == None ==> Clean() && records == []
    {
      if !isOpen {
        return Some(NotOpen);
      }
      hide Rescan, FileOf;
      NoFailures(file, EMPTY, {}, 0);
      NothingScanned(fails);
      var end, broken := ScanFile(fails, cutFails);
      records := [];
      failure := if broken then Some(IoError) else None;
    }

    // The loop of Recover: how far it got, and whether it broke off at a failing read.
    method ScanFile(fails: set<nat>, cutFails: bool) returns (end: nat, broken: bool)
      modifies this`file, this`next, this`positions
      ensures Scan(Index(end, next, positions), broken) == RescanWith(old(file), fails)
      ensures file == if broken || cutFails then old(file) else old(file)[..end]
    {
      hide NextRecord, Cast64, Pread, FailsIn, ReadsOf;
      positions, next := map[], 0;
      end := 0;
      var k := 0;
      var found;
      found, broken, k := ReadRecord(end, 0, fails);
      while found.Some?
        invariant file == old(file) && end <= |file|
        invariant found.Some? ==> 0 < found.value.size <= |file| - end && !broken
        invariant found.Some? ==>
          var ahead := Indexed(Index(end, next, positions), found.value.record.header.offset, found.value.size);
          ScanWith(file, ahead, fails, k) == RescanWith(old(file), fails)
        invariant found.None? ==> RescanWith(old(file), fails) == Scan(Index(end, next, positions), broken)
        decreases |file| - end, found.Some?
      {
        var record, size := found.value.record, found.value.size;
        IndexedIs(end, next, positions, record.header.offset, size);
        positions := positions[record.header.offset := end];
        next := Cast64(record.header.offset + 1);
        end := end + size;
        found, broken, k := ReadRecord(end, k, fails);
      }
      if !broken {
        Truncate(end, cutFails);
      }
    }

    // One turn of Recover, its reads numbered from k on: the record at a position, if it is whole and every read of
    // it succeeds. Only a failing read of the header is told apart from a record that is not whole.
    method ReadRecord(position: nat, k: nat, fails: set<nat>) returns (found: Option<Found>, broken: bool, k': nat)
      requires position <= |file|
      ensures broken <==> k in fails
      ensures
        var data := file[position..];
        var next := NextRecord(data);
        if broken || next.None? || FailsIn(fails, k + 1, k + ReadsOf(data)) then found == None
        else found == next && k' == k + ReadsOf(data)
    {
      hide HeaderOf, RecordSize, Decode;
      ghost var data := file[position..];
      k' := k;
      var image := ReadFile(position, HEADER_SIZE, k, fails);
      if image.None? {
        return None, true, k';
      }
      if |image.value| < HEADER_SIZE {
        return None, false, k';
      }
      var header := HeaderOf(image.value);
      HeaderCut(data, HEADER_SIZE);
      if header.magic != MAGIC || header.version != VERSION {
        return None, false, k';
      }
      var size := ScanSizes(header, position, k + 1, fails);
      k' := k + header.kvCount + 2;
      FailsSplit(fails, k + 1, k + 1 + header.kvCount);
      if size.None? {
        return None, false, k';
      }
      var buffer := ReadFile(position, size.value, k + 1 + header.kvCount, fails);
      if buffer.None? || |buffer.value| < size.value {
        return None, false, k';
      }
      var decoded := DecodeRecord(buffer.value);
      if decoded.Err? {
        return None, false, k';
      }
      found, broken := Some(Found(decoded.value, size.value)), false;
    }

    // The reads of this call are those of the header, the sizes and the record, numbered from 0.
    method Read(offset: u64, fails: set<nat>) returns (answer: Result<Record, LogError>)
      ensures offset !in positions ==> answer == Err(NotFound)
      ensures offset in positions ==>
        var data := Suffix(file, positions[offset]);
        var failed := |data| >= HEADER_SIZE && FailsIn(fails, 0, ReadsOf(data));
        answer == if failed then Err(IoError) else ReadAt(file, positions[offset])
      ensures fails == {} && Clean() && offset < |records| && |records| <= 0x1_0000_0000_0000_0000 ==>
        answer == Ok(Filled(records[offset]))
    {
      hide HeaderOf, RecordSize, Decode, Filled, Writable, IndexOf, FileOf;
      if Clean() && offset < |records| && |records| <= 0x1_0000_0000_0000_0000 {
        NumberedPosition(records, offset);
        ReadsBack(records, offset);
      }
      if offset !in positions {
        return Err(NotFound);
      }
      var position := positions[offset];
      ghost var data := Suffix(file, position);
      var image := ReadFile(position, HEADER_SIZE, 0, fails);
      if image.None? || |image.value| < HEADER_SIZE {
        return Err(IoError);
      }
      var header := HeaderOf(image.value);
      HeaderCut(data, HEADER_SIZE);
      var size := ScanSizes(header, position, 1, fails);
      FailsSplit(fails, 0, 1);
      FailsSplit(fails, 1, 1 + header.kvCount);
      if size.None? {
        return Err(IoError);
      }
      var buffer := ReadFile(position, size.value, 1 + header.kvCount, fails);
      if buffer.None? || |buffer.value| < size.value {
        return Err(IoError);
      }
      var decoded := DecodeRecord(buffer.value);
      answer := if decoded.Err? then Err(Corrupt(decoded.error)) else Ok(decoded.value);
    }

    // The write system call: it may fail, and it may take only some of the bytes.
    method Write(bytes: seq<byte>) returns (result: int)
      modifies this`file, this`cursor
      ensures result <= |bytes|
      ensures result <= 0 ==> file == old(file) && cursor == old(cursor)
      ensures result > 0 ==>
        file == Overwrite(old(file), old(cursor), bytes[..result]) && cursor == old(cursor) + result
    {
      result := *;
      if result > |bytes| {
        result := |bytes|;
      }
      if result > 0 {
        file := Overwrite(file, cursor, bytes[..result]);
        cursor := cursor + result;
      }
    }

    method WriteAll(bytes: seq<byte>) returns (ok: bool, written: nat)
      modifies this`file, this`cursor
      ensures written <= |bytes| && (ok <==> written == |bytes|)
      ensures file == Overwrite(old(file), old(cursor), bytes[..written]) && cursor == old(cursor) + written
    {
      hide Overwrite;
      written := 0;
      OverwriteNothing(file, cursor);
      assert bytes[..0] == [];
      while written < |bytes|
        invariant 0 <= written <= |bytes|
        invariant file == Overwrite(old(file), old(cursor), bytes[..written]) && cursor == old(cursor) + written
        decreases |bytes| - written
      {
        var result := Write(bytes[written..]);
        if result <= 0 {
          return false, written;
        }
        OverwriteTwice(old(file), old(cursor), bytes[..written], bytes[written..][..result]);
        assert bytes[..written] + bytes[written..][..result] == bytes[..written + result];
        written := written + result;
      }
      ok := true;
    }

    // The record goes to the write position under the next offset. In a clean session that is the end of the
    // file; a failed append then leaves the records so far and a piece of the new one.
    method Append(record: Record) returns (answer: Result<u64, LogError>, written: nat)
      modifies this`file, this`cursor, this`next, this`positions, this`records
      ensures !isOpen ==> answer == Err(NotOpen) && written == 0
      ensures answer.Err? ==> next == old(next) && positions == old(positions) && records == old(records)
      ensures written <= |Encode(Stamped(record, old(next)))|
      ensures file == Overwrite(old(file), old(cursor), Encode(Stamped(record, old(next)))[..written])
      ensures cursor == old(cursor) + written
      ensures answer.Ok? ==>
        && answer.value == old(next) && written == |Encode(Stamped(record, old(next)))|
        && next == Cast64(old(next) + 1) && positions == old(positions)[old(next) := old(cursor)]
      ensures answer.Ok? && old(Clean()) && Writable(record) ==>
        Clean() && records == old(records) + [Stamped(record, old(next))]
      ensures answer.Ok? && old(Clean()) && Writable(record) ==>
        var r := records[|records| - 1];
        && r.header == record.header.(offset := old(next))
        && r.payload == record.payload && r.headers == record.headers && r.routingKey == record.routingKey
      ensures old(Clean()) ==> file == FileOf(old(records)) + Encode(Stamped(record, old(next)))[..written]
    {
      hide Encode, Overwrite, IndexOf, FileOf, Writable;
      OverwriteNothing(file, cursor);
      written := 0;
      var stamped := Stamped(record, next);
      assert Encode(stamped)[..0] == [];
      if !isOpen {
        return Err(NotOpen), 0;
      }
      var bytes := EncodeRecord(stamped);
      var ok;
      ok, written := WriteAll(bytes);
      if old(Clean()) {
        AtEnd(old(file), bytes[..written]);
      }
      if !ok {
        return Err(IoError), written;
      }
      if syncAlways {
        var synced: bool := *;
        if !synced {
          return Err(IoError), written;
        }
      }
      assert bytes[..written] == bytes;
      positions := positions[next := cursor - |bytes|];
      answer := Ok(next);
      next := Cast64(next + 1);
      if old(Clean()) && Writable(record) {
        StampedWritable(record, old(next));
        StaysClean(old(records), stamped);
        records := records + [stamped];
      }
    }
  }

  // What becomes of a log that is opened again: CreateQueueOnShard recovers it, and the next record produced is
  // appended. Its write position is 0, so the log grows exactly if recovery kept nothing. Otherwise the record
  // lands on the first one, and the offset of that one now reads as the new record.
  method ReopenAndAppend(log: SegmentLog, record: Record, ghost records: seq<Record>)
    returns (answer: Result<u64, LogError>, first: Result<Record, LogError>)
    requires log.file[..Rescan(log.file).end] == FileOf(records) && Rescan(log.file) == IndexOf(records)
    requires AllWritable(records) && Numbered(records) && |records| < 0x1_0000_0000_0000_0000 && Writable(record)
    modifies log
    ensures answer.Ok? ==> answer.value == |records|
    ensures answer.Ok? ==>
      (log.file == FileOf(records) + Encode(Stamped(record, |records|)) <==> records == [])
    ensures answer.Ok? ==> first == Ok(Filled(Stamped(record, |records|)))
  {
    hide Encode, Overwrite, IndexOf, FileOf, Writable, Rescan, Filled, Cast64, Numbered;
    log.Open();
    var failed := log.Recover({}, false);
    NextNumber(records);
    SmallOffset(|records|);
    var written;
    answer, written := log.Append(record);
    if answer.Ok? {
      StampedWritable(record, |records|);
      ghost var bytes := Encode(Stamped(record, |records|));
      assert bytes[..written] == bytes;
      EncodingNotEmpty(Stamped(record, |records|));
      FilesEmpty(records);
      ExtendsOnlyAtEnd(FileOf(records), 0, bytes);
      FirstPosition(records);
      OverwrittenReads(FileOf(records), Stamped(record, |records|));
    }
    first := log.Read(0, {});
  }

  // ---------------------------------------------------------------------------------------------
  // What the methods rely on
  // ---------------------------------------------------------------------------------------------

  function Plus(n: nat, size: Option<nat>): Option<nat> {
    match size
    case None => None
    case Some(m) => Some(n + m)
  }

  // The two size fields of a pair, as one read of 8 bytes.
  lemma {:induction false} PreadSizes(file: seq<byte>, position: nat, at: nat)
    ensures
      var data, sizes := Suffix(file, position), Pread(file, position + at, 8);
      if at + 8 > |data| then |sizes| < 8
      else |sizes| == 8 && Field32(sizes, 0) == Field32(data, at) && Field32(sizes, 4) == Field32(data, at + 4)
  {
    hide Number;
    var data, sizes := Suffix(file, position), Pread(file, position + at, 8);
    if at + 8 <= |data| {
      assert sizes[0..4] == data[at..at + 4];
      assert sizes[4..8] == data[at + 4..at + 8];
    }
  }

  lemma IndexedIs(position: nat, next: u64, positions: map<u64, nat>, offset: u64, size: nat)
    ensures Indexed(Index(position, next, positions), offset, size)
            == Index(position + size, Cast64(offset + 1), positions[offset := position])
  {
  }

  lemma {:induction false} NumberedPosition(records: seq<Record>, k: nat)
    requires Numbered(records) && k < |records| <= 0x1_0000_0000_0000_0000
    ensures Cast64(k) == k && k in IndexOf(records).positions
    ensures IndexOf(records).positions[k] == |FileOf(records[..k])|
  {
    hide IndexOf, FileOf;
    IndexPositions(records, k);
  }

  lemma OverwriteNothing(file: seq<byte>, at: nat)
    ensures Overwrite(file, at, []) == file
  {
  }

  lemma {:induction false} AtEnd(file: seq<byte>, bytes: seq<byte>)
    ensures Overwrite(file, |file|, bytes) == file + bytes
  {
    if bytes != [] {
      ExtendsOnlyAtEnd(file, |file|, bytes);
    } else {
      assert file + bytes == file;
    }
  }

  lemma {:induction false} StaysClean(records: seq<Record>, r: Record)
    requires AllWritable(records) && Numbered(records) && Writable(r)
    requires r.header.offset == IndexOf(records).next
    ensures AllWritable(records + [r]) && Numbered(records + [r])
    ensures FileOf(records + [r]) == FileOf(records) + Encode(r)
    ensures IndexOf(records + [r]) == Indexed(IndexOf(records), r.header.offset, |Encode(r)|)
  {
    hide Encode, FileOf, Writable;
    FilesAppend(records, r);
    NextNumber(records);
  }

  lemma {:induction false} NextNumber(records: seq<Record>)
    requires Numbered(records)
    ensures IndexOf(records).next == Cast64(|records|)
  {
    hide Encode, FileOf, Cast64;
    if records != [] {
      CastNext(|records| - 1);
    } else {
      CastZero();
    }
  }

  // Reads from lo up to hi, and the one after.
  lemma FailsSplit(fails: set<nat>, lo: nat, hi: nat)
    requires lo <= hi
    ensures FailsIn(fails, lo, hi + 1) <==> FailsIn(fails, lo, hi) || hi in fails
  {
  }

  lemma {:induction false} NothingScanned(fails: set<nat>)
    ensures RescanWith([], fails).index == EMPTY
  {
    hide NextRecord, FailsIn;
    NothingInNothing();
  }

  lemma CastZero()
    ensures Cast64(0) == 0
  {
  }

  lemma CastNext(n: nat)
    ensures Cast64(Cast64(n) + 1) == Cast64(n + 1)
  {
  }

  lemma {:induction false} StampedWritable(r: Record, offset: u64)
    ensures Writable(Stamped(r, offset)) <==> Writable(r)
  {
    hide KvFits;
  }

  lemma SmallOffset(k: nat)
    requires k < 0x1_0000_0000_0000_0000
    ensures Cast64(k) == k
  {
  }

  lemma {:induction false} EncodingNotEmpty(r: Record)
    ensures Encode(r) != []
  {
    hide Encode;
    EncodingHasHeader(r);
  }

  lemma {:induction false} FilesEmpty(records: seq<Record>)
    ensures FileOf(records) == [] <==> records == []
  {
    hide Encode;
    if records != [] {
      EncodingNotEmpty(records[|records| - 1]);
    }
  }

  // The first record of a numbered log is indexed at position 0.
  lemma {:induction false} FirstPosition(records: seq<Record>)
    requires Numbered(records) && |records| < 0x1_0000_0000_0000_0000
    ensures records != [] ==> 0 in IndexOf(records).positions && IndexOf(records).positions[0] == 0
  {
    hide IndexOf, FileOf, Cast64;
    if records != [] {
      NumberedPosition(records, 0);
      assert FileOf(records[..0]) == [] by {
        FilesEmpty(records[..0]);
      }
    }
  }

  // What was written over the start of a file is read there.
  lemma {:induction false} OverwrittenReads(file: seq<byte>, r: Record)
    requires Writable(r)
    ensures ReadAt(Overwrite(file, 0, Encode(r)), 0) == Ok(Filled(r))
  {
    hide Encode, RecordSize, Decode, Filled, Fits;
    EncodingHasHeader(r);
    var rest := Suffix(file, |Encode(r)|);
    assert Overwrite(file, 0, Encode(r)) == Encode(r) + rest;
    PrescanExact(r, rest);
    DecodesWhatFits(r);
    assert (Encode(r) + rest)[..|Encode(r)|] == Encode(r);
    assert Suffix(Encode(r) + rest, 0) == Encode(r) + rest;
  }
}
