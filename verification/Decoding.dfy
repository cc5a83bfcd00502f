/** Decode jobs of the read pipeline (decode.rs): counting the rows of a payload against the row count the
    server reported for it. Arrow itself is an oracle: a payload under a schema is a list of items. */
module Decoding {
  import opened Values

  type Bytes = seq<bv8>

  datatype Row = Row(cells: seq<Value>)

  type RowBatch = seq<Row>

  const MAX_I64: int := 0x7fff_ffff_ffff_ffff
  const MIN_I64: int := -0x8000_0000_0000_0000

  datatype ReadError = Grpc | Protocol | Arrow

  /** What the Arrow stream reader returns, call by call. */
  datatype Item = Ready(batch: RowBatch) | Waiting | Corrupt

  type Decoder = (Bytes, Bytes) -> seq<Item>

  datatype Decoded = Batches(batches: seq<RowBatch>) | Failed(error: ReadError)

  /** The rows of some batches, in order. */
  function RowsOf(batches: seq<RowBatch>): seq<Row> {
    if batches == [] then [] else batches[0] + RowsOf(batches[1..])
  }

  /** The batches up to the first item that is none. */
  function Readable(items: seq<Item>): seq<RowBatch> {
    if items == [] || !items[0].Ready? then [] else [items[0].batch] + Readable(items[1..])
  }

  /** Reading stops at the end or at a `Waiting`, not at a corrupt item. */
  predicate IsIntact(items: seq<Item>) {
    items == [] || items[0].Waiting? || (items[0].Ready? && IsIntact(items[1..]))
  }

  /** A payload decodes when it is intact and holds as many rows as were reported. */
  function DecodeResult(items: seq<Item>, expectedRowCount: int): Decoded {
    var actual := |RowsOf(Readable(items))|;
    if actual > MAX_I64 then Failed(Protocol)
    else if !IsIntact(items) then Failed(Arrow)
    else if actual != expectedRowCount then Failed(Protocol)
    else Batches(Readable(items))
  }

  lemma {:induction false} RowsOfConcat(xs: seq<RowBatch>, ys: seq<RowBatch>)
    ensures RowsOf(xs + ys) == RowsOf(xs) + RowsOf(ys)
  {
    if xs == [] {
      assert xs + ys == ys;
    } else {
      assert (xs + ys)[1..] == xs[1..] + ys;
      RowsOfConcat(xs[1..], ys);
    }
  }

  /** `batches` have been read and `rest` has not. */
  ghost predicate ReadSoFar(items: seq<Item>, batches: seq<RowBatch>, actualRows: int, rest: seq<Item>) {
    && Readable(items) == batches + Readable(rest)
    && IsIntact(items) == IsIntact(rest)
    && actualRows == |RowsOf(batches)| <= MAX_I64
  }

  lemma {:induction false} RowsOfNext(batches: seq<RowBatch>, batch: RowBatch)
    ensures RowsOf(batches + [batch]) == RowsOf(batches) + batch
  {
    RowsOfConcat(batches, [batch]);
    assert [batch][1..] == [];
    assert RowsOf([batch]) == batch + RowsOf([batch][1..]);
  }

  lemma {:induction false} ReadBatch(items: seq<Item>, batches: seq<RowBatch>, actualRows: int, batch: RowBatch,
                                     rest: seq<Item>)
    requires ReadSoFar(items, batches, actualRows, [Ready(batch)] + rest)
    ensures actualRows + |batch| > MAX_I64 ==> |RowsOf(Readable(items))| > MAX_I64
    ensures actualRows + |batch| <= MAX_I64 ==> ReadSoFar(items, batches + [batch], actualRows + |batch|, rest)
  {
    assert ([Ready(batch)] + rest)[1..] == rest;
    RowsOfNext(batches, batch);
    RowsOfConcat(batches + [batch], Readable(rest));
    assert batches + ([batch] + Readable(rest)) == (batches + [batch]) + Readable(rest);
  }

  lemma {:induction false} ReadNext(items: seq<Item>, batches: seq<RowBatch>, actualRows: int, rest: seq<Item>)
    requires ReadSoFar(items, batches, actualRows, rest) && rest != []
    ensures rest[0].Ready? && actualRows + |rest[0].batch| > MAX_I64 ==> |RowsOf(Readable(items))| > MAX_I64
    ensures rest[0].Ready? && actualRows + |rest[0].batch| <= MAX_I64 ==>
              ReadSoFar(items, batches + [rest[0].batch], actualRows + |rest[0].batch|, rest[1..])
    ensures !rest[0].Ready? ==> Readable(items) == batches && IsIntact(items) == rest[0].Waiting?
  {
    if rest[0].Ready? {
      assert rest == [Ready(rest[0].batch)] + rest[1..];
      ReadBatch(items, batches, actualRows, rest[0].batch, rest[1..]);
    } else {
      assert batches + [] == batches;
    }
  }

  /** `decode_arrow_record_batches`. */
  method DecodeArrowRecordBatches(items: seq<Item>, expectedRowCount: int) returns (r: Decoded)
    ensures r == DecodeResult(items, expectedRowCount)
  {
    var batches: seq<RowBatch> := [];
    var actualRows: int := 0;
    var rest := items;
    while rest != []
      invariant ReadSoFar(items, batches, actualRows, rest)
    {
      ReadNext(items, batches, actualRows, rest);
      match rest[0] {
        case Ready(batch) =>
          if actualRows + |batch| > MAX_I64 {
            return Failed(Protocol);
          }
          actualRows := actualRows + |batch|;
          batches := batches + [batch];
        case Waiting => break;
        case Corrupt => return Failed(Arrow);
      }
      rest := rest[1..];
    }
    assert batches + [] == batches;
    return if actualRows != expectedRowCount then Failed(Protocol) else Batches(batches);
  }

  /** The rows a payload holds, when it decodes at all. */
  function Content(items: seq<Item>): seq<Row> {
    RowsOf(Readable(items))
  }

  // --- Which payloads decode ---

  /** No corrupt item comes before the reader would wait. */
  ghost predicate NoneCorrupt(items: seq<Item>) {
    forall i | 0 <= i < |items| && items[i].Corrupt? :: exists j | 0 <= j < i :: items[j].Waiting?
  }

  /** The first `n` items are batches and no further one follows them. */
  ghost predicate BatchesEnd(items: seq<Item>, n: nat) {
    && n <= |items| && (forall i | 0 <= i < n :: items[i].Ready?)
    && (n < |items| ==> !items[n].Ready?)
  }

  lemma {:induction false} IntactIff(items: seq<Item>)
    ensures IsIntact(items) <==> NoneCorrupt(items)
  {
    if items != [] && items[0].Ready? {
      IntactIff(items[1..]);
      if NoneCorrupt(items) {
        forall i | 0 <= i < |items[1..]| && items[1..][i].Corrupt?
          ensures exists j | 0 <= j < i :: items[1..][j].Waiting?
        {
          var j :| 0 <= j < i + 1 && items[j].Waiting?;
          assert items[1..][j - 1].Waiting?;
        }
      }
      if NoneCorrupt(items[1..]) {
        forall i | 0 <= i < |items| && items[i].Corrupt? ensures exists j | 0 <= j < i :: items[j].Waiting? {
          assert items[1..][i - 1].Corrupt?;
          var j :| 0 <= j < i - 1 && items[1..][j].Waiting?;
          assert items[j + 1].Waiting?;
        }
      }
    }
  }

  /** What can be read are the batches before the first other item, in order. */
  lemma {:induction false} ReadableAre(items: seq<Item>, n: nat)
    requires BatchesEnd(items, n)
    ensures |Readable(items)| == n && forall i | 0 <= i < n :: Readable(items)[i] == items[i].batch
    decreases n
  {
    if n > 0 {
      ReadableAre(items[1..], n - 1);
    }
  }

  /** A payload decodes if and only if no item is corrupt before the end and its batches hold as many rows as were
      reported; too many rows to count or a wrong number of them violate the protocol, a corrupt item is Arrow's
      error. */
  lemma {:induction false} DecodeResultIff(items: seq<Item>, expectedRowCount: int)
    ensures DecodeResult(items, expectedRowCount).Batches?
       <==> NoneCorrupt(items) && |Content(items)| == expectedRowCount <= MAX_I64
    ensures DecodeResult(items, expectedRowCount) == Failed(Arrow)
       <==> !NoneCorrupt(items) && |Content(items)| <= MAX_I64
    ensures DecodeResult(items, expectedRowCount) == Failed(Protocol)
       <==> |Content(items)| > MAX_I64 || (NoneCorrupt(items) && |Content(items)| != expectedRowCount)
    ensures DecodeResult(items, expectedRowCount).Batches? ==>
              DecodeResult(items, expectedRowCount).batches == Readable(items)
  {
    IntactIff(items);
  }

  /** The usual payload, a single batch and the row count the server reported. */
  lemma {:induction false} SingleBatchDecodes(batch: RowBatch)
    requires |batch| <= MAX_I64
    ensures DecodeResult([Ready(batch)], |batch|) == Batches([batch])
  {
    var items := [Ready(batch)];
    ReadableAre(items, 1);
    assert Readable(items) == [batch];
    RowsOfNext([], batch);
    DecodeResultIff(items, |batch|);
  }

  datatype Payload = Empty | Rows(bytes: Bytes) | CountMismatch

  /** `validate_non_empty_arrow_bytes`: without a payload the server must report no rows. */
  function ValidatedBytes(serialized: Option<Bytes>, expectedRowCount: int): (r: Payload)
    ensures r.Rows? <==> serialized.Some? && serialized.value != []
    ensures r.Rows? ==> serialized == Some(r.bytes)
    ensures r.Empty? ==> expectedRowCount == 0
  {
    if serialized.Some? && serialized.value != [] then Rows(serialized.value)
    else if expectedRowCount == 0 then Empty
    else CountMismatch
  }

  // --- Jobs ---

  datatype DecodeJob = DecodeJob(payload: Bytes, expectedRowCount: int, metadata: Bytes)

  function JobResult(job: DecodeJob, decoder: Decoder): Decoded {
    DecodeResult(decoder(job.payload, job.metadata), job.expectedRowCount)
  }

  predicate Decodes(job: DecodeJob, decoder: Decoder) {
    JobResult(job, decoder).Batches?
  }

  function JobRows(job: DecodeJob, decoder: Decoder): seq<Row>
    requires Decodes(job, decoder)
  {
    RowsOf(JobResult(job, decoder).batches)
  }

  predicate AllDecode(jobs: seq<DecodeJob>, decoder: Decoder) {
    forall job | job in jobs :: Decodes(job, decoder)
  }

  /** The rows of the jobs before the first one that fails. */
  function SoundRows(jobs: seq<DecodeJob>, decoder: Decoder): seq<Row> {
    if jobs == [] || !Decodes(jobs[0], decoder) then []
    else JobRows(jobs[0], decoder) + SoundRows(jobs[1..], decoder)
  }

  lemma {:induction false} SoundRowsConcat(jobs: seq<DecodeJob>, more: seq<DecodeJob>, decoder: Decoder)
    ensures SoundRows(jobs + more, decoder)
         == SoundRows(jobs, decoder) + if AllDecode(jobs, decoder) then SoundRows(more, decoder) else []
    decreases |jobs|
  {
    if jobs == [] {
      assert jobs + more == more;
    } else if Decodes(jobs[0], decoder) {
      assert (jobs + more)[1..] == jobs[1..] + more;
      SoundRowsConcat(jobs[1..], more, decoder);
      assert AllDecode(jobs, decoder) == AllDecode(jobs[1..], decoder) by { assert jobs == [jobs[0]] + jobs[1..]; }
    }
  }

  lemma {:induction false} SoundRowsNext(jobs: seq<DecodeJob>, job: DecodeJob, decoder: Decoder)
    ensures SoundRows(jobs + [job], decoder)
         == SoundRows(jobs, decoder) + if AllDecode(jobs + [job], decoder) then JobRows(job, decoder) else []
  {
    SoundRowsConcat(jobs, [job], decoder);
    assert SoundRows([job][1..], decoder) == [];
    assert AllDecode(jobs + [job], decoder) == (AllDecode(jobs, decoder) && Decodes(job, decoder));
  }

  /** A job decodes if and only if its payload is not corrupt and holds as many rows as were reported. */
  lemma {:induction false} DecodesIff(job: DecodeJob, decoder: Decoder)
    ensures
      var items := decoder(job.payload, job.metadata);
      Decodes(job, decoder) <==> NoneCorrupt(items) && |Content(items)| == job.expectedRowCount <= MAX_I64
  {
    DecodeResultIff(decoder(job.payload, job.metadata), job.expectedRowCount);
  }

  /** A job that decodes was reported exactly: its rows are all the rows of its payload. */
  lemma {:induction false} DecodedExactly(job: DecodeJob, decoder: Decoder)
    requires Decodes(job, decoder)
    ensures JobRows(job, decoder) == Content(decoder(job.payload, job.metadata))
    ensures |JobRows(job, decoder)| == job.expectedRowCount <= MAX_I64
  {
  }
}
