/** What the receiver of an ordered read gets, and when the read can stall. */
module Receiver {
  import opened Values
  import opened Decoding
  import opened ReadStreams
  import opened Delivery
  import opened OrderedDelivery
  import opened ReadPipeline

  /** The reader's task is over and nobody else holds a sender: `recv` returns `None`. */
  predicate AtEnd(p: Pipeline) {
    && p.channel == [] && p.q.queue == [] && !IsBusy(p)
    && (p.killed || (p.sys.reader.state.Terminated? && p.pendingError.None?))
  }

  lemma {:induction false} OkRowsPrefix(log: seq<Sent>, more: seq<Sent>)
    ensures OkRows(log) <= OkRows(log + more)
    decreases |log|
  {
    if log != [] && log[0].Ok? {
      assert (log + more)[1..] == log[1..] + more;
      OkRowsPrefix(log[1..], more);
    }
  }

  /** At every moment what was received before any error is a prefix of the rows. */
  lemma {:induction false} ReceivesPrefix(p: Pipeline, start: int, setup: Setup)
    requires Invariant(p, start, setup)
    ensures OkRows(p.received) <= setup.src.rows[start..]
  {
    OkRowsPrefix(p.received, p.channel);
  }

  /** A read that ends without an error, and that the receiver did not give up, has delivered every row. */
  lemma {:induction false} EndMeansAllRows(p: Pipeline, start: int, setup: Setup)
    requires Invariant(p, start, setup) && AtEnd(p)
    requires NoErr(p.received) && !p.schemaError && !p.aborted
    requires p.sys.reader.state != Terminated(SwitchToReadSession)
    ensures OkRows(p.received) == setup.src.rows[start..]
  {
    var jobs := Jobs(p);
    assert Log(p) == p.received;
    assert p.sys.ended;
    assert jobs[..|jobs|] == jobs;
    assert OkRows(p.received) + [] == OkRows(p.received);
  }

  /** Ordered delivery over every run of every participant, from a stream's offset. */
  lemma {:induction false} StreamReadDelivers(offset: int, metadata: Option<Bytes>, check: Option<FirstPageCheck>,
                                              steps: seq<Step>,
                                              setup: Setup)
    requires 0 <= offset <= |setup.src.rows|
    requires IsPipelineRun(StreamRead(offset, metadata, check), steps, setup)
    ensures
      var p := PipelineAfter(StreamRead(offset, metadata, check), steps, setup);
      && OkRows(p.received) <= setup.src.rows[offset..]
      && (AtEnd(p) && NoErr(p.received) && !p.schemaError && !p.aborted
          && p.sys.reader.state != Terminated(SwitchToReadSession)
          ==> OkRows(p.received) == setup.src.rows[offset..])
  {
    var p := PipelineAfter(StreamRead(offset, metadata, check), steps, setup);
    StreamReadStarts(offset, metadata, check, setup);
    RunKeepsInvariant(StreamRead(offset, metadata, check), steps, offset, setup);
    ReceivesPrefix(p, offset, setup);
    if AtEnd(p) && NoErr(p.received) && !p.schemaError && !p.aborted
       && p.sys.reader.state != Terminated(SwitchToReadSession) {
      EndMeansAllRows(p, offset, setup);
    }
  }

  /** A query's first page and the stream that continues it never switch. */
  lemma {:induction false} NeverSwitches(p: Pipeline, steps: seq<Step>, setup: Setup)
    requires IsPipelineRun(p, steps, setup)
    requires p.sys.reader.check.None? && p.sys.reader.state != Terminated(SwitchToReadSession)
    ensures PipelineAfter(p, steps, setup).sys.reader.state != Terminated(SwitchToReadSession)
    decreases |steps|
  {
    if steps != [] {
      var after := PipelineNext(p, steps[0], setup);
      if steps[0].ReaderStep? {
        ReaderStepJobs(p, steps[0].e, setup);
        NoCheckNoSwitch(p.sys.reader, steps[0].e, setup.config);
      }
      NeverSwitches(after, steps[1..], setup);
    }
  }

  lemma {:induction false} NoCheckNoSwitch(r: Reader, e: Event, config: Config)
    requires Enabled(r.state, e) && r.check.None?
    ensures Next(r, e, config).check.None? && Next(r, e, config).state != Terminated(SwitchToReadSession)
  {
  }

  /** The first page of a query and the rows after it arrive as one sequence. */
  lemma {:induction false} QueryReadDelivers(page: DecodeJob, hasMore: bool, steps: seq<Step>, setup: Setup)
    requires HonestPage(page, hasMore, setup.src) && setup.capacity > 0
    requires IsPipelineRun(QueryRead(page, hasMore), steps, setup)
    ensures
      var p := PipelineAfter(QueryRead(page, hasMore), steps, setup);
      && OkRows(p.received) <= setup.src.rows
      && (AtEnd(p) && NoErr(p.received) && !p.schemaError && !p.aborted ==> OkRows(p.received) == setup.src.rows)
  {
    var p := PipelineAfter(QueryRead(page, hasMore), steps, setup);
    QueryReadStarts(page, hasMore, setup);
    RunKeepsInvariant(QueryRead(page, hasMore), steps, 0, setup);
    NeverSwitches(QueryRead(page, hasMore), steps, setup);
    ReceivesPrefix(p, 0, setup);
    assert setup.src.rows[0..] == setup.src.rows;
    if AtEnd(p) && NoErr(p.received) && !p.schemaError && !p.aborted {
      EndMeansAllRows(p, 0, setup);
    }
  }

  // --- Stalling ---

  /** A step the pipeline takes by itself. */
  predicate IsInternal(s: Step) {
    s.DeliverError? || s.Spawn? || s.Start? || s.Drain? || s.Receive?
  }

  /** Nobody can move, although the receiver waits for batches: no slot is free for the reader either. */
  ghost predicate IsStalled(p: Pipeline, setup: Setup) {
    && !HasSlot(p, setup)
    && forall s: Step | IsInternal(s) :: !May(p, s, setup)
  }

  /** The drainer waits for a slot to send the second batch of a payload or a later one, and every slot is
      held by a job that waits for the drainer. */
  predicate IsDeadlocked(p: Pipeline, setup: Setup) {
    && p.channel == [] && !p.aborted
    && IsBusy(p) && p.drainers[0].phase.Blocked?
    && |p.q.queue| == setup.capacity
  }

  lemma {:induction false} SlotsOf(p: Pipeline)
    requires OneDrainer(p)
    ensures SlotsTaken(p) == |p.channel| + |p.q.queue| + if p.drainers != [] && HoldsSlot(p.drainers[0]) then 1 else 0
  {
    if p.drainers != [] {
      HeldByOne(p.drainers[0]);
      assert p.drainers == [p.drainers[0]];
    }
  }

  lemma {:induction false} StalledIsDeadlocked(p: Pipeline, setup: Setup)
    requires OneDrainer(p) && FitsChannel(p, setup) && setup.capacity > 0
    requires IsStalled(p, setup)
    ensures IsDeadlocked(p, setup)
  {
    SlotsOf(p);
    assert !May(p, Spawn, setup) && !May(p, Start, setup) && !May(p, Drain(0), setup) && !May(p, Receive, setup);
  }

  /** The ordered read stalls if and only if it is deadlocked that way: no wake-up is lost. */
  lemma {:induction false} StalledIff(p: Pipeline, start: int, setup: Setup)
    requires Invariant(p, start, setup) && setup.capacity > 0
    ensures IsStalled(p, setup) <==> IsDeadlocked(p, setup)
  {
    if IsStalled(p, setup) {
      StalledIsDeadlocked(p, setup);
    }
    if IsDeadlocked(p, setup) {
      SlotsOf(p);
      forall s: Step | IsInternal(s) ensures !May(p, s, setup) {
      }
    }
  }

  /** One batch to a payload that decodes at most, as the decoder allocates for (decode.rs:42). */
  ghost predicate SingleBatches(decoder: Decoder) {
    forall payload: Bytes, schema: Bytes ::
      IsIntact(decoder(payload, schema)) ==> |Readable(decoder(payload, schema))| <= 1
  }

  predicate SendsAtMostOne(p: Pipeline) {
    IsBusy(p) ==>
      match p.drainers[0].phase
      case First(batches) => |batches| <= 1
      case More(batches) => batches == []
      case Blocked(_) => false
      case _ => true
  }

  /** With single-batch payloads no run of the ordered read ever stalls. */
  lemma {:induction false} SingleBatchesNeverStall(p: Pipeline, steps: seq<Step>, start: int, setup: Setup)
    requires Invariant(p, start, setup) && SendsAtMostOne(p) && SingleBatches(setup.src.decoder) && setup.capacity > 0
    requires IsPipelineRun(p, steps, setup)
    ensures !IsStalled(PipelineAfter(p, steps, setup), setup)
    decreases |steps|
  {
    if steps == [] {
      StalledIff(p, start, setup);
    } else {
      StepKeepsInvariant(p, steps[0], start, setup);
      StepSendsAtMostOne(p, steps[0], setup);
      SingleBatchesNeverStall(PipelineNext(p, steps[0], setup), steps[1..], start, setup);
    }
  }

  lemma {:induction false} StepSendsAtMostOne(p: Pipeline, s: Step, setup: Setup)
    requires OneDrainer(p) && SendsAtMostOne(p) && SingleBatches(setup.src.decoder) && May(p, s, setup)
    ensures SendsAtMostOne(PipelineNext(p, s, setup))
  {
    match s
    case ReaderStep(e) => ReaderStepJobs(p, e, setup);
    case Drain(i) =>
      DrainerOneDrainer(p, i, setup);
      if p.drainers[0].Fetching? {
        FetcherStep(p, setup);
      } else {
        RunnerStep(p, setup);
        var job := p.drainers[0].job;
        assert IsIntact(setup.src.decoder(job.payload, job.metadata)) ==>
                 |Readable(setup.src.decoder(job.payload, job.metadata))| <= 1;
      }
    case _ => OtherStep(p, s, setup);
  }
}
