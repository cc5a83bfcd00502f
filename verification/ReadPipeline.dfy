/** Every run of an ordered read: the invariant of the pipeline and what follows from it for the receiver. */
module ReadPipeline {
  import opened Values
  import opened Decoding
  import opened ReadStreams
  import opened StreamRuns
  import opened ExactlyOnce
  import opened DecodeQueues
  import opened Delivery
  import opened OrderedDelivery
  import opened ReaderEffects

  // --- Cancellation is always accounted for ---

  predicate HasCause(p: Pipeline) {
    p.aborted || !NoErr(Log(p)) || p.pendingError.Some? || p.schemaError || IsReporting(p.drainers)
  }

  /** Cancellation is seen by everyone for a reason: an error on its way to the receiver, or the receiver
      itself; and a reader that stops without it has reached the end or gives way to a read session. */
  predicate IsAccounted(p: Pipeline) {
    && (p.killed ==> p.aborted)
    && (p.cancelled <==> HasCause(p))
    && (p.sys.reader.state.Terminated? && !p.cancelled ==>
          p.sys.ended || p.sys.reader.state == Terminated(SwitchToReadSession))
  }

  lemma {:induction false} ReaderAccounted(p: Pipeline, e: Event, setup: Setup)
    requires IsAccounted(p) && ReaderMay(p, e, setup)
    ensures IsAccounted(PipelineNext(p, ReaderStep(e), setup))
  {
    var r, after := p.sys.reader, PipelineNext(p, ReaderStep(e), setup);
    ReaderStepJobs(p, e, setup);
    FlaggedBy(p.(sys := SystemNext(p.sys, e, setup.config, setup.src)), NewActions(r, e, setup.config));
    ActionsOf(r, e, setup.config);
    assert Log(after) == Log(p);
    if after.sys.reader.state.Terminated? {
      WhyItStops(r, e, setup.config);
    }
  }

  lemma {:induction false} DrainerAccounted(p: Pipeline, i: nat, setup: Setup)
    requires IsAccounted(p) && OneDrainer(p) && i < |p.drainers|
    ensures IsAccounted(DrainerNext(p, i, setup))
  {
    DrainerOneDrainer(p, i, setup);
    if p.drainers[0].Fetching? {
      FetcherStep(p, setup);
      assert Log(DrainerNext(p, 0, setup)) == Log(p);
    } else {
      RunnerLog(p, setup);
      RunnerStep(p, setup);
      assert Log(p) + [] == Log(p);
      if RunnerSends(p.drainers[0].phase) != [] {
        OkRowsNext(Log(p), RunnerSends(p.drainers[0].phase)[0]);
      }
    }
  }

  lemma {:induction false} NextAccounted(p: Pipeline, s: Step, setup: Setup)
    requires IsAccounted(p) && OneDrainer(p) && May(p, s, setup)
    ensures IsAccounted(PipelineNext(p, s, setup))
  {
    match s
    case ReaderStep(e) => ReaderAccounted(p, e, setup);
    case Drain(i) => DrainerAccounted(p, i, setup);
    case DeliverError =>
      assert p.received + (p.channel + [Err(p.pendingError.value)]) == Log(p) + [Err(p.pendingError.value)];
      OkRowsNext(Log(p), Err(p.pendingError.value));
    case Receive =>
      assert p.received + [p.channel[0]] + p.channel[1..] == Log(p);
    case _ =>
  }

  // --- Slots ---

  /** No more is sent or queued than the channel has slots for. */
  predicate FitsChannel(p: Pipeline, setup: Setup) {
    SlotsTaken(p) <= setup.capacity
  }

  lemma {:induction false} HeldByOne(d: Drainer)
    ensures SlotsHeld([d]) == if HoldsSlot(d) then 1 else 0
  {
    assert [d][1..] == [];
  }

  lemma {:induction false} HeldByMore(ds: seq<Drainer>, d: Drainer)
    ensures SlotsHeld(ds + [d]) == SlotsHeld(ds) + if HoldsSlot(d) then 1 else 0
  {
    if ds == [] {
      assert ds + [d] == [d];
      HeldByOne(d);
    } else {
      assert (ds + [d])[1..] == ds[1..] + [d];
      HeldByMore(ds[1..], d);
    }
  }

  lemma {:induction false} DrainerFits(p: Pipeline, i: nat, setup: Setup)
    requires OneDrainer(p) && FitsChannel(p, setup) && i < |p.drainers| && DrainerMay(p, p.drainers[i], setup)
    ensures FitsChannel(DrainerNext(p, i, setup), setup)
  {
    DrainerOneDrainer(p, i, setup);
    HeldByOne(p.drainers[0]);
    if p.drainers[0].Fetching? {
      FetcherStep(p, setup);
      HeldByOne(Running(if p.q.queue == [] then DecodeJob([], 0, []) else p.q.queue[0], Fetched));
    } else {
      RunnerStep(p, setup);
      var after := DrainerNext(p, 0, setup);
      HeldByOne(after.drainers[0]);
    }
  }

  lemma {:induction false} NextFits(p: Pipeline, s: Step, setup: Setup)
    requires OneDrainer(p) && FitsChannel(p, setup) && May(p, s, setup)
    ensures FitsChannel(PipelineNext(p, s, setup), setup)
  {
    match s
    case ReaderStep(e) =>
      ReaderStepJobs(p, e, setup);
      AtMostOnePush(p.sys.reader, e, setup.config);
    case Drain(i) => DrainerFits(p, i, setup);
    case Start => HeldByMore(p.drainers, Fetching);
    case _ =>
  }

  // --- Delivery over all steps ---

  lemma {:induction false} MoreDelivers(jobs: seq<DecodeJob>, more: seq<DecodeJob>, started: int,
                                        drainers: seq<Drainer>,
                                        log: seq<Sent>, cancelled: bool, cancelled': bool, decoder: Decoder)
    requires Delivers(jobs, started, drainers, log, cancelled, decoder) && (cancelled ==> cancelled')
    ensures Delivers(jobs + more, started, drainers, log, cancelled', decoder)
  {
    var n := DecidedCount(started, drainers);
    assert (jobs + more)[..n] == jobs[..n];
    SoundRowsConcat(jobs, more, decoder);
  }

  lemma {:induction false} ErrorDelivers(jobs: seq<DecodeJob>, started: int, drainers: seq<Drainer>, log: seq<Sent>,
                                         error: ReadError,
                                         cancelled: bool, decoder: Decoder)
    requires Delivers(jobs, started, drainers, log, cancelled, decoder)
    ensures Delivers(jobs, started, drainers, log + [Err(error)], cancelled, decoder)
  {
    OkRowsNext(log, Err(error));
    assert OkRows(log) + [] == OkRows(log);
  }

  lemma {:induction false} ReaderDelivers(p: Pipeline, e: Event, setup: Setup)
    requires ReaderMay(p, e, setup) && IsDelivered(p, setup.src.decoder)
    ensures IsDelivered(PipelineNext(p, ReaderStep(e), setup), setup.src.decoder)
  {
    var after, decoder := PipelineNext(p, ReaderStep(e), setup), setup.src.decoder;
    var jobs, n, actions := Jobs(p), StartedCount(p), NewActions(p.sys.reader, e, setup.config);
    ReaderStepJobs(p, e, setup);
    FlaggedBy(p.(sys := SystemNext(p.sys, e, setup.config, setup.src)), actions);
    MoreDelivers(jobs, Pushed(actions), n, p.drainers, Log(p), p.cancelled, after.cancelled, decoder);
    AsDelivered(after, jobs + Pushed(actions), n, p.drainers, Log(p), after.cancelled, decoder);
  }

  lemma {:induction false} ErrorSendDelivers(p: Pipeline, setup: Setup)
    requires May(p, DeliverError, setup) && IsDelivered(p, setup.src.decoder)
    ensures IsDelivered(PipelineNext(p, DeliverError, setup), setup.src.decoder)
  {
    var after, decoder, error := PipelineNext(p, DeliverError, setup), setup.src.decoder, p.pendingError.value;
    assert p.received + (p.channel + [Err(error)]) == Log(p) + [Err(error)];
    ErrorDelivers(Jobs(p), StartedCount(p), p.drainers, Log(p), error, p.cancelled, decoder);
    AsDelivered(after, Jobs(p), StartedCount(p), p.drainers, if p.aborted then Log(p) else Log(p) + [Err(error)],
                p.cancelled, decoder);
  }

  lemma {:induction false} StartDelivers(p: Pipeline, setup: Setup)
    requires OneDrainer(p) && May(p, Start, setup) && IsDelivered(p, setup.src.decoder)
    ensures IsDelivered(PipelineNext(p, Start, setup), setup.src.decoder)
  {
    assert p.drainers == [];
    AsDelivered(PipelineNext(p, Start, setup), Jobs(p), StartedCount(p), [Fetching], Log(p), p.cancelled,
                setup.src.decoder);
  }

  lemma {:induction false} CancelDelivers(jobs: seq<DecodeJob>, started: int, drainers: seq<Drainer>, log: seq<Sent>,
                                          cancelled: bool, cancelled': bool, decoder: Decoder)
    requires Delivers(jobs, started, drainers, log, cancelled, decoder) && (cancelled ==> cancelled')
    ensures Delivers(jobs, started, drainers, log, cancelled', decoder)
  {
  }

  /** Steps that neither send anything nor touch the jobs or the drainer. */
  lemma {:induction false} OtherLog(p: Pipeline, s: Step, setup: Setup)
    requires May(p, s, setup) && (s.Spawn? || s.Receive? || s.Abort? || s.Kill?)
    ensures
      var after := PipelineNext(p, s, setup);
      Log(after) == Log(p) && (p.cancelled ==> after.cancelled)
  {
    if s.Receive? {
      assert p.received + [p.channel[0]] + p.channel[1..] == Log(p);
    }
  }

  lemma {:induction false} OtherDelivers(p: Pipeline, s: Step, setup: Setup)
    requires May(p, s, setup) && (s.Spawn? || s.Receive? || s.Abort? || s.Kill?) && IsDelivered(p, setup.src.decoder)
    ensures IsDelivered(PipelineNext(p, s, setup), setup.src.decoder)
  {
    var after := PipelineNext(p, s, setup);
    OtherStep(p, s, setup);
    OtherLog(p, s, setup);
    CancelDelivers(Jobs(p), StartedCount(p), p.drainers, Log(p), p.cancelled, after.cancelled, setup.src.decoder);
    AsDelivered(after, Jobs(p), StartedCount(p), p.drainers, Log(p), after.cancelled, setup.src.decoder);
  }

  // --- The invariant ---

  predicate Invariant(p: Pipeline, start: int, setup: Setup) {
    && OneDrainer(p) && InOrder(p) && IsAccounted(p) && FitsChannel(p, setup)
    && IsDelivered(p, setup.src.decoder) && InStep(p.sys, start, setup.src)
  }

  lemma {:induction false} NextSystem(p: Pipeline, s: Step, start: int, setup: Setup)
    requires OneDrainer(p) && May(p, s, setup) && InStep(p.sys, start, setup.src)
    ensures InStep(PipelineNext(p, s, setup).sys, start, setup.src)
  {
    if s.ReaderStep? {
      ReaderStepJobs(p, s.e, setup);
      NextInStep(p.sys, s.e, start, setup.config, setup.src);
    } else if s.Drain? {
      DrainerOneDrainer(p, s.i, setup);
      if p.drainers[0].Fetching? {
        FetcherStep(p, setup);
      } else {
        RunnerStep(p, setup);
      }
    } else {
      OtherStep(p, s, setup);
    }
  }

  /** Every step of every participant keeps the invariant. */
  lemma {:induction false} StepKeepsInvariant(p: Pipeline, s: Step, start: int, setup: Setup)
    requires Invariant(p, start, setup) && May(p, s, setup)
    ensures Invariant(PipelineNext(p, s, setup), start, setup)
  {
    NextOneDrainer(p, s, setup);
    NextInOrder(p, s, setup);
    NextAccounted(p, s, setup);
    NextFits(p, s, setup);
    NextSystem(p, s, start, setup);
    match s
    case ReaderStep(e) => ReaderDelivers(p, e, setup);
    case DeliverError => ErrorSendDelivers(p, setup);
    case Start => StartDelivers(p, setup);
    case Drain(i) => DrainerDelivers(p, i, setup);
    case _ => OtherDelivers(p, s, setup);
  }

  predicate IsPipelineRun(p: Pipeline, steps: seq<Step>, setup: Setup)
    decreases |steps|
  {
    steps == [] || (May(p, steps[0], setup) && IsPipelineRun(PipelineNext(p, steps[0], setup), steps[1..], setup))
  }

  function PipelineAfter(p: Pipeline, steps: seq<Step>, setup: Setup): Pipeline
    requires IsPipelineRun(p, steps, setup)
    decreases |steps|
  {
    if steps == [] then p else PipelineAfter(PipelineNext(p, steps[0], setup), steps[1..], setup)
  }

  lemma {:induction false} RunKeepsInvariant(p: Pipeline, steps: seq<Step>, start: int, setup: Setup)
    requires Invariant(p, start, setup) && IsPipelineRun(p, steps, setup)
    ensures Invariant(PipelineAfter(p, steps, setup), start, setup)
    decreases |steps|
  {
    if steps != [] {
      StepKeepsInvariant(p, steps[0], start, setup);
      RunKeepsInvariant(PipelineNext(p, steps[0], setup), steps[1..], start, setup);
    }
  }

  // --- Where reads start ---

  /** `read_stream`. */
  function StreamRead(offset: int, metadata: Option<Bytes>, check: Option<FirstPageCheck>): Pipeline {
    Pipeline(System(NewReader(offset, metadata, check), 0, false), false, None, QueueState([], false), 0, 0, [], [], [],
             false, false, false)
  }

  /** `read_query_stream` once the first page is enqueued: a reader tails the stream from the row after it,
      or there is none because the page was everything. */
  function QueryRead(page: DecodeJob, hasMore: bool): Pipeline {
    var reader := NewReader(page.expectedRowCount, Some(page.metadata), None).(done := [Push(page)]);
    Pipeline(System(if hasMore then reader else reader.(state := Terminated(Finished)), 0, !hasMore),
             false, None, PushTo(QueueState([], false), page), 1, 0, [], [], [], false, false, false)
  }

  lemma {:induction false} StreamReadStarts(offset: int, metadata: Option<Bytes>, check: Option<FirstPageCheck>,
                                            setup: Setup)
    requires 0 <= offset <= |setup.src.rows|
    ensures Invariant(StreamRead(offset, metadata, check), offset, setup)
  {
    var p := StreamRead(offset, metadata, check);
    assert Jobs(p) == [] && Log(p) == [];
    assert IsExact([], 0, [], [], setup.src.decoder);
    assert IsDelivered(p, setup.src.decoder);
  }

  /** The first page holds the first rows, whatever row count was reported for it. */
  predicate HonestPage(page: DecodeJob, hasMore: bool, src: Source) {
    Decodes(page, src.decoder) ==>
      JobRows(page, src.decoder) <= src.rows && (!hasMore ==> JobRows(page, src.decoder) == src.rows)
  }

  lemma {:induction false} PageInStep(page: DecodeJob, hasMore: bool, src: Source)
    requires HonestPage(page, hasMore, src)
    ensures InStep(QueryRead(page, hasMore).sys, 0, src)
  {
    var jobs := Jobs(QueryRead(page, hasMore));
    assert Pushed([Push(page)][1..]) == [];
    assert jobs == [page];
    SoundRowsNext([], page, src.decoder);
    assert [] + [page] == [page];
    if Decodes(page, src.decoder) {
      DecodedExactly(page, src.decoder);
    }
    assert src.rows[0..] == src.rows;
  }

  lemma {:induction false} QueryReadStarts(page: DecodeJob, hasMore: bool, setup: Setup)
    requires HonestPage(page, hasMore, setup.src) && setup.capacity > 0
    ensures Invariant(QueryRead(page, hasMore), 0, setup)
  {
    var p := QueryRead(page, hasMore);
    PageInStep(page, hasMore, setup.src);
    assert Pushed([Push(page)][1..]) == [];
    assert Jobs(p) == [page] && p.q.queue == [page] && Log(p) == [];
    assert IsExact([page], 0, [], [], setup.src.decoder);
    assert IsDelivered(p, setup.src.decoder);
  }
}
