/** The whole ordered read: reader, server, cancellation flag, decode queue, drainer, bounded channel and
    receiver, interleaved step by step. */
module Delivery {
  import opened Values
  import opened Decoding
  import opened ReadStreams
  import opened StreamRuns
  import opened ExactlyOnce
  import opened DecodeQueues

  datatype Sent = Ok(batch: RowBatch) | Err(error: ReadError)

  /** Where `DecodeJob::run` is: before its two looks at the cancellation flag, about to send the first
      batch or a later one, waiting for a slot, or about to cancel and report an error. */
  datatype Phase =
    | Fetched
    | Decode
    | First(batches: seq<RowBatch>)
    | More(batches: seq<RowBatch>)
    | Blocked(batches: seq<RowBatch>)
    | Failing(error: ReadError)
    | Reporting(error: ReadError)

  /** A drainer is between jobs or runs one. */
  datatype Drainer = Fetching | Running(job: DecodeJob, phase: Phase)

  /** `pending` counts drainers that `push` has yet to spawn, `scheduled` those the pool has yet to start;
      `pendingError` is an error the reader is about to send to the batch channel. */
  datatype Pipeline = Pipeline(
    sys: System,
    killed: bool,
    pendingError: Option<ReadError>,
    q: QueueState,
    pending: nat,
    scheduled: nat,
    drainers: seq<Drainer>,
    channel: seq<Sent>,
    received: seq<Sent>,
    cancelled: bool,
    aborted: bool,
    schemaError: bool)

  datatype Setup = Setup(config: Config, src: Source, capacity: nat)

  datatype Step =
    | ReaderStep(e: Event)
    | DeliverError
    | Spawn
    | Start
    | Drain(i: nat)
    | Receive
    | Abort
    | Kill

  // --- Slots of the bounded channel ---

  /** A job holds the slot reserved for it until it sends its first batch or its error. */
  predicate HoldsSlot(d: Drainer) {
    d.Running? && (d.phase.Fetched? || d.phase.Decode? || d.phase.First? || d.phase.Failing? || d.phase.Reporting?)
  }

  function SlotsHeld(ds: seq<Drainer>): nat {
    if ds == [] then 0 else (if HoldsSlot(ds[0]) then 1 else 0) + SlotsHeld(ds[1..])
  }

  function SlotsTaken(p: Pipeline): nat {
    |p.channel| + |p.q.queue| + SlotsHeld(p.drainers)
  }

  predicate HasSlot(p: Pipeline, setup: Setup) { SlotsTaken(p) < setup.capacity }

  // --- Steps ---

  /** The event brings a batch that is to be enqueued. */
  predicate Enqueues(r: Reader, e: Event, config: Config)
    requires Enabled(r.state, e)
  {
    e.Received? && Pushed(Next(r, e.(slotGranted := true), config).done) != Pushed(r.done)
  }

  predicate ReaderMay(p: Pipeline, e: Event, setup: Setup) {
    && !p.killed && p.pendingError.None? && Enabled(p.sys.reader.state, e) && Honest(p.sys, e, setup.src)
    && (e.CancelSeen? ==> p.cancelled)
    && (Enqueues(p.sys.reader, e, setup.config) ==>
          if e.slotGranted then HasSlot(p, setup) && !p.aborted else p.cancelled || p.aborted)
  }

  predicate DrainerMay(p: Pipeline, d: Drainer, setup: Setup) {
    d.Running? && d.phase.Blocked? ==> p.aborted || HasSlot(p, setup)
  }

  predicate May(p: Pipeline, s: Step, setup: Setup) {
    match s
    case ReaderStep(e) => ReaderMay(p, e, setup)
    case DeliverError => !p.killed && p.pendingError.Some? && (p.aborted || HasSlot(p, setup))
    case Spawn => p.pending > 0
    case Start => p.scheduled > 0
    case Drain(i) => i < |p.drainers| && DrainerMay(p, p.drainers[i], setup)
    case Receive => p.channel != []
    case Abort => true
    case Kill => p.aborted
  }

  function Perform(p: Pipeline, a: Action): Pipeline {
    match a
    case SetCancel => p.(cancelled := true)
    case SendSchema(_) => p
    case SendSchemaError(_) => p.(schemaError := true)
    case SendError(error) => p.(pendingError := Some(error))
    case Push(job) => p.(q := PushTo(p.q, job), pending := p.pending + if p.q.running then 0 else 1)
  }

  function PerformAll(p: Pipeline, actions: seq<Action>): Pipeline
    decreases |actions|
  {
    if actions == [] then p else PerformAll(Perform(p, actions[0]), actions[1..])
  }

  lemma {:induction false} NextAppends(r: Reader, e: Event, config: Config)
    requires Enabled(r.state, e)
    ensures r.done <= Next(r, e, config).done
  {
    if e.Received? {
      MessageAppends(r, r.state.offset, e.msg, e.slotGranted, config);
    }
  }

  lemma {:induction false} MessageAppends(r: Reader, offset: int, msg: Message, slotGranted: bool, config: Config)
    ensures r.done <= AfterMessage(r, offset, msg, slotGranted, config).done
  {
    if r.metadata.Some? {
      RowsAppend(r, offset, msg, slotGranted);
    } else if msg.schema.ArrowSchema? {
      RowsAppend(WithSchema(r, msg.schema.serialized), offset, msg, slotGranted);
    }
  }

  lemma {:induction false} RowsAppend(r: Reader, offset: int, msg: Message, slotGranted: bool)
    requires r.metadata.Some?
    ensures r.done <= AfterSchema(r, offset, msg, slotGranted).done
  {
  }

  /** What the reader does next. */
  function NewActions(r: Reader, e: Event, config: Config): seq<Action>
    requires Enabled(r.state, e)
  {
    NextAppends(r, e, config);
    Next(r, e, config).done[|r.done|..]
  }

  /** Messages to a receiver that is gone are dropped. */
  function Send(p: Pipeline, items: seq<Sent>): Pipeline {
    if p.aborted then p else p.(channel := p.channel + items)
  }

  /** What a running job becomes. */
  function RunnerNext(cancelled: bool, aborted: bool, job: DecodeJob, phase: Phase, decoder: Decoder): Drainer {
    match phase
    case Fetched => if cancelled then Fetching else Running(job, Decode)
    case Decode =>
      if cancelled then Fetching
      else Running(job, match JobResult(job, decoder)
                        case Batches(batches) => First(batches)
                        case Failed(error) => Failing(error))
    case First(batches) => if batches == [] then Fetching else Running(job, More(batches[1..]))
    case More(batches) => if batches == [] || cancelled || aborted then Fetching else Running(job, Blocked(batches))
    case Blocked(batches) => if batches == [] || aborted then Fetching else Running(job, More(batches[1..]))
    case Failing(error) => Running(job, Reporting(error))
    case Reporting(_) => Fetching
  }

  function RunnerSends(phase: Phase): seq<Sent> {
    match phase
    case First(batches) => if batches == [] then [] else [Ok(batches[0])]
    case Blocked(batches) => if batches == [] then [] else [Ok(batches[0])]
    case Reporting(error) => [Err(error)]
    case _ => []
  }

  function DrainerNext(p: Pipeline, i: nat, setup: Setup): Pipeline
    requires i < |p.drainers|
  {
    match p.drainers[i]
    case Fetching =>
      var (q, job) := PopFrom(p.q);
      if job.None? then p.(q := q, drainers := p.drainers[..i] + p.drainers[i + 1..])
      else p.(q := q, drainers := p.drainers[i := Running(job.value, Fetched)])
    case Running(job, phase) =>
      Send(p.(drainers := p.drainers[i := RunnerNext(p.cancelled, p.aborted, job, phase, setup.src.decoder)],
              cancelled := p.cancelled || phase.Failing?),
           RunnerSends(phase))
  }

  function PipelineNext(p: Pipeline, s: Step, setup: Setup): Pipeline
    requires May(p, s, setup)
  {
    match s
    case ReaderStep(e) =>
      PerformAll(p.(sys := SystemNext(p.sys, e, setup.config, setup.src)), NewActions(p.sys.reader, e, setup.config))
    case DeliverError => Send(p.(pendingError := None), [Err(p.pendingError.value)])
    case Spawn => p.(pending := p.pending - 1, scheduled := p.scheduled + 1)
    case Start => p.(scheduled := p.scheduled - 1, drainers := p.drainers + [Fetching])
    case Drain(i) => DrainerNext(p, i, setup)
    case Receive =>
      // `recv` aborts the read when it returns an error.
      var taken := p.(channel := p.channel[1..], received := p.received + [p.channel[0]]);
      if p.channel[0].Err? then taken.(cancelled := true, aborted := true) else taken
    case Abort => p.(cancelled := true, aborted := true)
    case Kill => p.(killed := true, pendingError := None)
  }

  // --- One drainer, jobs in order ---

  predicate OneDrainer(p: Pipeline) {
    && p.pending + p.scheduled + |p.drainers| == (if p.q.running then 1 else 0)
    && (p.q.queue != [] ==> p.q.running)
  }

  predicate IsBusy(p: Pipeline) {
    p.drainers != [] && p.drainers[0].Running?
  }

  function Jobs(p: Pipeline): seq<DecodeJob> { Enqueued(p.sys) }

  /** Jobs the drainers have taken off the queue so far. */
  function StartedCount(p: Pipeline): int { |Jobs(p)| - |p.q.queue| }

  /** The queue is what is left of the jobs, and the busy drainer has the one before. */
  predicate AreInOrder(jobs: seq<DecodeJob>, queue: seq<DecodeJob>, drainers: seq<Drainer>) {
    var n := |jobs| - |queue|;
    && n >= 0 && queue == jobs[n..]
    && (drainers != [] && drainers[0].Running? ==> n > 0 && jobs[n - 1] == drainers[0].job)
  }

  predicate InOrder(p: Pipeline) {
    AreInOrder(Jobs(p), p.q.queue, p.drainers)
  }

  lemma {:induction false} QueuedBy(p: Pipeline, actions: seq<Action>)
    ensures
      var after, jobs := PerformAll(p, actions), Pushed(actions);
      && after.q == QueueState(p.q.queue + jobs, p.q.running || jobs != [])
      && after.pending == p.pending + (if !p.q.running && jobs != [] then 1 else 0)
    decreases |actions|
  {
    if actions == [] {
      assert p.q.queue + [] == p.q.queue;
    } else {
      var first, rest := if actions[0].Push? then [actions[0].job] else [], Pushed(actions[1..]);
      QueuedBy(Perform(p, actions[0]), actions[1..]);
      assert p.q.queue + first + rest == p.q.queue + (first + rest);
      assert Perform(p, actions[0]).q == QueueState(p.q.queue + first, p.q.running || first != []);
    }
  }

  predicate FailsSchema(actions: seq<Action>) { exists a | a in actions :: a.SendSchemaError? }

  predicate FailsBatches(actions: seq<Action>) { exists a | a in actions :: a.SendError? }

  lemma {:induction false} FlaggedBy(p: Pipeline, actions: seq<Action>)
    ensures
      var after := PerformAll(p, actions);
      && (after.cancelled <==> p.cancelled || SetCancel in actions)
      && (after.schemaError <==> p.schemaError || FailsSchema(actions))
      && (after.pendingError.Some? <==> p.pendingError.Some? || FailsBatches(actions))
    decreases |actions|
  {
    if actions != [] {
      FlaggedBy(Perform(p, actions[0]), actions[1..]);
      assert actions == [actions[0]] + actions[1..];
    }
  }

  /** The reader's actions touch nothing else. */
  predicate SameElsewhere(p: Pipeline, after: Pipeline) {
    && after.sys == p.sys && after.killed == p.killed && after.scheduled == p.scheduled && after.drainers == p.drainers
    && after.channel == p.channel && after.received == p.received && after.aborted == p.aborted
  }

  lemma {:induction false} UntouchedBy(p: Pipeline, actions: seq<Action>)
    ensures SameElsewhere(p, PerformAll(p, actions))
    decreases |actions|
  {
    if actions != [] {
      UntouchedBy(Perform(p, actions[0]), actions[1..]);
    }
  }

  /** The reader's step: what it enqueues goes to the queue, and all else stays as it was. */
  lemma {:induction false} ReaderStepJobs(p: Pipeline, e: Event, setup: Setup)
    requires ReaderMay(p, e, setup)
    ensures
      var after, jobs := PipelineNext(p, ReaderStep(e), setup), Pushed(NewActions(p.sys.reader, e, setup.config));
      && Jobs(after) == Jobs(p) + jobs
      && after.q == QueueState(p.q.queue + jobs, p.q.running || jobs != [])
      && after.pending == p.pending + (if !p.q.running && jobs != [] then 1 else 0)
      && SameElsewhere(p.(sys := SystemNext(p.sys, e, setup.config, setup.src)), after)
  {
    var actions := NewActions(p.sys.reader, e, setup.config);
    NextAppends(p.sys.reader, e, setup.config);
    assert Next(p.sys.reader, e, setup.config).done == p.sys.reader.done + actions;
    QueuedBy(p.(sys := SystemNext(p.sys, e, setup.config, setup.src)), actions);
    UntouchedBy(p.(sys := SystemNext(p.sys, e, setup.config, setup.src)), actions);
    PushedConcat(p.sys.reader.done, actions);
  }

  /** A drainer between jobs takes the first one or gives up its role. */
  lemma {:induction false} FetcherStep(p: Pipeline, setup: Setup)
    requires OneDrainer(p) && p.drainers != [] && p.drainers[0].Fetching?
    ensures p.drainers == [Fetching] && p.q.running && p.pending == p.scheduled == 0
    ensures
      DrainerNext(p, 0, setup)
      == if p.q.queue == [] then p.(q := QueueState([], false), drainers := [])
         else p.(q := QueueState(p.q.queue[1..], true), drainers := [Running(p.q.queue[0], Fetched)])
  {
    assert p.drainers[..0] + p.drainers[1..] == [];
    if p.q.queue != [] {
      assert p.drainers[0 := Running(p.q.queue[0], Fetched)] == [Running(p.q.queue[0], Fetched)];
    }
  }

  /** A drainer that runs a job keeps running it or becomes free; the queue is none of its business. */
  lemma {:induction false} RunnerStep(p: Pipeline, setup: Setup)
    requires OneDrainer(p) && IsBusy(p)
    ensures p.drainers == [p.drainers[0]] && p.q.running && p.pending == p.scheduled == 0
    ensures
      var d := p.drainers[0];
      DrainerNext(p, 0, setup)
      == p.(drainers := [RunnerNext(p.cancelled, p.aborted, d.job, d.phase, setup.src.decoder)],
            channel := if p.aborted then p.channel else p.channel + RunnerSends(d.phase),
            cancelled := p.cancelled || d.phase.Failing?)
  {
    var d := p.drainers[0];
    assert p.drainers[0 := RunnerNext(p.cancelled, p.aborted, d.job, d.phase, setup.src.decoder)]
         == [RunnerNext(p.cancelled, p.aborted, d.job, d.phase, setup.src.decoder)];
  }

  /** What the other steps leave alone. */
  lemma {:induction false} OtherStep(p: Pipeline, s: Step, setup: Setup)
    requires May(p, s, setup) && !s.ReaderStep? && !s.Drain?
    ensures
      var after := PipelineNext(p, s, setup);
      && after.sys == p.sys && after.q == p.q
      && after.drainers == (if s.Start? then p.drainers + [Fetching] else p.drainers)
      && after.pending + after.scheduled + |after.drainers| == p.pending + p.scheduled + |p.drainers|
  {
  }

  lemma {:induction false} DrainerOneDrainer(p: Pipeline, i: nat, setup: Setup)
    requires OneDrainer(p) && i < |p.drainers|
    ensures i == 0 && OneDrainer(DrainerNext(p, i, setup))
  {
    if p.drainers[0].Fetching? {
      FetcherStep(p, setup);
    } else {
      RunnerStep(p, setup);
    }
  }

  lemma {:induction false} NextOneDrainer(p: Pipeline, s: Step, setup: Setup)
    requires OneDrainer(p) && May(p, s, setup)
    ensures OneDrainer(PipelineNext(p, s, setup))
  {
    match s
    case ReaderStep(e) => ReaderStepJobs(p, e, setup);
    case Drain(i) => DrainerOneDrainer(p, i, setup);
    case _ => OtherStep(p, s, setup);
  }

  lemma {:induction false} MoreInOrder(jobs: seq<DecodeJob>, queue: seq<DecodeJob>, drainers: seq<Drainer>,
                                       more: seq<DecodeJob>)
    requires AreInOrder(jobs, queue, drainers)
    ensures AreInOrder(jobs + more, queue + more, drainers)
  {
    var n := |jobs| - |queue|;
    assert (jobs + more)[n..] == jobs[n..] + more;
  }

  lemma {:induction false} PoppedInOrder(jobs: seq<DecodeJob>, queue: seq<DecodeJob>, drainers: seq<Drainer>)
    requires AreInOrder(jobs, queue, drainers) && queue != []
    ensures AreInOrder(jobs, queue[1..], [Running(queue[0], Fetched)])
  {
    var n := |jobs| - |queue|;
    assert jobs[n..][1..] == jobs[n + 1..];
  }

  lemma {:induction false} DrainerInOrder(p: Pipeline, i: nat, setup: Setup)
    requires OneDrainer(p) && InOrder(p) && i < |p.drainers|
    ensures InOrder(DrainerNext(p, i, setup))
  {
    DrainerOneDrainer(p, i, setup);
    if p.drainers[0].Fetching? {
      FetcherStep(p, setup);
      if p.q.queue != [] {
        PoppedInOrder(Jobs(p), p.q.queue, p.drainers);
      }
    } else {
      RunnerStep(p, setup);
    }
  }

  lemma {:induction false} NextInOrder(p: Pipeline, s: Step, setup: Setup)
    requires OneDrainer(p) && InOrder(p) && May(p, s, setup)
    ensures InOrder(PipelineNext(p, s, setup))
  {
    match s
    case ReaderStep(e) =>
      ReaderStepJobs(p, e, setup);
      MoreInOrder(Jobs(p), p.q.queue, p.drainers, Pushed(NewActions(p.sys.reader, e, setup.config)));
    case Drain(i) => DrainerInOrder(p, i, setup);
    case _ => OtherStep(p, s, setup);
  }
}
