/** An ordered read gets on: what has been enqueued reaches the receiver, unless the read is cancelled or stalls. */
module ReadProgress {
  import opened Values
  import opened Decoding
  import opened DecodeQueues
  import opened Delivery
  import opened OrderedDelivery
  import opened ReadPipeline
  import opened Receiver

  // --- Work left ---

  /** The batches of a job's payload. */
  function BatchCount(job: DecodeJob, decoder: Decoder): nat { |Readable(decoder(job.payload, job.metadata))| }

  /** A bound on the steps that a drainer and the receiver still take over a job. */
  function RunnerWork(d: Drainer, decoder: Decoder): nat {
    match d
    case Fetching => 1
    case Running(job, phase) =>
      match phase
      case Fetched => 3 * BatchCount(job, decoder) + 6
      case Decode => 3 * BatchCount(job, decoder) + 5
      case First(batches) => 3 * |batches| + 3
      case More(batches) => 3 * |batches| + 3
      case Blocked(batches) => 3 * |batches| + 2
      case Failing(_) => 4
      case Reporting(_) => 3
  }

  /** Every step of a job is one less to take, with the receipt of what it sends. */
  lemma {:induction false} RunnerGetsOn(cancelled: bool, aborted: bool, job: DecodeJob, phase: Phase, decoder: Decoder)
    ensures RunnerWork(RunnerNext(cancelled, aborted, job, phase, decoder), decoder) + |RunnerSends(phase)|
          < RunnerWork(Running(job, phase), decoder)
  {
    DecodeResultIff(decoder(job.payload, job.metadata), job.expectedRowCount);
  }

  function QueueWork(queue: seq<DecodeJob>, decoder: Decoder): nat {
    if queue == [] then 0 else 3 * BatchCount(queue[0], decoder) + 6 + QueueWork(queue[1..], decoder)
  }

  function Work(p: Pipeline, decoder: Decoder): nat {
    3 * p.pending + 2 * p.scheduled + (if p.drainers == [] then 0 else RunnerWork(p.drainers[0], decoder))
    + QueueWork(p.q.queue, decoder) + |p.channel| + (if p.pendingError.Some? then 2 else 0)
  }

  lemma {:induction false} DrainerGetsOn(p: Pipeline, i: nat, setup: Setup)
    requires OneDrainer(p) && May(p, Drain(i), setup)
    ensures Work(PipelineNext(p, Drain(i), setup), setup.src.decoder) < Work(p, setup.src.decoder)
  {
    DrainerOneDrainer(p, i, setup);
    if p.drainers[0].Fetching? {
      FetcherStep(p, setup);
    } else {
      RunnerStep(p, setup);
      RunnerGetsOn(p.cancelled, p.aborted, p.drainers[0].job, p.drainers[0].phase, setup.src.decoder);
    }
  }

  /** No step that the pipeline takes by itself is taken in vain. */
  lemma {:induction false} InternalStepGetsOn(p: Pipeline, s: Step, setup: Setup)
    requires OneDrainer(p) && IsInternal(s) && May(p, s, setup)
    ensures Work(PipelineNext(p, s, setup), setup.src.decoder) < Work(p, setup.src.decoder)
  {
    if s.Drain? {
      DrainerGetsOn(p, s.i, setup);
    }
  }

  // --- At rest ---

  ghost predicate IsIdle(p: Pipeline, setup: Setup) {
    forall s: Step | IsInternal(s) :: !May(p, s, setup)
  }

  predicate AllInternal(steps: seq<Step>) { forall s | s in steps :: IsInternal(s) }

  /** Left to itself the pipeline comes to rest: no run of its own steps is longer than its work. */
  lemma {:induction false} InternalRunsEnd(p: Pipeline, steps: seq<Step>, setup: Setup)
    requires OneDrainer(p) && IsPipelineRun(p, steps, setup) && AllInternal(steps)
    ensures |steps| + Work(PipelineAfter(p, steps, setup), setup.src.decoder) <= Work(p, setup.src.decoder)
    decreases |steps|
  {
    if steps != [] {
      NextOneDrainer(p, steps[0], setup);
      InternalStepGetsOn(p, steps[0], setup);
      InternalRunsEnd(PipelineNext(p, steps[0], setup), steps[1..], setup);
    }
  }

  lemma {:induction false} ComesToRest(p: Pipeline, setup: Setup) returns (steps: seq<Step>)
    requires OneDrainer(p)
    ensures IsPipelineRun(p, steps, setup) && AllInternal(steps) && IsIdle(PipelineAfter(p, steps, setup), setup)
    decreases Work(p, setup.src.decoder)
  {
    steps := [];
    if !IsIdle(p, setup) {
      var s: Step :| IsInternal(s) && May(p, s, setup);
      NextOneDrainer(p, s, setup);
      InternalStepGetsOn(p, s, setup);
      var rest := ComesToRest(PipelineNext(p, s, setup), setup);
      steps := [s] + rest;
      assert steps[1..] == rest;
    }
  }

  /** Nothing is on its way any more. */
  predicate IsDrained(p: Pipeline) {
    && p.channel == [] && p.q.queue == [] && p.drainers == [] && p.pending == 0 && p.scheduled == 0
    && (p.pendingError.Some? ==> p.killed)
  }

  lemma {:induction false} RestsDrained(p: Pipeline, setup: Setup)
    requires OneDrainer(p) && FitsChannel(p, setup) && setup.capacity > 0
    requires IsIdle(p, setup) && !IsDeadlocked(p, setup)
    ensures IsDrained(p)
  {
    SlotsOf(p);
    assert !May(p, Spawn, setup) && !May(p, Start, setup) && !May(p, Receive, setup) && !May(p, DeliverError, setup);
    assert !May(p, Drain(0), setup);
  }

  /** At rest the read is stalled, or it was given up, or an error was received, or all that was enqueued was. */
  lemma {:induction false} AtRest(p: Pipeline, start: int, setup: Setup)
    requires Invariant(p, start, setup) && setup.capacity > 0 && IsIdle(p, setup)
    ensures IsDeadlocked(p, setup) || p.aborted || p.schemaError || !NoErr(p.received)
         || (AllDecode(Jobs(p), setup.src.decoder) && OkRows(p.received) == SoundRows(Jobs(p), setup.src.decoder))
  {
    if !IsDeadlocked(p, setup) {
      RestsDrained(p, setup);
      var jobs := Jobs(p);
      assert Log(p) == p.received && jobs[..|jobs|] == jobs && OkRows(p.received) + [] == OkRows(p.received);
    }
  }

  /** Nobody has cancelled, and every payload enqueued decodes. */
  predicate IsCalm(p: Pipeline, setup: Setup) { !p.cancelled && AllDecode(Jobs(p), setup.src.decoder) }

  /** A job that fails does not decode. */
  lemma {:induction false} FailsForAReason(p: Pipeline, start: int, setup: Setup)
    requires Invariant(p, start, setup) && IsCalm(p, setup) && IsBusy(p)
    ensures !p.drainers[0].phase.Failing?
  {
    assert IsExact(Jobs(p), DecidedCount(StartedCount(p), p.drainers), p.drainers, Log(p), setup.src.decoder);
    assert p.drainers[0].job in Jobs(p);
  }

  /** The pipeline's own steps neither enqueue nor, in a calm read, cancel anything. */
  lemma {:induction false} InternalStepKeeps(p: Pipeline, s: Step, start: int, setup: Setup)
    requires Invariant(p, start, setup) && IsInternal(s) && May(p, s, setup)
    ensures Jobs(PipelineNext(p, s, setup)) == Jobs(p)
    ensures IsCalm(p, setup) ==> IsCalm(PipelineNext(p, s, setup), setup)
  {
    if s.Drain? {
      DrainerOneDrainer(p, s.i, setup);
      if p.drainers[0].Fetching? {
        FetcherStep(p, setup);
      } else {
        RunnerStep(p, setup);
        if IsCalm(p, setup) {
          FailsForAReason(p, start, setup);
        }
      }
    } else {
      OtherStep(p, s, setup);
      if s.Receive? && !p.cancelled {
        assert p.channel[0] in Log(p);
      }
    }
  }

  lemma {:induction false} InternalRunKeeps(p: Pipeline, steps: seq<Step>, start: int, setup: Setup)
    requires Invariant(p, start, setup) && IsPipelineRun(p, steps, setup) && AllInternal(steps)
    ensures Jobs(PipelineAfter(p, steps, setup)) == Jobs(p)
    ensures IsCalm(p, setup) ==> IsCalm(PipelineAfter(p, steps, setup), setup)
    decreases |steps|
  {
    if steps != [] {
      assert steps[0] in steps;
      StepKeepsInvariant(p, steps[0], start, setup);
      InternalStepKeeps(p, steps[0], start, setup);
      InternalRunKeeps(PipelineNext(p, steps[0], setup), steps[1..], start, setup);
    }
  }

  lemma {:induction false} CalmHasNoErrors(p: Pipeline, start: int, setup: Setup)
    requires Invariant(p, start, setup) && IsCalm(p, setup)
    ensures !p.aborted && !p.schemaError && NoErr(p.received)
  {
    assert forall s | s in p.received :: s in Log(p);
  }

  /** From every state of every read that nobody has cancelled: if the payloads enqueued so far decode, the pipeline's
      own steps, no more than its work, bring all their rows to the receiver; unless the read stalls in the one way it
      can. */
  lemma {:induction false} EnqueuedIsReceived(p: Pipeline, start: int, setup: Setup) returns (steps: seq<Step>)
    requires Invariant(p, start, setup) && setup.capacity > 0 && IsCalm(p, setup)
    ensures IsPipelineRun(p, steps, setup) && AllInternal(steps) && |steps| <= Work(p, setup.src.decoder)
    ensures
      var after := PipelineAfter(p, steps, setup);
      && Jobs(after) == Jobs(p) && !after.cancelled
      && (IsDeadlocked(after, setup) || OkRows(after.received) == SoundRows(Jobs(p), setup.src.decoder))
  {
    steps := ComesToRest(p, setup);
    InternalRunsEnd(p, steps, setup);
    RunKeepsInvariant(p, steps, start, setup);
    InternalRunKeeps(p, steps, start, setup);
    AtRest(PipelineAfter(p, steps, setup), start, setup);
    CalmHasNoErrors(PipelineAfter(p, steps, setup), start, setup);
  }

  /** With single-batch payloads nothing can hold them up. */
  lemma {:induction false} SingleBatchesAreReceived(p: Pipeline, start: int, setup: Setup) returns (steps: seq<Step>)
    requires Invariant(p, start, setup) && setup.capacity > 0 && IsCalm(p, setup)
    requires SendsAtMostOne(p) && SingleBatches(setup.src.decoder)
    ensures IsPipelineRun(p, steps, setup) && AllInternal(steps)
    ensures
      var after := PipelineAfter(p, steps, setup);
      Jobs(after) == Jobs(p) && OkRows(after.received) == SoundRows(Jobs(p), setup.src.decoder)
  {
    steps := EnqueuedIsReceived(p, start, setup);
    SingleBatchesNeverStall(p, steps, start, setup);
    RunKeepsInvariant(p, steps, start, setup);
    StalledIff(PipelineAfter(p, steps, setup), start, setup);
  }
}
