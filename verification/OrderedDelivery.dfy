/** What every interleaving of an ordered read delivers: a prefix of the rows, and all of them unless an
    error is delivered or the receiver gives up. */
module OrderedDelivery {
  import opened Decoding
  import opened Delivery

  // --- What has been sent ---

  /** Everything that went into the channel, in order. */
  function Log(p: Pipeline): seq<Sent> { p.received + p.channel }

  predicate NoErr(log: seq<Sent>) { forall s | s in log :: s.Ok? }

  /** The rows sent before the first error. */
  function OkRows(log: seq<Sent>): seq<Row> {
    if log == [] || log[0].Err? then [] else log[0].batch + OkRows(log[1..])
  }

  lemma {:induction false} OkRowsNext(log: seq<Sent>, s: Sent)
    ensures OkRows(log + [s]) == OkRows(log) + if NoErr(log) && s.Ok? then s.batch else []
    ensures NoErr(log + [s]) <==> NoErr(log) && s.Ok?
    decreases |log|
  {
    if log == [] {
      assert log + [s] == [s] && OkRows([s][1..]) == [];
    } else {
      assert (log + [s])[1..] == log[1..] + [s];
      assert log == [log[0]] + log[1..];
      OkRowsNext(log[1..], s);
      if log[0].Ok? {
        var next := if NoErr(log) && s.Ok? then s.batch else [];
        assert log[0].batch + (OkRows(log[1..]) + next) == OkRows(log) + next;
      }
    }
  }

  /** Batches the running job has yet to send. */
  function Unsent(drainers: seq<Drainer>): seq<RowBatch> {
    if drainers == [] || drainers[0].Fetching? then []
    else match drainers[0].phase
      case First(batches) => batches
      case More(batches) => batches
      case Blocked(batches) => batches
      case _ => []
  }

  /** The running job may still turn out not to decode. */
  predicate IsUndecided(drainers: seq<Drainer>) {
    drainers != [] && drainers[0].Running?
    && (var phase := drainers[0].phase; phase.Fetched? || phase.Decode? || phase.Failing? || phase.Reporting?)
  }

  predicate IsFailing(drainers: seq<Drainer>) {
    drainers != [] && drainers[0].Running? && (drainers[0].phase.Failing? || drainers[0].phase.Reporting?)
  }

  /** The running job sends whatever the cancellation flag says. */
  predicate IsSending(drainers: seq<Drainer>) {
    drainers != [] && drainers[0].Running? && (drainers[0].phase.First? || drainers[0].phase.Blocked?)
  }

  /** Nothing was lost: the first `n` jobs decode, and their rows are what was sent and what the running
      job has yet to send. */
  predicate IsExact(jobs: seq<DecodeJob>, n: nat, drainers: seq<Drainer>, log: seq<Sent>, decoder: Decoder)
    requires n <= |jobs|
  {
    && NoErr(log) && AllDecode(jobs[..n], decoder)
    && OkRows(log) + RowsOf(Unsent(drainers)) == SoundRows(jobs[..n], decoder)
    && (IsFailing(drainers) ==> !Decodes(drainers[0].job, decoder))
  }

  /** No more rows count: an error was sent, or cancellation stops every job before it sends. */
  predicate IsFrozen(drainers: seq<Drainer>, log: seq<Sent>, cancelled: bool) {
    !NoErr(log) || (cancelled && !IsSending(drainers))
  }

  /** Of the started jobs, those whose outcome is known. */
  function DecidedCount(started: int, drainers: seq<Drainer>): int {
    started - if IsUndecided(drainers) then 1 else 0
  }

  predicate Delivers(jobs: seq<DecodeJob>, started: int, drainers: seq<Drainer>, log: seq<Sent>, cancelled: bool,
                     decoder: Decoder) {
    && 0 <= DecidedCount(started, drainers) <= started <= |jobs|
    && OkRows(log) <= SoundRows(jobs, decoder)
    && (IsExact(jobs, DecidedCount(started, drainers), drainers, log, decoder) || IsFrozen(drainers, log, cancelled))
  }

  predicate IsDelivered(p: Pipeline, decoder: Decoder) {
    Delivers(Jobs(p), StartedCount(p), p.drainers, Log(p), p.cancelled, decoder)
  }

  // --- The drainer's steps ---

  lemma {:induction false} SoundPrefix(jobs: seq<DecodeJob>, n: nat, decoder: Decoder)
    requires n <= |jobs|
    ensures SoundRows(jobs[..n], decoder) <= SoundRows(jobs, decoder)
  {
    assert jobs == jobs[..n] + jobs[n..];
    SoundRowsConcat(jobs[..n], jobs[n..], decoder);
  }

  /** Taking a job, or finding none. */
  lemma {:induction false} FetchDelivers(jobs: seq<DecodeJob>, started: int, job: DecodeJob, log: seq<Sent>,
                                         cancelled: bool,
                                         decoder: Decoder)
    requires Delivers(jobs, started, [Fetching], log, cancelled, decoder)
    ensures Delivers(jobs, started, [], log, cancelled, decoder)
    ensures started < |jobs| ==> Delivers(jobs, started + 1, [Running(job, Fetched)], log, cancelled, decoder)
  {
  }

  /** A job is skipped once cancellation is seen, whatever it had yet to send. */
  lemma {:induction false} SkipDelivers(jobs: seq<DecodeJob>, started: int, d: Drainer, log: seq<Sent>,
                                        decoder: Decoder)
    requires Delivers(jobs, started, [d], log, true, decoder)
    ensures Delivers(jobs, started, [Fetching], log, true, decoder)
  {
  }

  /** A job that decodes: its rows come next. */
  lemma {:induction false} DecodedDelivers(jobs: seq<DecodeJob>, started: int, job: DecodeJob, log: seq<Sent>,
                                           decoder: Decoder)
    requires Delivers(jobs, started, [Running(job, Decode)], log, false, decoder)
    requires jobs[started - 1] == job && Decodes(job, decoder)
    ensures Delivers(jobs, started, [Running(job, First(JobResult(job, decoder).batches))], log, false, decoder)
  {
    if NoErr(log) {
      assert jobs[..started] == jobs[..started - 1] + [job];
      SoundRowsNext(jobs[..started - 1], job, decoder);
      assert OkRows(log) + [] == OkRows(log);
    }
  }

  lemma {:induction false} SentExactly(jobs: seq<DecodeJob>, started: int, d: Drainer, log: seq<Sent>, decoder: Decoder)
    requires 0 <= started <= |jobs| && IsExact(jobs, started, [d], log, decoder) && IsSending([d]) && Unsent([d]) != []
    ensures IsExact(jobs, started, [Running(d.job, More(Unsent([d])[1..]))], log + [Ok(Unsent([d])[0])], decoder)
    ensures OkRows(log + [Ok(Unsent([d])[0])]) <= SoundRows(jobs, decoder)
  {
    var batches := Unsent([d]);
    OkRowsNext(log, Ok(batches[0]));
    assert OkRows(log) + (batches[0] + RowsOf(batches[1..])) == OkRows(log) + batches[0] + RowsOf(batches[1..]);
    SoundPrefix(jobs, started, decoder);
  }

  /** Sending a batch. */
  lemma {:induction false} SendDelivers(jobs: seq<DecodeJob>, started: int, d: Drainer, log: seq<Sent>, cancelled: bool,
                                        decoder: Decoder)
    requires Delivers(jobs, started, [d], log, cancelled, decoder) && IsSending([d]) && Unsent([d]) != []
    ensures Delivers(jobs, started, [Running(d.job, More(Unsent([d])[1..]))], log + [Ok(Unsent([d])[0])],
                     cancelled, decoder)
  {
    if NoErr(log) {
      SentExactly(jobs, started, d, log, decoder);
    } else {
      OkRowsNext(log, Ok(Unsent([d])[0]));
    }
  }

  /** Dropping a batch because the receiver is gone. */
  lemma {:induction false} DropDelivers(jobs: seq<DecodeJob>, started: int, d: Drainer, log: seq<Sent>,
                                        decoder: Decoder)
    requires Delivers(jobs, started, [d], log, true, decoder) && IsSending([d]) && Unsent([d]) != []
    ensures Delivers(jobs, started, [Running(d.job, More(Unsent([d])[1..]))], log, true, decoder)
  {
  }

  /** A job with nothing left to send is done. */
  lemma {:induction false} SentDelivers(jobs: seq<DecodeJob>, started: int, d: Drainer, log: seq<Sent>, cancelled: bool,
                                        decoder: Decoder)
    requires Delivers(jobs, started, [d], log, cancelled, decoder)
    requires d.Running? && (d.phase.First? || d.phase.More? || d.phase.Blocked?) && Unsent([d]) == []
    ensures Delivers(jobs, started, [Fetching], log, cancelled, decoder)
  {
  }

  /** Reporting a job that does not decode. */
  lemma {:induction false} ReportDelivers(jobs: seq<DecodeJob>, started: int, d: Drainer, log: seq<Sent>,
                                          error: ReadError,
                                          decoder: Decoder)
    requires Delivers(jobs, started, [d], log, true, decoder)
    ensures Delivers(jobs, started, [Fetching], log + [Err(error)], true, decoder)
  {
    OkRowsNext(log, Err(error));
    assert OkRows(log) + [] == OkRows(log);
  }

  /** Steps of a job that neither send nor settle anything. */
  lemma {:induction false} MoveDelivers(jobs: seq<DecodeJob>, started: int, job: DecodeJob, phase: Phase, phase': Phase,
                                        log: seq<Sent>, cancelled: bool, decoder: Decoder)
    requires Delivers(jobs, started, [Running(job, phase)], log, cancelled, decoder)
    requires
      || (phase.Fetched? && phase'.Decode?)
      || (phase.Decode? && phase'.Failing? && !Decodes(job, decoder) && !cancelled)
      || (phase.More? && phase'.Blocked? && phase.batches == phase'.batches && !cancelled)
      || (phase.Failing? && phase'.Reporting?)
    ensures Delivers(jobs, started, [Running(job, phase')], log, cancelled || phase.Failing?, decoder)
  {
  }

  // --- The same steps in the pipeline ---

  /** What a step of a running job does to what has been sent. */
  lemma {:induction false} RunnerLog(p: Pipeline, setup: Setup)
    requires OneDrainer(p) && IsBusy(p)
    ensures
      var d, after := p.drainers[0], DrainerNext(p, 0, setup);
      && p.drainers == [d] && after.drainers == [RunnerNext(p.cancelled, p.aborted, d.job, d.phase, setup.src.decoder)]
      && Jobs(after) == Jobs(p) && after.q == p.q && after.cancelled == (p.cancelled || d.phase.Failing?)
      && Log(after) == if p.aborted then Log(p) else Log(p) + RunnerSends(d.phase)
  {
    RunnerStep(p, setup);
    assert p.received + (p.channel + RunnerSends(p.drainers[0].phase)) == Log(p) + RunnerSends(p.drainers[0].phase);
  }

  lemma {:induction false} AsDelivered(after: Pipeline, jobs: seq<DecodeJob>, started: int, drainers: seq<Drainer>,
                                       log: seq<Sent>,
                                       cancelled: bool, decoder: Decoder)
    requires Jobs(after) == jobs && StartedCount(after) == started && after.drainers == drainers
    requires Log(after) == log && after.cancelled == cancelled
    requires Delivers(jobs, started, drainers, log, cancelled, decoder)
    ensures IsDelivered(after, decoder)
  {
  }

  predicate IsReporting(drainers: seq<Drainer>) {
    drainers != [] && drainers[0].Running? && drainers[0].phase.Reporting?
  }

  lemma {:induction false} FetcherDelivers(p: Pipeline, setup: Setup)
    requires OneDrainer(p) && InOrder(p) && p.drainers != [] && p.drainers[0].Fetching?
    requires IsDelivered(p, setup.src.decoder)
    ensures IsDelivered(DrainerNext(p, 0, setup), setup.src.decoder)
  {
    var decoder, jobs, n, log := setup.src.decoder, Jobs(p), StartedCount(p), Log(p);
    var after := DrainerNext(p, 0, setup);
    FetcherStep(p, setup);
    assert Log(after) == log && Jobs(after) == jobs && after.cancelled == p.cancelled;
    if p.q.queue == [] {
      FetchDelivers(jobs, n, DecodeJob([], 0, []), log, p.cancelled, decoder);
      AsDelivered(after, jobs, n, [], log, p.cancelled, decoder);
    } else {
      FetchDelivers(jobs, n, p.q.queue[0], log, p.cancelled, decoder);
      AsDelivered(after, jobs, n + 1, [Running(p.q.queue[0], Fetched)], log, p.cancelled, decoder);
    }
  }

  lemma {:induction false} SenderDelivers(p: Pipeline, setup: Setup)
    requires OneDrainer(p) && IsSending(p.drainers)
    requires IsDelivered(p, setup.src.decoder) && (p.aborted ==> p.cancelled)
    ensures IsDelivered(DrainerNext(p, 0, setup), setup.src.decoder)
  {
    var decoder, d, jobs, n, log := setup.src.decoder, p.drainers[0], Jobs(p), StartedCount(p), Log(p);
    var after := DrainerNext(p, 0, setup);
    RunnerLog(p, setup);
    if Unsent([d]) == [] {
      SentDelivers(jobs, n, d, log, p.cancelled, decoder);
      assert log + [] == log;
      AsDelivered(after, jobs, n, [Fetching], log, p.cancelled, decoder);
    } else if p.aborted && d.phase.Blocked? {
      SkipDelivers(jobs, n, d, log, decoder);
      AsDelivered(after, jobs, n, [Fetching], log, p.cancelled, decoder);
    } else {
      var batches := Unsent([d]);
      if p.aborted {
        DropDelivers(jobs, n, d, log, decoder);
      } else {
        SendDelivers(jobs, n, d, log, p.cancelled, decoder);
      }
      AsDelivered(after, jobs, n, [Running(d.job, More(batches[1..]))],
                  if p.aborted then log else log + [Ok(batches[0])],
                  p.cancelled, decoder);
    }
  }

  /** A running job that sends nothing in this step and is not cancelled. */
  lemma {:induction false} QuietDelivers(p: Pipeline, setup: Setup)
    requires OneDrainer(p) && InOrder(p) && IsBusy(p) && !p.cancelled && !p.aborted
    requires !IsSending(p.drainers) && !IsReporting(p.drainers)
    requires IsDelivered(p, setup.src.decoder)
    ensures IsDelivered(DrainerNext(p, 0, setup), setup.src.decoder)
  {
    var decoder, d, jobs, n, log := setup.src.decoder, p.drainers[0], Jobs(p), StartedCount(p), Log(p);
    RunnerLog(p, setup);
    assert log + [] == log;
    var next := RunnerNext(p.cancelled, p.aborted, d.job, d.phase, decoder);
    if d.phase.Decode? && Decodes(d.job, decoder) {
      DecodedDelivers(jobs, n, d.job, log, decoder);
    } else if d.phase.More? && d.phase.batches == [] {
      SentDelivers(jobs, n, d, log, false, decoder);
    } else {
      MoveDelivers(jobs, n, d.job, d.phase, next.phase, log, false, decoder);
    }
    AsDelivered(DrainerNext(p, 0, setup), jobs, n, [next], log, d.phase.Failing?, decoder);
  }

  /** Once cancelled, a job is skipped where it looks, or reports its own error. */
  lemma {:induction false} CancelledDelivers(p: Pipeline, setup: Setup)
    requires OneDrainer(p) && IsBusy(p) && p.cancelled
    requires !IsSending(p.drainers) && !IsReporting(p.drainers)
    requires IsDelivered(p, setup.src.decoder)
    ensures IsDelivered(DrainerNext(p, 0, setup), setup.src.decoder)
  {
    var decoder, d, jobs, n, log := setup.src.decoder, p.drainers[0], Jobs(p), StartedCount(p), Log(p);
    RunnerLog(p, setup);
    assert log + [] == log;
    SkipDelivers(jobs, n, d, log, decoder);
    AsDelivered(DrainerNext(p, 0, setup), jobs, n, [RunnerNext(p.cancelled, p.aborted, d.job, d.phase, decoder)], log,
                true, decoder);
  }

  lemma {:induction false} ReporterDelivers(p: Pipeline, setup: Setup)
    requires OneDrainer(p) && IsReporting(p.drainers) && p.cancelled
    requires IsDelivered(p, setup.src.decoder)
    ensures IsDelivered(DrainerNext(p, 0, setup), setup.src.decoder)
  {
    var decoder, d, jobs, n, log := setup.src.decoder, p.drainers[0], Jobs(p), StartedCount(p), Log(p);
    RunnerLog(p, setup);
    SkipDelivers(jobs, n, d, log, decoder);
    ReportDelivers(jobs, n, d, log, d.phase.error, decoder);
    AsDelivered(DrainerNext(p, 0, setup), jobs, n, [Fetching], if p.aborted then log else log + [Err(d.phase.error)],
                true, decoder);
  }

  lemma {:induction false} DrainerDelivers(p: Pipeline, i: nat, setup: Setup)
    requires OneDrainer(p) && InOrder(p) && i < |p.drainers|
    requires IsDelivered(p, setup.src.decoder) && (p.aborted || IsReporting(p.drainers) ==> p.cancelled)
    ensures IsDelivered(DrainerNext(p, i, setup), setup.src.decoder)
  {
    DrainerOneDrainer(p, i, setup);
    if p.drainers[0].Fetching? {
      FetcherDelivers(p, setup);
    } else if IsSending(p.drainers) {
      SenderDelivers(p, setup);
    } else if IsReporting(p.drainers) {
      ReporterDelivers(p, setup);
    } else if p.cancelled {
      CancelledDelivers(p, setup);
    } else {
      QuietDelivers(p, setup);
    }
  }
}
