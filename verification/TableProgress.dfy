/** An unordered read gets on: what has been enqueued reaches the receiver, unless the read is cancelled. */
module TableProgress {
  import opened Values
  import opened Decoding
  import opened ReadStreams
  import opened StreamRuns
  import opened ExactlyOnce
  import opened Delivery
  import opened OrderedDelivery
  import opened ReaderEffects
  import opened ReadProgress
  import opened TableReads
  import opened TableDelivery

  // --- Work left ---

  function Sum(ns: seq<nat>): nat {
    if ns == [] then 0 else Sum(ns[..|ns| - 1]) + ns[|ns| - 1]
  }

  lemma {:induction false} SumAt(ns: seq<nat>, i: nat, n: nat)
    requires i < |ns|
    ensures Sum(ns[i := n]) + ns[i] == Sum(ns) + n
    decreases |ns|
  {
    var last := |ns| - 1;
    if i < last {
      SumAt(ns[..last], i, n);
      assert ns[i := n][..last] == ns[..last][i := n];
    } else {
      assert ns[i := n][..last] == ns[..last];
    }
  }

  function TaskWorks(tasks: seq<Task>, sources: seq<Source>): (works: seq<nat>)
    requires AreOf(tasks, sources)
    ensures |works| == |tasks|
  {
    seq(|tasks|, k requires 0 <= k < |tasks| => RunnerWork(tasks[k].state, sources[tasks[k].stream].decoder))
  }

  function PendingWorks(streams: seq<Stream>): (works: seq<nat>)
    ensures |works| == |streams|
  {
    seq(|streams|, i requires 0 <= i < |streams| => if streams[i].pendingError.Some? then 2 else 0)
  }

  function TableWork(r: TableRead, sources: seq<Source>): nat
    requires AreOf(r.tasks, sources)
  {
    Sum(TaskWorks(r.tasks, sources)) + Sum(PendingWorks(r.streams)) + |r.channel|
  }

  /** A step the read takes by itself. */
  predicate IsOwn(s: TableStep) { s.SendPending? || s.RunTask? || s.ReceiveNext? }

  lemma {:induction false} TaskGetsOn(r: TableRead, k: nat, session: Session)
    requires |r.streams| == |session.sources| && AreOf(r.tasks, session.sources) && MayStep(r, RunTask(k), session)
    ensures
      var after := TableNext(r, RunTask(k), session);
      AreOf(after.tasks, session.sources) && TableWork(after, session.sources) < TableWork(r, session.sources)
  {
    var t, sources := r.tasks[k], session.sources;
    assert IsOf(t, sources);
    var decoder := sources[t.stream].decoder;
    var t' := t.(state := RunnerNext(r.cancelled, r.aborted, t.job, t.state.phase, decoder));
    RunnerGetsOn(r.cancelled, r.aborted, t.job, t.state.phase, decoder);
    assert AreOf(r.tasks[k := t'], sources);
    assert TaskWorks(r.tasks[k := t'], sources) == TaskWorks(r.tasks, sources)[k := RunnerWork(t'.state, decoder)];
    SumAt(TaskWorks(r.tasks, sources), k, RunnerWork(t'.state, decoder));
  }

  lemma {:induction false} PendingGetsOn(r: TableRead, i: nat, session: Session)
    requires |r.streams| == |session.sources| && AreOf(r.tasks, session.sources) && MayStep(r, SendPending(i), session)
    ensures
      var after := TableNext(r, SendPending(i), session);
      AreOf(after.tasks, session.sources) && TableWork(after, session.sources) < TableWork(r, session.sources)
  {
    var streams := r.streams[i := r.streams[i].(pendingError := None)];
    assert PendingWorks(streams) == PendingWorks(r.streams)[i := 0];
    SumAt(PendingWorks(r.streams), i, 0);
  }

  /** No step that the read takes by itself is taken in vain. */
  lemma {:induction false} OwnStepGetsOn(r: TableRead, s: TableStep, session: Session)
    requires |r.streams| == |session.sources| && AreOf(r.tasks, session.sources)
    requires IsOwn(s) && MayStep(r, s, session)
    ensures
      var after := TableNext(r, s, session);
      AreOf(after.tasks, session.sources) && TableWork(after, session.sources) < TableWork(r, session.sources)
  {
    match s
    case RunTask(k) => TaskGetsOn(r, k, session);
    case SendPending(i) => PendingGetsOn(r, i, session);
    case _ =>
  }

  // --- At rest ---

  ghost predicate IsResting(r: TableRead, session: Session)
    requires |r.streams| == |session.sources|
  {
    forall s: TableStep | IsOwn(s) :: !MayStep(r, s, session)
  }

  /** Nobody has cancelled, and every payload enqueued decodes. */
  predicate IsQuiet(r: TableRead, session: Session)
    requires |r.streams| == |session.sources|
  {
    !r.cancelled && forall i | 0 <= i < |r.streams| :: AllDecode(Enqueued(r.streams[i].sys), session.sources[i].decoder)
  }

  /** Every task runs a job that was enqueued. */
  predicate TasksEnqueued(r: TableRead, sources: seq<Source>) {
    && AreOf(r.tasks, sources) && |r.streams| == |sources|
    && forall k | 0 <= k < |r.tasks| :: r.tasks[k].job in Enqueued(r.streams[r.tasks[k].stream].sys)
  }

  predicate SameReaders(r: TableRead, after: TableRead) {
    && |after.streams| == |r.streams| && forall i | 0 <= i < |r.streams| :: after.streams[i].sys == r.streams[i].sys
  }

  lemma {:induction false} NonePending(r: TableRead, session: Session)
    requires TableInvariant(r, session) && !r.cancelled
    ensures forall i | 0 <= i < |r.streams| :: r.streams[i].pendingError.None?
    ensures forall s | s in r.channel :: s.Ok?
  {
    forall i | 0 <= i < |r.streams| ensures r.streams[i].pendingError.None? {
      assert IsSound(r.streams[i], r.cancelled, r.aborted, session.sources[i]);
    }
    assert forall s | s in r.channel :: s in TableLog(r);
  }

  /** A job that fails does not decode. */
  lemma {:induction false} NoneFailing(r: TableRead, k: nat, session: Session)
    requires TableInvariant(r, session) && TasksEnqueued(r, session.sources) && IsQuiet(r, session)
    requires k < |r.tasks| && r.tasks[k].state.Running?
    ensures !r.tasks[k].state.phase.Failing?
  {
    var t := r.tasks[k];
    assert IsSettled(t, r.cancelled, session.sources) && IsOf(t, session.sources);
    assert AllDecode(Enqueued(r.streams[t.stream].sys), session.sources[t.stream].decoder);
    assert t.job in Enqueued(r.streams[t.stream].sys);
  }

  lemma {:induction false} OwnStepCancelsNothing(r: TableRead, s: TableStep, session: Session)
    requires TableInvariant(r, session) && TasksEnqueued(r, session.sources) && IsQuiet(r, session)
    requires IsOwn(s) && MayStep(r, s, session)
    ensures !TableNext(r, s, session).cancelled
  {
    if s.RunTask? {
      NoneFailing(r, s.k, session);
    } else if s.ReceiveNext? {
      NonePending(r, session);
      assert r.channel[0] in r.channel;
    }
  }

  lemma {:induction false} OwnStepEnqueuesNothing(r: TableRead, s: TableStep, session: Session)
    requires TasksEnqueued(r, session.sources) && IsOwn(s) && MayStep(r, s, session)
    ensures SameReaders(r, TableNext(r, s, session)) && TasksEnqueued(TableNext(r, s, session), session.sources)
  {
    if s.RunTask? {
      assert IsOf(r.tasks[s.k], session.sources);
    }
  }

  /** The read's own steps enqueue nothing, and cancel nothing while all is quiet. */
  lemma {:induction false} OwnStepKeeps(r: TableRead, s: TableStep, session: Session)
    requires TableInvariant(r, session) && TasksEnqueued(r, session.sources) && IsQuiet(r, session)
    requires IsOwn(s) && MayStep(r, s, session)
    ensures
      var after := TableNext(r, s, session);
      SameReaders(r, after) && IsQuiet(after, session) && TasksEnqueued(after, session.sources)
  {
    OwnStepCancelsNothing(r, s, session);
    OwnStepEnqueuesNothing(r, s, session);
  }

  lemma {:induction false} RestingTasksAreOver(r: TableRead, session: Session)
    requires |r.streams| == |session.sources| && AreOf(r.tasks, session.sources) && IsResting(r, session)
    ensures OwedAll(r.tasks, session.sources) == multiset{}
  {
    forall k | 0 <= k < |r.tasks| ensures r.tasks[k].state.Fetching? {
      assert IsOf(r.tasks[k], session.sources) && !MayStep(r, RunTask(k), session);
    }
    NothingIn(TaskBags(r.tasks, session.sources));
  }

  /** At rest everything that was enqueued has been received. */
  lemma {:induction false} RestingHasReceived(r: TableRead, session: Session)
    requires TableInvariant(r, session) && IsResting(r, session) && !r.cancelled
    ensures NoErr(r.received) && multiset(OkRows(r.received)) == Total(r.streams, session.sources)
  {
    assert !MayStep(r, ReceiveNext, session);
    assert TableLog(r) == r.received;
    RestingTasksAreOver(r, session);
  }

  predicate AllOwn(steps: seq<TableStep>) { forall s | s in steps :: IsOwn(s) }

  lemma {:induction false} SameTotal(r: TableRead, after: TableRead, sources: seq<Source>)
    requires SameReaders(r, after) && |r.streams| == |sources|
    ensures Total(after.streams, sources) == Total(r.streams, sources)
  {
    assert StreamBags(after.streams, sources) == StreamBags(r.streams, sources);
  }

  /** From every state of every unordered read that nobody has cancelled: if the payloads enqueued so far decode, the
      read's own steps bring all their rows to the receiver, each once. */
  lemma {:induction false} EnqueuedIsReceived(r: TableRead, session: Session) returns (steps: seq<TableStep>)
    requires TableInvariant(r, session) && TasksEnqueued(r, session.sources) && IsQuiet(r, session)
    ensures IsTableRun(r, steps, session) && AllOwn(steps) && |steps| <= TableWork(r, session.sources)
    ensures
      var after := TableAfter(r, steps, session);
      && SameReaders(r, after) && !after.cancelled && NoErr(after.received)
      && multiset(OkRows(after.received)) == Total(r.streams, session.sources)
    decreases TableWork(r, session.sources)
  {
    steps := [];
    if IsResting(r, session) {
      RestingHasReceived(r, session);
    } else {
      var s: TableStep :| IsOwn(s) && MayStep(r, s, session);
      var next := TableNext(r, s, session);
      TableStepKeeps(r, s, session);
      OwnStepKeeps(r, s, session);
      OwnStepGetsOn(r, s, session);
      var rest := EnqueuedIsReceived(next, session);
      SameTotal(r, next, session.sources);
      steps := [s] + rest;
      assert steps[1..] == rest;
    }
  }

  // --- From every reachable state ---

  /** A reader that has enqueued more, with a task for each of the new jobs. */
  lemma {:induction false} MoreTasksEnqueued(r: TableRead, i: nat, s: Stream, jobs: seq<DecodeJob>, after: TableRead,
                                             sources: seq<Source>)
    requires TasksEnqueued(r, sources) && i < |r.streams| && Enqueued(s.sys) == Enqueued(r.streams[i].sys) + jobs
    requires after.streams == r.streams[i := s] && after.tasks == r.tasks + TasksOf(i, jobs)
    ensures TasksEnqueued(after, sources)
  {
    forall k | 0 <= k < |after.tasks|
      ensures IsOf(after.tasks[k], sources) && after.tasks[k].job in Enqueued(after.streams[after.tasks[k].stream].sys)
    {
      if k < |r.tasks| {
        assert after.tasks[k] == r.tasks[k] && IsOf(r.tasks[k], sources);
        assert r.tasks[k].job in Enqueued(r.streams[r.tasks[k].stream].sys);
      } else {
        assert after.tasks[k] == TasksOf(i, jobs)[k - |r.tasks|] && jobs[k - |r.tasks|] in jobs;
      }
    }
  }

  lemma {:induction false} ReaderStepTasks(r: TableRead, i: nat, e: Event, session: Session)
    requires TasksEnqueued(r, session.sources) && i < |r.streams| && StreamMay(r, i, e, session)
    ensures TasksEnqueued(AfterReader(r, i, e, session), session.sources)
  {
    var s, after := r.streams[i].sys, AfterReader(r, i, e, session);
    PushedNext(s.reader, e, session.config);
    MoreTasksEnqueued(r, i, after.streams[i], Pushed(NewActions(s.reader, e, session.config)), after, session.sources);
  }

  lemma {:induction false} StepKeepsTasksEnqueued(r: TableRead, s: TableStep, session: Session)
    requires TasksEnqueued(r, session.sources) && MayStep(r, s, session)
    ensures TasksEnqueued(TableNext(r, s, session), session.sources)
  {
    if s.StreamStep? {
      ReaderStepTasks(r, s.i, s.e, session);
    } else if IsOwn(s) {
      OwnStepEnqueuesNothing(r, s, session);
    } else {
      assert SameReaders(r, TableNext(r, s, session));
    }
  }

  lemma {:induction false} RunKeepsTasksEnqueued(r: TableRead, steps: seq<TableStep>, session: Session)
    requires TasksEnqueued(r, session.sources) && IsTableRun(r, steps, session)
    ensures TasksEnqueued(TableAfter(r, steps, session), session.sources)
    decreases |steps|
  {
    if steps != [] {
      StepKeepsTasksEnqueued(r, steps[0], session);
      RunKeepsTasksEnqueued(TableNext(r, steps[0], session), steps[1..], session);
    }
  }

  /** However an unordered read has come to where it is. */
  lemma {:induction false} UnorderedReadGetsOn(start: TableRead, run: seq<TableStep>, session: Session)
    returns (steps: seq<TableStep>)
    requires TableInvariant(start, session) && TasksEnqueued(start, session.sources)
    requires IsTableRun(start, run, session) && IsQuiet(TableAfter(start, run, session), session)
    ensures
      var r := TableAfter(start, run, session);
      && IsTableRun(r, steps, session) && AllOwn(steps)
      && multiset(OkRows(TableAfter(r, steps, session).received)) == Total(r.streams, session.sources)
  {
    TableRunKeeps(start, run, session);
    RunKeepsTasksEnqueued(start, run, session);
    steps := EnqueuedIsReceived(TableAfter(start, run, session), session);
  }

  /** Every read starts that way. */
  lemma {:induction false} StartsEnqueued(schema: Bytes, metadata: Option<Bytes>, check: Option<FirstPageCheck>,
                                          page: DecodeJob, hasMore: bool, session: Session)
    ensures TasksEnqueued(NewTableRead(schema, |session.sources|), session.sources)
    ensures |session.sources| == 1 ==>
              && TasksEnqueued(NewStreamRead(metadata, check), session.sources)
              && TasksEnqueued(NewPageRead(page, hasMore), session.sources)
  {
    PageEnqueued(page, hasMore);
  }
}
