/** What an unordered read delivers: at a clean end every row of every stream, each once. */
module TableDelivery {
  import opened Values
  import opened Decoding
  import opened ReadStreams
  import opened StreamRuns
  import opened ExactlyOnce
  import opened Delivery
  import opened OrderedDelivery
  import opened ReaderEffects
  import opened ReadPipeline
  import opened TableReads

  function TableLog(r: TableRead): seq<Sent> { r.received + r.channel }

  /** While nobody has cancelled, what was sent and what is owed are all the rows enqueued so far. */
  predicate IsBalanced(r: TableRead, sources: seq<Source>)
    requires |r.streams| == |sources| && AreOf(r.tasks, sources)
  {
    !r.cancelled ==>
      NoErr(TableLog(r)) && multiset(OkRows(TableLog(r))) + OwedAll(r.tasks, sources) == Total(r.streams, sources)
  }

  /** What a task's state says about its job: it is over or sends only if the job decodes. */
  predicate IsSettled(t: Task, cancelled: bool, sources: seq<Source>)
    requires t.stream < |sources|
  {
    if t.state.Fetching? then !cancelled ==> Decodes(t.job, sources[t.stream].decoder)
    else match t.state.phase
      case Fetched => true
      case Decode => true
      case Failing(_) => !Decodes(t.job, sources[t.stream].decoder)
      case Reporting(_) => cancelled
      case _ => Decodes(t.job, sources[t.stream].decoder)
  }

  predicate AllSettled(r: TableRead, sources: seq<Source>)
    requires AreOf(r.tasks, sources)
  {
    forall k | 0 <= k < |r.tasks| :: IsSettled(r.tasks[k], r.cancelled, sources)
  }

  predicate HasTask(tasks: seq<Task>, i: nat, job: DecodeJob) {
    exists k :: 0 <= k < |tasks| && tasks[k].stream == i && tasks[k].job == job
  }

  /** Every job ever enqueued has a task. */
  predicate AllTasked(r: TableRead) {
    forall i, job | 0 <= i < |r.streams| && job in Enqueued(r.streams[i].sys) :: HasTask(r.tasks, i, job)
  }

  predicate IsReportingTask(t: Task) { t.state.Running? && t.state.phase.Reporting? }

  predicate HasTableCause(r: TableRead) {
    || r.aborted || r.schemaError || !NoErr(TableLog(r))
    || (exists i :: 0 <= i < |r.streams| && r.streams[i].pendingError.Some?)
    || (exists k :: 0 <= k < |r.tasks| && IsReportingTask(r.tasks[k]))
  }

  /** A reader is in step with its stream and stops for a reason. */
  predicate IsSound(s: Stream, cancelled: bool, aborted: bool, source: Source) {
    && InStep(s.sys, 0, source)
    && (s.pendingError.Some? ==> s.sys.reader.state.Terminated? && cancelled)
    && (s.killed ==> aborted)
    && (s.sys.reader.state.Terminated? && !cancelled ==>
          s.sys.ended || s.sys.reader.state == Terminated(SwitchToReadSession))
  }

  predicate AllSound(r: TableRead, sources: seq<Source>)
    requires |r.streams| == |sources|
  {
    forall i | 0 <= i < |r.streams| :: IsSound(r.streams[i], r.cancelled, r.aborted, sources[i])
  }

  predicate TableInvariant(r: TableRead, session: Session) {
    && |r.streams| == |session.sources| && AreOf(r.tasks, session.sources)
    && IsBalanced(r, session.sources) && AllSettled(r, session.sources) && AllTasked(r)
    && AllSound(r, session.sources)
    && (r.aborted ==> r.cancelled) && (r.cancelled ==> HasTableCause(r))
  }

  // --- A reader's step ---

  lemma {:induction false} ErrorOfIs(actions: seq<Action>)
    ensures ErrorOf(actions).Some? <==> FailsBatches(actions)
    decreases |actions|
  {
    if actions != [] {
      ErrorOfIs(actions[1..]);
      assert actions == [actions[0]] + actions[1..];
    }
  }

  lemma {:induction false} StreamBalanced(r: TableRead, i: nat, e: Event, session: Session)
    requires |r.streams| == |session.sources| && AreOf(r.tasks, session.sources) && IsBalanced(r, session.sources)
    requires i < |r.streams| && StreamMay(r, i, e, session)
    ensures AreOf(AfterReader(r, i, e, session).tasks, session.sources)
    ensures IsBalanced(AfterReader(r, i, e, session), session.sources)
  {
    var s, sources, after := r.streams[i], session.sources, AfterReader(r, i, e, session);
    var pushed := Pushed(NewActions(s.sys.reader, e, session.config));
    PushedNext(s.sys.reader, e, session.config);
    AtMostOnePush(s.sys.reader, e, session.config);
    OwedNext(r.tasks, sources, i, pushed);
    SumNext(Enqueued(s.sys), pushed, sources[i].decoder);
    TotalAt(r.streams, sources, i, after.streams[i]);
    var more := if pushed == [] then multiset{} else GoodRows(pushed[0], sources[i].decoder);
    if !after.cancelled {
      BalancedAfterPush(multiset(OkRows(TableLog(r))), OwedAll(r.tasks, sources), Total(r.streams, sources),
                        EnqueuedRows(s, sources[i]), Total(after.streams, sources), more);
    }
  }

  lemma {:induction false} BalancedAfterPush(sent: multiset<Row>, owed: multiset<Row>, total: multiset<Row>,
                                             mine: multiset<Row>,
                                             total': multiset<Row>, more: multiset<Row>)
    requires sent + owed == total && total' + mine == total + (mine + more)
    ensures sent + (owed + more) == total'
  {
    forall row: Row ensures (sent + (owed + more))[row] == total'[row] {
      assert (total' + mine)[row] == (total + (mine + more))[row];
      assert (sent + owed)[row] == total[row];
    }
  }

  lemma {:induction false} StreamSettled(r: TableRead, i: nat, e: Event, session: Session)
    requires |r.streams| == |session.sources| && AreOf(r.tasks, session.sources) && AllSettled(r, session.sources)
    requires i < |r.streams| && StreamMay(r, i, e, session)
    requires AreOf(AfterReader(r, i, e, session).tasks, session.sources)
    ensures AllSettled(AfterReader(r, i, e, session), session.sources)
  {
    var after := AfterReader(r, i, e, session);
    forall k | 0 <= k < |after.tasks| ensures IsSettled(after.tasks[k], after.cancelled, session.sources) {
      if k < |r.tasks| {
        assert after.tasks[k] == r.tasks[k] && IsSettled(r.tasks[k], r.cancelled, session.sources);
      }
    }
  }

  lemma {:induction false} StillHasTask(tasks: seq<Task>, more: seq<Task>, i: nat, job: DecodeJob)
    requires HasTask(tasks, i, job)
    ensures HasTask(tasks + more, i, job)
  {
    var k :| 0 <= k < |tasks| && tasks[k].stream == i && tasks[k].job == job;
    assert (tasks + more)[k] == tasks[k];
  }

  lemma {:induction false} StreamTasked(r: TableRead, i: nat, e: Event, session: Session)
    requires |r.streams| == |session.sources| && AllTasked(r)
    requires i < |r.streams| && StreamMay(r, i, e, session)
    ensures AllTasked(AfterReader(r, i, e, session))
  {
    var after, s := AfterReader(r, i, e, session), r.streams[i];
    var pushed := Pushed(NewActions(s.sys.reader, e, session.config));
    PushedNext(s.sys.reader, e, session.config);
    forall j, job | 0 <= j < |after.streams| && job in Enqueued(after.streams[j].sys)
      ensures HasTask(after.tasks, j, job)
    {
      if job in Enqueued(r.streams[j].sys) {
        StillHasTask(r.tasks, TasksOf(i, pushed), j, job);
      } else {
        assert j == i && job in pushed;
        NowHasTask(r.tasks, i, pushed, job);
      }
    }
  }

  lemma {:induction false} NowHasTask(tasks: seq<Task>, i: nat, jobs: seq<DecodeJob>, job: DecodeJob)
    requires job in jobs
    ensures HasTask(tasks + TasksOf(i, jobs), i, job)
  {
    var n :| 0 <= n < |jobs| && jobs[n] == job;
    assert (tasks + TasksOf(i, jobs))[|tasks| + n] == TasksOf(i, jobs)[n];
  }

  lemma {:induction false} StreamSound(s: Stream, e: Event, cancelled: bool, aborted: bool, source: Source,
                                       config: Config)
    requires IsSound(s, cancelled, aborted, source) && Enabled(s.sys.reader.state, e) && Honest(s.sys, e, source)
    requires !s.killed && s.pendingError.None? && (aborted ==> cancelled)
    requires e.CancelSeen? ==> cancelled
    requires Enqueues(s.sys.reader, e, config) && !e.slotGranted ==> cancelled || aborted
    ensures
      var actions := NewActions(s.sys.reader, e, config);
      var after := s.(sys := SystemNext(s.sys, e, config, source), pendingError := ErrorOf(actions));
      && IsSound(after, cancelled || SetCancel in actions, aborted, source)
      && (SetCancel in actions ==> after.pendingError.Some? || FailsSchema(actions))
  {
    var r, actions := s.sys.reader, NewActions(s.sys.reader, e, config);
    NextInStep(s.sys, e, 0, config, source);
    ActionsOf(r, e, config);
    ErrorOfIs(actions);
    if Next(r, e, config).state.Terminated? {
      WhyItStops(r, e, config);
    }
  }

  lemma {:induction false} StreamKeeps(r: TableRead, i: nat, e: Event, session: Session)
    requires TableInvariant(r, session) && i < |r.streams| && StreamMay(r, i, e, session)
    ensures TableInvariant(AfterReader(r, i, e, session), session)
  {
    var after := AfterReader(r, i, e, session);
    StreamBalanced(r, i, e, session);
    StreamSettled(r, i, e, session);
    StreamTasked(r, i, e, session);
    assert IsSound(r.streams[i], r.cancelled, r.aborted, session.sources[i]);
    StreamSound(r.streams[i], e, r.cancelled, r.aborted, session.sources[i], session.config);
    forall j | 0 <= j < |after.streams|
      ensures IsSound(after.streams[j], after.cancelled, after.aborted, session.sources[j])
    {
      if j != i {
        assert after.streams[j] == r.streams[j] && IsSound(r.streams[j], r.cancelled, r.aborted, session.sources[j]);
      }
    }
    if after.cancelled {
      StreamHasCause(r, i, e, session);
    }
  }

  lemma {:induction false} StreamHasCause(r: TableRead, i: nat, e: Event, session: Session)
    requires |r.streams| == |session.sources| && i < |r.streams| && StreamMay(r, i, e, session)
    requires r.cancelled ==> HasTableCause(r)
    requires
      SetCancel in NewActions(r.streams[i].sys.reader, e, session.config) ==>
        AfterReader(r, i, e, session).streams[i].pendingError.Some? || AfterReader(r, i, e, session).schemaError
    ensures AfterReader(r, i, e, session).cancelled ==> HasTableCause(AfterReader(r, i, e, session))
  {
    var after := AfterReader(r, i, e, session);
    if SetCancel in NewActions(r.streams[i].sys.reader, e, session.config) {
      assert after.streams[i].pendingError.Some? || after.schemaError;
    } else if r.cancelled {
      if j: nat :| j < |r.streams| && r.streams[j].pendingError.Some? {
        assert after.streams[j] == r.streams[j];
      } else if k: nat :| k < |r.tasks| && IsReportingTask(r.tasks[k]) {
        assert after.tasks[k] == r.tasks[k];
      }
    }
  }

  // --- A task's step ---

  function SentRows(items: seq<Sent>): multiset<Row> {
    if items == [] || items[0].Err? then multiset{} else multiset(items[0].batch)
  }

  lemma {:induction false} LogNext(log: seq<Sent>, items: seq<Sent>)
    requires NoErr(log) && |items| <= 1 && NoErr(items)
    ensures NoErr(log + items) && multiset(OkRows(log + items)) == multiset(OkRows(log)) + SentRows(items)
  {
    if items == [] {
      assert log + items == log;
    } else {
      assert log + items == log + [items[0]];
      OkRowsNext(log, items[0]);
    }
  }

  /** What a task owes it sends now or owes still. */
  lemma {:induction false} TaskOwes(t: Task, sources: seq<Source>)
    requires IsOf(t, sources) && t.state.Running? && IsSettled(t, false, sources) && !t.state.phase.Failing?
    ensures
      var sends := RunnerSends(t.state.phase);
      var after := t.(state := RunnerNext(false, false, t.job, t.state.phase, sources[t.stream].decoder));
      NoErr(sends) && |sends| <= 1 && Owed(t, sources) == SentRows(sends) + Owed(after, sources)
  {
    var decoder := sources[t.stream].decoder;
    if t.state.phase.First? || t.state.phase.Blocked? {
      SenderOwes(t, sources);
    } else if t.state.phase.Decode? {
      assert Decodes(t.job, decoder) ==> JobRows(t.job, decoder) == RowsOf(JobResult(t.job, decoder).batches);
    }
  }

  lemma {:induction false} SenderOwes(t: Task, sources: seq<Source>)
    requires IsOf(t, sources) && t.state.Running? && (t.state.phase.First? || t.state.phase.Blocked?)
    ensures
      var sends := RunnerSends(t.state.phase);
      var after := t.(state := RunnerNext(false, false, t.job, t.state.phase, sources[t.stream].decoder));
      NoErr(sends) && |sends| <= 1 && Owed(t, sources) == SentRows(sends) + Owed(after, sources)
  {
    var batches, decoder := t.state.phase.batches, sources[t.stream].decoder;
    var after := t.(state := RunnerNext(false, false, t.job, t.state.phase, decoder));
    BatchesSplit(batches);
    if batches == [] {
      assert RunnerSends(t.state.phase) == [] && after.state.Fetching?;
      assert Owed(t, sources) == Owed(after, sources) == multiset{};
    } else {
      assert RunnerSends(t.state.phase) == [Ok(batches[0])] && after.state == Running(t.job, More(batches[1..]));
      assert Owed(after, sources) == multiset(RowsOf(batches[1..]));
    }
  }

  lemma {:induction false} BatchesSplit(batches: seq<RowBatch>)
    ensures batches == [] ==> RowsOf(batches) == []
    ensures batches != [] ==> multiset(RowsOf(batches)) == multiset(batches[0]) + multiset(RowsOf(batches[1..]))
  {
  }

  lemma {:induction false} TaskLog(r: TableRead, k: nat, session: Session)
    requires k < |r.tasks| && r.tasks[k].state.Running? && r.tasks[k].stream < |session.sources|
    ensures
      var after := AfterTask(r, k, session);
      && TableLog(after) == (if r.aborted then TableLog(r) else TableLog(r) + RunnerSends(r.tasks[k].state.phase))
      && after.streams == r.streams && after.aborted == r.aborted && after.schemaError == r.schemaError
      && after.cancelled == (r.cancelled || r.tasks[k].state.phase.Failing?)
  {
    var sends := RunnerSends(r.tasks[k].state.phase);
    assert r.received + (r.channel + sends) == r.received + r.channel + sends;
  }

  lemma {:induction false} BalancedAfterTask(sent: multiset<Row>, owed: multiset<Row>, total: multiset<Row>,
                                             now: multiset<Row>,
                                             owed': multiset<Row>, still: multiset<Row>)
    requires sent + owed == total && owed' + (now + still) == owed + still
    ensures sent + now + owed' == total
  {
    forall row: Row ensures (sent + now + owed')[row] == total[row] {
      assert (owed' + (now + still))[row] == (owed + still)[row];
      assert (sent + owed)[row] == total[row];
    }
  }

  lemma {:induction false} TaskBalanced(r: TableRead, k: nat, session: Session)
    requires |r.streams| == |session.sources| && AreOf(r.tasks, session.sources) && IsBalanced(r, session.sources)
    requires k < |r.tasks| && r.tasks[k].state.Running? && IsSettled(r.tasks[k], r.cancelled, session.sources)
    requires r.aborted ==> r.cancelled
    ensures AreOf(AfterTask(r, k, session).tasks, session.sources)
    ensures IsBalanced(AfterTask(r, k, session), session.sources)
  {
    var t, sources, after := r.tasks[k], session.sources, AfterTask(r, k, session);
    assert IsOf(t, sources);
    TaskLog(r, k, session);
    OwedAt(r.tasks, sources, k, after.tasks[k]);
    if !after.cancelled {
      var sends := RunnerSends(t.state.phase);
      TaskOwes(t, sources);
      LogNext(TableLog(r), sends);
      BalancedAfterTask(multiset(OkRows(TableLog(r))), OwedAll(r.tasks, sources), Total(r.streams, sources),
                        SentRows(sends),
                        OwedAll(after.tasks, sources), Owed(after.tasks[k], sources));
    }
  }

  lemma {:induction false} TaskSettled(r: TableRead, k: nat, session: Session)
    requires AreOf(r.tasks, session.sources) && AllSettled(r, session.sources)
    requires k < |r.tasks| && r.tasks[k].state.Running?
    requires AreOf(AfterTask(r, k, session).tasks, session.sources)
    ensures AllSettled(AfterTask(r, k, session), session.sources)
  {
    var after, sources := AfterTask(r, k, session), session.sources;
    forall j | 0 <= j < |after.tasks| ensures IsSettled(after.tasks[j], after.cancelled, sources) {
      assert IsSettled(r.tasks[j], r.cancelled, sources);
      if j != k {
        assert after.tasks[j] == r.tasks[j];
      }
    }
  }

  lemma {:induction false} TaskTasked(r: TableRead, k: nat, session: Session)
    requires AllTasked(r)
    requires k < |r.tasks| && r.tasks[k].state.Running? && r.tasks[k].stream < |session.sources|
    ensures AllTasked(AfterTask(r, k, session))
  {
    var after := AfterTask(r, k, session);
    forall i, job | 0 <= i < |after.streams| && job in Enqueued(after.streams[i].sys)
      ensures HasTask(after.tasks, i, job)
    {
      assert HasTask(r.tasks, i, job);
      var j :| 0 <= j < |r.tasks| && r.tasks[j].stream == i && r.tasks[j].job == job;
      assert after.tasks[j].stream == i && after.tasks[j].job == job;
    }
  }

  lemma {:induction false} TaskHasCause(r: TableRead, k: nat, session: Session)
    requires k < |r.tasks| && r.tasks[k].state.Running? && r.tasks[k].stream < |session.sources|
    requires r.cancelled ==> HasTableCause(r)
    ensures AfterTask(r, k, session).cancelled ==> HasTableCause(AfterTask(r, k, session))
  {
    var after, phase := AfterTask(r, k, session), r.tasks[k].state.phase;
    TaskLog(r, k, session);
    if phase.Failing? {
      assert IsReportingTask(after.tasks[k]);
    } else if r.cancelled && !r.aborted {
      if !NoErr(TableLog(r)) || phase.Reporting? {
        assert phase.Reporting? ==> Err(phase.error) in RunnerSends(phase);
        ErrStays(TableLog(r), RunnerSends(phase));
      } else if i: nat :| i < |r.streams| && r.streams[i].pendingError.Some? {
        assert after.streams[i] == r.streams[i];
      } else if j: nat :| j < |r.tasks| && IsReportingTask(r.tasks[j]) {
        assert after.tasks[j] == r.tasks[j];
      }
    }
  }

  lemma {:induction false} ErrStays(log: seq<Sent>, items: seq<Sent>)
    requires !NoErr(log) || !NoErr(items)
    ensures !NoErr(log + items)
  {
    if !NoErr(log) {
      var s :| s in log && !s.Ok?;
      assert s in log + items;
    } else {
      var s :| s in items && !s.Ok?;
      assert s in log + items;
    }
  }

  lemma {:induction false} SoundStays(r: TableRead, after: TableRead, sources: seq<Source>)
    requires |r.streams| == |sources| && AllSound(r, sources)
    requires after.streams == r.streams && (r.cancelled ==> after.cancelled) && (r.aborted ==> after.aborted)
    ensures AllSound(after, sources)
  {
    forall i | 0 <= i < |after.streams| ensures IsSound(after.streams[i], after.cancelled, after.aborted, sources[i]) {
      assert IsSound(r.streams[i], r.cancelled, r.aborted, sources[i]);
    }
  }

  lemma {:induction false} TaskKeeps(r: TableRead, k: nat, session: Session)
    requires TableInvariant(r, session) && k < |r.tasks| && r.tasks[k].state.Running?
    ensures TableInvariant(AfterTask(r, k, session), session)
  {
    assert IsSettled(r.tasks[k], r.cancelled, session.sources);
    TaskBalanced(r, k, session);
    TaskSettled(r, k, session);
    TaskTasked(r, k, session);
    TaskHasCause(r, k, session);
    TaskLog(r, k, session);
    SoundStays(r, AfterTask(r, k, session), session.sources);
  }

  // --- The other steps ---

  /** Steps that leave the tasks and what was enqueued alone, and may only cancel. */
  lemma {:induction false} QuietKeeps(r: TableRead, after: TableRead, session: Session)
    requires TableInvariant(r, session)
    requires after.tasks == r.tasks && |after.streams| == |r.streams|
    requires forall i | 0 <= i < |r.streams| :: after.streams[i].sys == r.streams[i].sys
    requires TableLog(after) == TableLog(r) || after.cancelled
    requires r.cancelled ==> after.cancelled
    ensures AreOf(after.tasks, session.sources) && IsBalanced(after, session.sources)
    ensures AllSettled(after, session.sources) && AllTasked(after)
  {
    assert StreamBags(after.streams, session.sources) == StreamBags(r.streams, session.sources);
    forall k | 0 <= k < |after.tasks| ensures IsSettled(after.tasks[k], after.cancelled, session.sources) {
      assert IsSettled(r.tasks[k], r.cancelled, session.sources);
    }
  }

  lemma {:induction false} SendPendingKeeps(r: TableRead, i: nat, session: Session)
    requires TableInvariant(r, session) && MayStep(r, SendPending(i), session)
    ensures TableInvariant(TableNext(r, SendPending(i), session), session)
  {
    var after, item := TableNext(r, SendPending(i), session), Err(r.streams[i].pendingError.value);
    assert IsSound(r.streams[i], r.cancelled, r.aborted, session.sources[i]);
    QuietKeeps(r, after, session);
    forall j | 0 <= j < |after.streams|
      ensures IsSound(after.streams[j], after.cancelled, after.aborted, session.sources[j])
    {
      assert IsSound(r.streams[j], r.cancelled, r.aborted, session.sources[j]);
    }
    if !r.aborted {
      assert r.received + (r.channel + [item]) == TableLog(r) + [item];
      OkRowsNext(TableLog(r), item);
    }
  }

  lemma {:induction false} Taken(received: seq<Sent>, channel: seq<Sent>)
    requires channel != []
    ensures received + [channel[0]] + channel[1..] == received + channel
  {
  }

  lemma {:induction false} ReceiveKeeps(r: TableRead, session: Session)
    requires TableInvariant(r, session) && MayStep(r, ReceiveNext, session)
    ensures TableInvariant(TableNext(r, ReceiveNext, session), session)
  {
    var after := TableNext(r, ReceiveNext, session);
    Taken(r.received, r.channel);
    QuietKeeps(r, after, session);
    SoundStays(r, after, session.sources);
    SameCause(r, after);
  }

  lemma {:induction false} SameCause(r: TableRead, after: TableRead)
    requires after.streams == r.streams && after.tasks == r.tasks && TableLog(after) == TableLog(r)
    requires r.cancelled ==> HasTableCause(r)
    requires after.cancelled ==> r.cancelled || after.aborted
    requires (r.aborted ==> after.aborted) && (r.schemaError ==> after.schemaError)
    ensures after.cancelled ==> HasTableCause(after)
  {
    if after.cancelled && !after.aborted && NoErr(TableLog(r)) {
      if i: nat :| i < |r.streams| && r.streams[i].pendingError.Some? {
        assert after.streams[i].pendingError.Some?;
      } else if k: nat :| k < |r.tasks| && IsReportingTask(r.tasks[k]) {
        assert IsReportingTask(after.tasks[k]);
      }
    }
  }

  lemma {:induction false} GiveUpKeeps(r: TableRead, s: TableStep, session: Session)
    requires TableInvariant(r, session) && MayStep(r, s, session) && (s.GiveUp? || s.KillStream?)
    ensures TableInvariant(TableNext(r, s, session), session)
  {
    var after := TableNext(r, s, session);
    QuietKeeps(r, after, session);
    forall j | 0 <= j < |after.streams|
      ensures IsSound(after.streams[j], after.cancelled, after.aborted, session.sources[j])
    {
      assert IsSound(r.streams[j], r.cancelled, r.aborted, session.sources[j]);
    }
  }

  /** Every step of every reader, job and of the receiver keeps the invariant. */
  lemma {:induction false} TableStepKeeps(r: TableRead, s: TableStep, session: Session)
    requires TableInvariant(r, session) && MayStep(r, s, session)
    ensures TableInvariant(TableNext(r, s, session), session)
  {
    match s
    case StreamStep(i, e) => StreamKeeps(r, i, e, session);
    case SendPending(i) => SendPendingKeeps(r, i, session);
    case RunTask(k) => TaskKeeps(r, k, session);
    case ReceiveNext => ReceiveKeeps(r, session);
    case GiveUp => GiveUpKeeps(r, s, session);
    case KillStream(i) => GiveUpKeeps(r, s, session);
  }

  // --- Runs ---

  predicate IsTableRun(r: TableRead, steps: seq<TableStep>, session: Session)
    requires |r.streams| == |session.sources|
    decreases |steps|
  {
    steps == []
    || (MayStep(r, steps[0], session) && IsTableRun(TableNext(r, steps[0], session), steps[1..], session))
  }

  function TableAfter(r: TableRead, steps: seq<TableStep>, session: Session): (after: TableRead)
    requires |r.streams| == |session.sources| && IsTableRun(r, steps, session)
    ensures |after.streams| == |session.sources|
    decreases |steps|
  {
    if steps == [] then r else TableAfter(TableNext(r, steps[0], session), steps[1..], session)
  }

  /** `read_table`: one reader per stream, each from its first row, all knowing the session's schema. */
  function NewTableRead(schema: Bytes, streams: nat): TableRead {
    TableRead(seq(streams, (i: nat) => Stream(System(NewReader(0, Some(schema), None), 0, false), false, None)),
              [], [], [], false, false, false)
  }

  lemma {:induction false} NewTableReadStarts(schema: Bytes, session: Session)
    ensures TableInvariant(NewTableRead(schema, |session.sources|), session)
  {
    var r := NewTableRead(schema, |session.sources|);
    forall i | 0 <= i < |r.streams| ensures EnqueuedRows(r.streams[i], session.sources[i]) == multiset{} {
    }
    NothingIn(StreamBags(r.streams, session.sources));
    assert TableLog(r) == [] && TaskBags(r.tasks, session.sources) == [];
  }

  lemma {:induction false} NothingIn(bags: seq<multiset<Row>>)
    requires forall i | 0 <= i < |bags| :: bags[i] == multiset{}
    ensures Bags(bags) == multiset{}
  {
    if bags != [] {
      NothingIn(bags[..|bags| - 1]);
    }
  }

  lemma {:induction false} TableRunKeeps(r: TableRead, steps: seq<TableStep>, session: Session)
    requires TableInvariant(r, session) && IsTableRun(r, steps, session)
    ensures TableInvariant(TableAfter(r, steps, session), session)
    decreases |steps|
  {
    if steps != [] {
      TableStepKeeps(r, steps[0], session);
      TableRunKeeps(TableNext(r, steps[0], session), steps[1..], session);
    }
  }

  // --- The end ---

  /** All senders are gone: `recv` returns `None`. */
  predicate IsAtEnd(r: TableRead) {
    && r.channel == []
    && (forall i | 0 <= i < |r.streams| ::
          r.streams[i].killed || (r.streams[i].sys.reader.state.Terminated? && r.streams[i].pendingError.None?))
    && forall k | 0 <= k < |r.tasks| :: r.tasks[k].state.Fetching?
  }

  function RowBags(sources: seq<Source>): (bags: seq<multiset<Row>>)
    ensures |bags| == |sources|
  {
    seq(|sources|, i requires 0 <= i < |sources| => multiset(sources[i].rows))
  }

  lemma {:induction false} NotCancelledAtEnd(r: TableRead, session: Session)
    requires TableInvariant(r, session) && IsAtEnd(r) && NoErr(r.received) && !r.aborted && !r.schemaError
    ensures !r.cancelled && TableLog(r) == r.received
  {
    assert TableLog(r) == r.received;
    forall i | 0 <= i < |r.streams| ensures r.streams[i].pendingError.None? {
      assert IsSound(r.streams[i], r.cancelled, r.aborted, session.sources[i]);
    }
  }

  lemma {:induction false} StreamAllRead(r: TableRead, i: nat, session: Session)
    requires TableInvariant(r, session) && IsAtEnd(r) && !r.cancelled && i < |r.streams|
    requires r.streams[i].sys.reader.state != Terminated(SwitchToReadSession)
    ensures EnqueuedRows(r.streams[i], session.sources[i]) == multiset(session.sources[i].rows)
  {
    var s, source := r.streams[i], session.sources[i];
    assert IsSound(s, r.cancelled, r.aborted, source);
    forall job | job in Enqueued(s.sys) ensures Decodes(job, source.decoder) {
      assert HasTask(r.tasks, i, job);
      var k :| 0 <= k < |r.tasks| && r.tasks[k].stream == i && r.tasks[k].job == job;
      assert IsSettled(r.tasks[k], r.cancelled, session.sources);
    }
    SumIs(Enqueued(s.sys), source.decoder);
    assert source.rows[0..] == source.rows;
  }

  lemma {:induction false} NothingOwed(r: TableRead, session: Session)
    requires AreOf(r.tasks, session.sources) && IsAtEnd(r)
    ensures OwedAll(r.tasks, session.sources) == multiset{}
  {
    NothingIn(TaskBags(r.tasks, session.sources));
  }

  predicate NoneSwitched(r: TableRead) {
    forall i | 0 <= i < |r.streams| :: r.streams[i].sys.reader.state != Terminated(SwitchToReadSession)
  }

  /** A clean end: no error was received, the receiver did not give up, and no reader gave way. */
  predicate EndsCleanly(r: TableRead) {
    IsAtEnd(r) && NoErr(r.received) && !r.aborted && !r.schemaError && NoneSwitched(r)
  }

  /** An unordered read that ends cleanly has delivered every row of every stream exactly once, whatever the
      readers, the jobs and the server did. */
  lemma {:induction false} CleanEndMeansAllRows(r: TableRead, session: Session)
    requires TableInvariant(r, session) && EndsCleanly(r)
    ensures multiset(OkRows(r.received)) == Bags(RowBags(session.sources))
  {
    NotCancelledAtEnd(r, session);
    NothingOwed(r, session);
    forall i | 0 <= i < |r.streams|
      ensures StreamBags(r.streams, session.sources)[i] == RowBags(session.sources)[i]
    {
      StreamAllRead(r, i, session);
    }
    assert StreamBags(r.streams, session.sources) == RowBags(session.sources);
  }

  /** Over every run from any start that meets the invariant. */
  lemma {:induction false} UnorderedReadDelivers(start: TableRead, steps: seq<TableStep>, session: Session)
    requires TableInvariant(start, session) && IsTableRun(start, steps, session)
    ensures
      var r := TableAfter(start, steps, session);
      EndsCleanly(r) ==> multiset(OkRows(r.received)) == Bags(RowBags(session.sources))
  {
    TableRunKeeps(start, steps, session);
    if EndsCleanly(TableAfter(start, steps, session)) {
      CleanEndMeansAllRows(TableAfter(start, steps, session), session);
    }
  }

  // --- Other starts ---

  /** `read_stream` without order: one stream, perhaps without its schema, perhaps with a first-page check. */
  function NewStreamRead(metadata: Option<Bytes>, check: Option<FirstPageCheck>): TableRead {
    TableRead([Stream(System(NewReader(0, metadata, check), 0, false), false, None)], [], [], [], false, false, false)
  }

  /** `read_query_stream` without order, once the first page is enqueued. */
  function NewPageRead(page: DecodeJob, hasMore: bool): TableRead {
    TableRead([Stream(QueryRead(page, hasMore).sys, false, None)], TasksOf(0, [page]), [], [], false, false, false)
  }

  lemma {:induction false} OneBag(bag: multiset<Row>)
    ensures Bags([bag]) == bag
  {
    assert [bag][..0] == [];
  }

  lemma {:induction false} NewStreamReadStarts(metadata: Option<Bytes>, check: Option<FirstPageCheck>, session: Session)
    requires |session.sources| == 1
    ensures TableInvariant(NewStreamRead(metadata, check), session)
  {
    var r := NewStreamRead(metadata, check);
    NothingIn(StreamBags(r.streams, session.sources));
    assert TableLog(r) == [] && TaskBags(r.tasks, session.sources) == [];
  }

  lemma {:induction false} NewPageReadStarts(page: DecodeJob, hasMore: bool, session: Session)
    requires |session.sources| == 1 && HonestPage(page, hasMore, session.sources[0])
    ensures TableInvariant(NewPageRead(page, hasMore), session)
  {
    var r := NewPageRead(page, hasMore);
    PageInStep(page, hasMore, session.sources[0]);
    PageEnqueued(page, hasMore);
    NewPageBalanced(page, hasMore, session.sources);
    assert r.tasks[0] == Task(0, page, Running(page, Fetched));
    assert HasTask(r.tasks, 0, page);
  }

  lemma {:induction false} PageEnqueued(page: DecodeJob, hasMore: bool)
    ensures Enqueued(QueryRead(page, hasMore).sys) == [page]
  {
    assert Pushed([Push(page)][1..]) == [];
  }

  lemma {:induction false} NewPageBalanced(page: DecodeJob, hasMore: bool, sources: seq<Source>)
    requires |sources| == 1
    ensures AreOf(NewPageRead(page, hasMore).tasks, sources) && IsBalanced(NewPageRead(page, hasMore), sources)
  {
    var r := NewPageRead(page, hasMore);
    var t, good := Task(0, page, Running(page, Fetched)), GoodRows(page, sources[0].decoder);
    assert r.tasks == [t] && IsOf(t, sources) && Owed(t, sources) == good;
    PageEnqueued(page, hasMore);
    SumNext([], [page], sources[0].decoder);
    assert [] + [page] == [page];
    assert EnqueuedRows(r.streams[0], sources[0]) == good;
    assert StreamBags(r.streams, sources) == [good];
    assert TaskBags([t], sources) == [good];
    OneBag(good);
    assert TableLog(r) == [];
  }
}
