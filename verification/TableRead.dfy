/** An unordered read: any number of readers, one per stream, decode jobs that run in any order and at the
    same time, one cancellation flag and one channel. Polars scans read tables this way. */
module TableReads {
  import opened Values
  import opened Decoding
  import opened ReadStreams
  import opened StreamRuns
  import opened ExactlyOnce
  import opened Delivery

  /** One stream's reader; `pendingError` is an error it is about to send. */
  datatype Stream = Stream(sys: System, killed: bool, pendingError: Option<ReadError>)

  /** A decode job of a stream; it is over once its state is `Fetching`. */
  datatype Task = Task(stream: nat, job: DecodeJob, state: Drainer)

  datatype TableRead = TableRead(
    streams: seq<Stream>,
    tasks: seq<Task>,
    channel: seq<Sent>,
    received: seq<Sent>,
    cancelled: bool,
    aborted: bool,
    schemaError: bool)

  datatype TableStep =
    | StreamStep(i: nat, e: Event)
    | SendPending(i: nat)
    | RunTask(k: nat)
    | ReceiveNext
    | GiveUp
    | KillStream(i: nat)

  /** The streams of the session and what the readers need to know. */
  datatype Session = Session(config: Config, sources: seq<Source>)

  predicate StreamMay(r: TableRead, i: nat, e: Event, session: Session)
    requires i < |r.streams| == |session.sources|
  {
    var s := r.streams[i];
    && !s.killed && s.pendingError.None? && Enabled(s.sys.reader.state, e) && Honest(s.sys, e, session.sources[i])
    && (e.CancelSeen? ==> r.cancelled)
    && (Enqueues(s.sys.reader, e, session.config) ==> if e.slotGranted then !r.aborted else r.cancelled || r.aborted)
  }

  predicate MayStep(r: TableRead, s: TableStep, session: Session)
    requires |r.streams| == |session.sources|
  {
    match s
    case StreamStep(i, e) => i < |r.streams| && StreamMay(r, i, e, session)
    case SendPending(i) => i < |r.streams| && !r.streams[i].killed && r.streams[i].pendingError.Some?
    case RunTask(k) => k < |r.tasks| && r.tasks[k].state.Running? && r.tasks[k].stream < |r.streams|
    case ReceiveNext => r.channel != []
    case GiveUp => true
    case KillStream(i) => i < |r.streams| && r.aborted
  }

  function ErrorOf(actions: seq<Action>): Option<ReadError> {
    if actions == [] then None
    else if actions[0].SendError? then Some(actions[0].error)
    else ErrorOf(actions[1..])
  }

  function TasksOf(i: nat, jobs: seq<DecodeJob>): (tasks: seq<Task>)
    ensures |tasks| == |jobs|
  {
    seq(|jobs|, k requires 0 <= k < |jobs| => Task(i, jobs[k], Running(jobs[k], Fetched)))
  }

  function AfterReader(r: TableRead, i: nat, e: Event, session: Session): TableRead
    requires i < |r.streams| == |session.sources| && StreamMay(r, i, e, session)
  {
    var s := r.streams[i];
    var actions := NewActions(s.sys.reader, e, session.config);
    r.(streams := r.streams[i := s.(sys := SystemNext(s.sys, e, session.config, session.sources[i]),
                                       pendingError := ErrorOf(actions))],
       tasks := r.tasks + TasksOf(i, Pushed(actions)),
       cancelled := r.cancelled || SetCancel in actions,
       schemaError := r.schemaError || FailsSchema(actions))
  }

  function SendAll(r: TableRead, items: seq<Sent>): TableRead {
    if r.aborted then r else r.(channel := r.channel + items)
  }

  function AfterTask(r: TableRead, k: nat, session: Session): TableRead
    requires k < |r.tasks| && r.tasks[k].state.Running? && r.tasks[k].stream < |session.sources|
  {
    var t := r.tasks[k];
    var next := RunnerNext(r.cancelled, r.aborted, t.job, t.state.phase, session.sources[t.stream].decoder);
    SendAll(r.(tasks := r.tasks[k := t.(state := next)], cancelled := r.cancelled || t.state.phase.Failing?),
            RunnerSends(t.state.phase))
  }

  function TableNext(r: TableRead, s: TableStep, session: Session): TableRead
    requires |r.streams| == |session.sources| && MayStep(r, s, session)
  {
    match s
    case StreamStep(i, e) => AfterReader(r, i, e, session)
    case SendPending(i) =>
      SendAll(r.(streams := r.streams[i := r.streams[i].(pendingError := None)]),
              [Err(r.streams[i].pendingError.value)])
    case RunTask(k) => AfterTask(r, k, session)
    case ReceiveNext =>
      var taken := r.(channel := r.channel[1..], received := r.received + [r.channel[0]]);
      if r.channel[0].Err? then taken.(cancelled := true, aborted := true) else taken
    case GiveUp => r.(cancelled := true, aborted := true)
    case KillStream(i) => r.(streams := r.streams[i := r.streams[i].(killed := true, pendingError := None)])
  }

  // --- Counting rows ---

  function GoodRows(job: DecodeJob, decoder: Decoder): multiset<Row> {
    if Decodes(job, decoder) then multiset(JobRows(job, decoder)) else multiset{}
  }

  function Sum(jobs: seq<DecodeJob>, decoder: Decoder): multiset<Row> {
    if jobs == [] then multiset{} else Sum(jobs[..|jobs| - 1], decoder) + GoodRows(jobs[|jobs| - 1], decoder)
  }

  function Bags(bags: seq<multiset<Row>>): multiset<Row> {
    if bags == [] then multiset{} else Bags(bags[..|bags| - 1]) + bags[|bags| - 1]
  }

  lemma {:induction false} BagsNext(bags: seq<multiset<Row>>, bag: multiset<Row>)
    ensures Bags(bags + [bag]) == Bags(bags) + bag
  {
    assert (bags + [bag])[..|bags|] == bags;
  }

  lemma {:induction false} BagsAt(bags: seq<multiset<Row>>, i: nat, bag: multiset<Row>)
    requires i < |bags|
    ensures Bags(bags[i := bag]) + bags[i] == Bags(bags) + bag
    decreases |bags|
  {
    var n, last := |bags| - 1, bags[|bags| - 1];
    var after := bags[i := bag];
    if i < n {
      BagsAt(bags[..n], i, bag);
      assert after[..n] == bags[..n][i := bag];
      Swapped(Bags(after[..n]), last, bags[i]);
      Swapped(Bags(bags[..n]), bag, last);
    } else {
      assert after[..n] == bags[..n];
      Swapped(Bags(bags[..n]), bag, last);
    }
  }

  lemma {:induction false} Swapped(a: multiset<Row>, b: multiset<Row>, c: multiset<Row>)
    ensures a + b + c == a + c + b
  {
  }

  function EnqueuedRows(s: Stream, source: Source): multiset<Row> { Sum(Enqueued(s.sys), source.decoder) }

  function StreamBags(streams: seq<Stream>, sources: seq<Source>): (bags: seq<multiset<Row>>)
    requires |streams| == |sources|
    ensures |bags| == |streams|
  {
    seq(|streams|, i requires 0 <= i < |streams| => EnqueuedRows(streams[i], sources[i]))
  }

  /** The rows of all jobs ever enqueued. */
  function Total(streams: seq<Stream>, sources: seq<Source>): multiset<Row>
    requires |streams| == |sources|
  {
    Bags(StreamBags(streams, sources))
  }

  /** The rows a task has still to send. */
  function Owed(t: Task, sources: seq<Source>): multiset<Row>
    requires t.stream < |sources|
  {
    if t.state.Fetching? then multiset{}
    else match t.state.phase
      case Fetched => GoodRows(t.job, sources[t.stream].decoder)
      case Decode => GoodRows(t.job, sources[t.stream].decoder)
      case First(batches) => multiset(RowsOf(batches))
      case More(batches) => multiset(RowsOf(batches))
      case Blocked(batches) => multiset(RowsOf(batches))
      case _ => multiset{}
  }

  predicate IsOf(t: Task, sources: seq<Source>) {
    t.stream < |sources| && (t.state.Running? ==> t.state.job == t.job)
  }

  predicate AreOf(tasks: seq<Task>, sources: seq<Source>) {
    forall k | 0 <= k < |tasks| :: IsOf(tasks[k], sources)
  }

  function TaskBags(tasks: seq<Task>, sources: seq<Source>): (bags: seq<multiset<Row>>)
    requires AreOf(tasks, sources)
    ensures |bags| == |tasks|
  {
    seq(|tasks|, k requires 0 <= k < |tasks| => Owed(tasks[k], sources))
  }

  function OwedAll(tasks: seq<Task>, sources: seq<Source>): multiset<Row>
    requires AreOf(tasks, sources)
  {
    Bags(TaskBags(tasks, sources))
  }

  lemma {:induction false} SumIs(jobs: seq<DecodeJob>, decoder: Decoder)
    requires AllDecode(jobs, decoder)
    ensures Sum(jobs, decoder) == multiset(SoundRows(jobs, decoder))
    decreases |jobs|
  {
    if jobs != [] {
      var before, job := jobs[..|jobs| - 1], jobs[|jobs| - 1];
      assert jobs == before + [job];
      SumIs(before, decoder);
      SoundRowsNext(before, job, decoder);
    }
  }

  lemma {:induction false} SumNext(jobs: seq<DecodeJob>, more: seq<DecodeJob>, decoder: Decoder)
    requires |more| <= 1
    ensures Sum(jobs + more, decoder)
         == Sum(jobs, decoder) + if more == [] then multiset{} else GoodRows(more[0], decoder)
  {
    if more == [] {
      assert jobs + more == jobs;
    } else {
      assert (jobs + more)[..|jobs|] == jobs;
    }
  }

  lemma {:induction false} TotalAt(streams: seq<Stream>, sources: seq<Source>, i: nat, s: Stream)
    requires i < |streams| == |sources|
    ensures Total(streams[i := s], sources) + EnqueuedRows(streams[i], sources[i])
         == Total(streams, sources) + EnqueuedRows(s, sources[i])
  {
    BagsAt(StreamBags(streams, sources), i, EnqueuedRows(s, sources[i]));
    assert StreamBags(streams[i := s], sources) == StreamBags(streams, sources)[i := EnqueuedRows(s, sources[i])];
  }

  lemma {:induction false} OwedAt(tasks: seq<Task>, sources: seq<Source>, k: nat, t: Task)
    requires k < |tasks| && AreOf(tasks, sources) && IsOf(t, sources)
    ensures AreOf(tasks[k := t], sources)
    ensures OwedAll(tasks[k := t], sources) + Owed(tasks[k], sources) == OwedAll(tasks, sources) + Owed(t, sources)
  {
    BagsAt(TaskBags(tasks, sources), k, Owed(t, sources));
    assert TaskBags(tasks[k := t], sources) == TaskBags(tasks, sources)[k := Owed(t, sources)];
  }

  lemma {:induction false} OwedNext(tasks: seq<Task>, sources: seq<Source>, i: nat, jobs: seq<DecodeJob>)
    requires AreOf(tasks, sources) && i < |sources| && |jobs| <= 1
    ensures AreOf(tasks + TasksOf(i, jobs), sources)
    ensures OwedAll(tasks + TasksOf(i, jobs), sources)
         == OwedAll(tasks, sources) + if jobs == [] then multiset{} else GoodRows(jobs[0], sources[i].decoder)
  {
    if jobs == [] {
      assert tasks + TasksOf(i, jobs) == tasks;
    } else {
      var t := TasksOf(i, jobs)[0];
      assert tasks + TasksOf(i, jobs) == tasks + [t];
      BagsNext(TaskBags(tasks, sources), Owed(t, sources));
      assert TaskBags(tasks + [t], sources) == TaskBags(tasks, sources) + [Owed(t, sources)];
    }
  }
}
