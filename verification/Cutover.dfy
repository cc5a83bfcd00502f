/** A query read that gives way to a read session (lib.rs:529-551, 590-624): the job's reader, then the
    session's readers, over one flag, one channel and one receiver, or the error of opening the session. */
module Cutover {
  import opened Values
  import opened Decoding
  import opened ReadStreams
  import opened StreamRuns
  import opened ExactlyOnce
  import opened Delivery
  import opened OrderedDelivery
  import opened ReaderEffects
  import opened Receiver
  import opened TableReads
  import opened TableDelivery

  /** Reading the job's stream, reading the session that replaced it, or without a session to read. */
  datatype Stage = FromJob | FromSession | NoSession

  datatype CutoverRead = CutoverRead(read: TableRead, stage: Stage)

  datatype CutoverStep = Go(s: TableStep) | OpenSession | FailToOpen(error: ReadError)

  /** The job's one stream and the session over its destination table. */
  datatype Sides = Sides(job: Session, session: Session, schema: Bytes)

  function Current(c: CutoverRead, sides: Sides): Session {
    if c.stage.FromSession? then sides.session else sides.job
  }

  /** The job's reader has given way and its task goes on. */
  predicate GaveWay(c: CutoverRead) {
    && c.stage.FromJob? && |c.read.streams| == 1
    && c.read.streams[0].sys.reader.state == Terminated(SwitchToReadSession)
    && !c.read.streams[0].killed && c.read.streams[0].pendingError.None?
  }

  predicate CutoverMay(c: CutoverRead, s: CutoverStep, sides: Sides) {
    match s
    case Go(t) => |c.read.streams| == |Current(c, sides).sources| && MayStep(c.read, t, Current(c, sides))
    case OpenSession => GaveWay(c)
    case FailToOpen(_) => GaveWay(c)
  }

  /** The session's readers take over the channel and whatever is in it; failing to open the session cancels and
      sends the error. */
  function CutoverNext(c: CutoverRead, s: CutoverStep, sides: Sides): CutoverRead
    requires CutoverMay(c, s, sides)
  {
    match s
    case Go(t) => c.(read := TableNext(c.read, t, Current(c, sides)))
    case OpenSession =>
      CutoverRead(c.read.(streams := NewTableRead(sides.schema, |sides.session.sources|).streams), FromSession)
    case FailToOpen(error) =>
      CutoverRead(c.read.(streams := [c.read.streams[0].(pendingError := Some(error))], cancelled := true), NoSession)
  }

  // --- Until the cutover nothing has been delivered ---

  predicate NoBatches(log: seq<Sent>) { forall s | s in log :: s.Err? }

  /** While the job's reader has enqueued nothing there are no jobs and no batches. */
  predicate IsUntouched(r: TableRead) {
    && |r.streams| == 1 && Orderly(r.streams[0].sys.reader)
    && (Enqueued(r.streams[0].sys) == [] ==> r.tasks == [] && NoBatches(TableLog(r)))
  }

  lemma {:induction false} ReaderLeavesUntouched(r: TableRead, e: Event, job: Session)
    requires IsUntouched(r) && |job.sources| == 1 && StreamMay(r, 0, e, job)
    ensures IsUntouched(AfterReader(r, 0, e, job))
  {
    var s := r.streams[0];
    NextOrderly(s.sys.reader, e, job.config);
    PushedNext(s.sys.reader, e, job.config);
    var pushed := Pushed(NewActions(s.sys.reader, e, job.config));
    if Enqueued(s.sys) + pushed == [] {
      assert pushed == [] && r.tasks + TasksOf(0, pushed) == r.tasks;
    }
  }

  lemma {:induction false} StepLeavesUntouched(r: TableRead, s: TableStep, job: Session)
    requires IsUntouched(r) && |job.sources| == 1 && MayStep(r, s, job)
    ensures IsUntouched(TableNext(r, s, job))
  {
    match s
    case StreamStep(_, e) => ReaderLeavesUntouched(r, e, job);
    case ReceiveNext => Taken(r.received, r.channel);
    case _ =>
  }

  predicate HasNoChecks(r: TableRead) {
    forall i | 0 <= i < |r.streams| ::
      r.streams[i].sys.reader.check.None? && r.streams[i].sys.reader.state != Terminated(SwitchToReadSession)
  }

  lemma {:induction false} StepKeepsNoChecks(r: TableRead, s: TableStep, session: Session)
    requires HasNoChecks(r) && |r.streams| == |session.sources| && MayStep(r, s, session)
    ensures HasNoChecks(TableNext(r, s, session))
  {
    if s.StreamStep? {
      NoCheckNoSwitch(r.streams[s.i].sys.reader, s.e, session.config);
    }
  }

  // --- The invariant ---

  predicate CutoverInvariant(c: CutoverRead, sides: Sides) {
    && |sides.job.sources| == 1 && TableInvariant(c.read, Current(c, sides))
    && (c.stage.FromJob? ==> IsUntouched(c.read))
    && (c.stage.FromSession? ==> HasNoChecks(c.read))
    && (c.stage.NoSession? ==> c.read.cancelled)
  }

  lemma {:induction false} CancelledStays(r: TableRead, s: TableStep, session: Session)
    requires r.cancelled && |r.streams| == |session.sources| && MayStep(r, s, session)
    ensures TableNext(r, s, session).cancelled
  {
  }

  lemma {:induction false} NothingSent(log: seq<Sent>)
    requires NoBatches(log)
    ensures OkRows(log) == []
  {
  }

  lemma {:induction false} SessionStarts(r: TableRead, session: Session, schema: Bytes)
    requires r.tasks == [] && NoBatches(TableLog(r))
    requires (r.cancelled ==> r.aborted || r.schemaError || !NoErr(TableLog(r)))
    requires r.aborted ==> r.cancelled
    requires !r.cancelled ==> NoErr(TableLog(r))
    ensures TableInvariant(r.(streams := NewTableRead(schema, |session.sources|).streams), session)
  {
    var after := r.(streams := NewTableRead(schema, |session.sources|).streams);
    NewTableReadStarts(schema, session);
    NothingSent(TableLog(r));
    assert after.tasks == NewTableRead(schema, |session.sources|).tasks;
    forall i | 0 <= i < |after.streams|
      ensures IsSound(after.streams[i], after.cancelled, after.aborted, session.sources[i])
    {
      assert IsSound(after.streams[i], false, false, session.sources[i]);
    }
  }

  lemma {:induction false} OpenKeeps(c: CutoverRead, sides: Sides)
    requires CutoverInvariant(c, sides) && GaveWay(c)
    ensures CutoverInvariant(CutoverNext(c, OpenSession, sides), sides)
  {
    assert Enqueued(c.read.streams[0].sys) == [];
    SessionStarts(c.read, sides.session, sides.schema);
  }

  lemma {:induction false} FailKeeps(c: CutoverRead, error: ReadError, sides: Sides)
    requires CutoverInvariant(c, sides) && GaveWay(c)
    ensures CutoverInvariant(CutoverNext(c, FailToOpen(error), sides), sides)
  {
    var r, after := c.read, CutoverNext(c, FailToOpen(error), sides).read;
    QuietKeeps(r, after, sides.job);
    assert IsSound(r.streams[0], r.cancelled, r.aborted, sides.job.sources[0]);
    assert after.streams[0].pendingError.Some?;
  }

  lemma {:induction false} CutoverKeeps(c: CutoverRead, s: CutoverStep, sides: Sides)
    requires CutoverInvariant(c, sides) && CutoverMay(c, s, sides)
    ensures CutoverInvariant(CutoverNext(c, s, sides), sides)
  {
    match s
    case Go(t) =>
      TableStepKeeps(c.read, t, Current(c, sides));
      match c.stage {
        case FromJob => StepLeavesUntouched(c.read, t, sides.job);
        case FromSession => StepKeepsNoChecks(c.read, t, sides.session);
        case NoSession => CancelledStays(c.read, t, sides.job);
      }
    case OpenSession => OpenKeeps(c, sides);
    case FailToOpen(error) => FailKeeps(c, error, sides);
  }

  /** A reader that has given way, in a read nobody has cancelled, lets the session be opened; then every stream of the
      session is read from its first row under the job's schema, and nothing was delivered before. */
  lemma {:induction false} GivingWayOpens(c: CutoverRead, sides: Sides)
    requires CutoverInvariant(c, sides) && c.stage.FromJob? && !c.read.cancelled
    requires c.read.streams[0].sys.reader.state == Terminated(SwitchToReadSession)
    ensures CutoverMay(c, OpenSession, sides)
    ensures
      var next := CutoverNext(c, OpenSession, sides);
      && next.stage.FromSession? && |next.read.streams| == |sides.session.sources|
      && (forall i | 0 <= i < |next.read.streams| ::
            next.read.streams[i].sys == System(NewReader(0, Some(sides.schema), None), 0, false))
      && OkRows(TableLog(next.read)) == [] && NoErr(TableLog(next.read)) && !next.read.cancelled
  {
    assert IsSound(c.read.streams[0], c.read.cancelled, c.read.aborted, sides.job.sources[0]);
    NothingSent(TableLog(c.read));
  }

  // --- Runs ---

  predicate IsCutoverRun(c: CutoverRead, steps: seq<CutoverStep>, sides: Sides)
    decreases |steps|
  {
    steps == [] || (CutoverMay(c, steps[0], sides) && IsCutoverRun(CutoverNext(c, steps[0], sides), steps[1..], sides))
  }

  function CutoverAfter(c: CutoverRead, steps: seq<CutoverStep>, sides: Sides): CutoverRead
    requires IsCutoverRun(c, steps, sides)
    decreases |steps|
  {
    if steps == [] then c else CutoverAfter(CutoverNext(c, steps[0], sides), steps[1..], sides)
  }

  lemma {:induction false} CutoverRunKeeps(c: CutoverRead, steps: seq<CutoverStep>, sides: Sides)
    requires CutoverInvariant(c, sides) && IsCutoverRun(c, steps, sides)
    ensures CutoverInvariant(CutoverAfter(c, steps, sides), sides)
    decreases |steps|
  {
    if steps != [] {
      CutoverKeeps(c, steps[0], sides);
      CutoverRunKeeps(CutoverNext(c, steps[0], sides), steps[1..], sides);
    }
  }

  /** All senders are gone, that of the task that opens the session as well; no error was received and the receiver
      did not give up. */
  predicate CutoverEndsCleanly(c: CutoverRead) {
    IsAtEnd(c.read) && !GaveWay(c) && NoErr(c.read.received) && !c.read.aborted && !c.read.schemaError
  }

  lemma {:induction false} CleanEndNotSwitched(c: CutoverRead, sides: Sides)
    requires CutoverInvariant(c, sides) && CutoverEndsCleanly(c)
    ensures !c.stage.NoSession? && EndsCleanly(c.read)
  {
    NotCancelledAtEnd(c.read, Current(c, sides));
    if c.stage.FromJob? {
      JobNotSwitched(c, sides.job.sources[0]);
    }
  }

  lemma {:induction false} JobNotSwitched(c: CutoverRead, source: Source)
    requires c.stage.FromJob? && |c.read.streams| == 1 && IsAtEnd(c.read) && !GaveWay(c) && !c.read.aborted
    requires IsSound(c.read.streams[0], c.read.cancelled, c.read.aborted, source)
    ensures NoneSwitched(c.read)
  {
    var s := c.read.streams[0];
    assert s.killed || (s.sys.reader.state.Terminated? && s.pendingError.None?);
    assert !s.killed;
  }

  lemma {:induction false} CutoverStarts(metadata: Option<Bytes>, check: Option<FirstPageCheck>, sides: Sides)
    requires |sides.job.sources| == 1
    ensures CutoverInvariant(CutoverRead(NewStreamRead(metadata, check), FromJob), sides)
  {
    NewStreamReadStarts(metadata, check, sides.job);
    NewReaderOrderly(0, metadata, check);
    assert TableLog(NewStreamRead(metadata, check)) == [];
  }

  lemma {:induction false} CleanEndMeansResult(c: CutoverRead, sides: Sides)
    requires CutoverInvariant(c, sides) && CutoverEndsCleanly(c)
    requires Bags(RowBags(sides.session.sources)) == multiset(sides.job.sources[0].rows)
    ensures multiset(OkRows(c.read.received)) == multiset(sides.job.sources[0].rows)
  {
    CleanEndNotSwitched(c, sides);
    CleanEndMeansAllRows(c.read, Current(c, sides));
    var rows := sides.job.sources[0].rows;
    assert RowBags(sides.job.sources) == [multiset(rows)];
    OneBag(multiset(rows));
  }

  /** One run from the job's first message to the end of the session: whenever the reader gives way, and whatever
      happens then, a clean end means that every row of the result was delivered once. */
  lemma {:induction false} CutoverReadDelivers(metadata: Option<Bytes>, check: Option<FirstPageCheck>,
                                               steps: seq<CutoverStep>, sides: Sides)
    requires |sides.job.sources| == 1 && Bags(RowBags(sides.session.sources)) == multiset(sides.job.sources[0].rows)
    requires IsCutoverRun(CutoverRead(NewStreamRead(metadata, check), FromJob), steps, sides)
    ensures
      var c := CutoverAfter(CutoverRead(NewStreamRead(metadata, check), FromJob), steps, sides);
      CutoverEndsCleanly(c) ==> multiset(OkRows(c.read.received)) == multiset(sides.job.sources[0].rows)
  {
    var start := CutoverRead(NewStreamRead(metadata, check), FromJob);
    CutoverStarts(metadata, check, sides);
    CutoverRunKeeps(start, steps, sides);
    var c := CutoverAfter(start, steps, sides);
    if CutoverEndsCleanly(c) {
      CleanEndMeansResult(c, sides);
    }
  }
}
