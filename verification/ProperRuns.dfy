/** The reader does its job: with a proper server, slots for its batches and errors worth retrying, it goes
    on until it has enqueued the whole stream. */
module ProperRuns {
  import opened Values
  import opened Decoding
  import opened ReadStreams
  import opened StreamRuns
  import opened ExactlyOnce

  predicate IsHeartbeat(msg: Message) { msg.schema.NoSchema? && msg.rows.NoRows? && msg.rowCount == 0 }

  predicate HasPayload(msg: Message) { msg.rows.ArrowRows? && msg.rows.payload != [] }

  /** A heartbeat; or rows in Arrow format, as many as an offset can count, after a schema. */
  predicate IsProper(r: Reader, offset: int, msg: Message, config: Config) {
    || IsHeartbeat(msg)
    || (&& (r.metadata.Some? || (msg.schema.ArrowSchema? && config.parses(msg.schema.serialized)))
        && !msg.rows.OtherRows? && (HasPayload(msg) || msg.rowCount == 0)
        && msg.rowCount >= 0 && MIN_I64 <= offset + msg.rowCount <= MAX_I64)
  }

  /** The reader with the schema of the message, if it had none. */
  function Known(r: Reader, msg: Message): Reader {
    if r.metadata.None? && msg.schema.ArrowSchema? then WithSchema(r, msg.schema.serialized) else r
  }

  /** The first page shows that a read session had better read the rest. */
  predicate GivesWayAt(r: Reader, msg: Message)
    requires HasPayload(msg)
  {
    r.check.Some? && msg.rowCount >= 0 && GivesWay(r.check.value, |msg.rows.payload|, msg.rowCount, msg.totalRows)
  }

  /** What a proper message does when there is a slot. With a payload it is enqueued whole, unless the first-page
      check finds that the reader should give way; either way the check is done with. Without one it changes nothing
      but the schema and the retry count, and the check still waits for a page. */
  lemma {:induction false} ProperMessage(r: Reader, offset: int, msg: Message, config: Config)
    requires IsProper(r, offset, msg, config)
    ensures
      var after, known := AfterMessage(r, offset, msg, true, config), Known(r, msg);
      after == if !HasPayload(msg) then known.(state := Reading(offset, None))
               else if GivesWayAt(r, msg) then known.(state := Terminated(SwitchToReadSession), check := None)
               else known.(state := Reading(offset + msg.rowCount, None), check := None,
                           done := known.done
                                   + [Push(DecodeJob(msg.rows.payload, msg.rowCount, SchemaInForce(r, msg)))])
  {
    if HasPayload(msg) && r.check.Some? {
      SwitchesIff(r.check.value, msg.rows.payload, msg.rowCount, msg.totalRows);
    }
  }

  /** The schema of the message does not parse. */
  predicate IsUnparsable(r: Reader, msg: Message, config: Config) {
    r.metadata.None? && msg.schema.ArrowSchema? && !config.parses(msg.schema.serialized)
  }

  /** Everything the reader takes: a heartbeat; or rows in Arrow format after a schema, none without a payload, and
      with one neither less than none at a first page nor more than an offset can count. */
  predicate IsTaken(r: Reader, offset: int, msg: Message, config: Config) {
    || IsHeartbeat(msg)
    || (&& (r.metadata.Some? || msg.schema.ArrowSchema?) && !IsUnparsable(r, msg, config)
        && !msg.rows.OtherRows? && (HasPayload(msg) || msg.rowCount == 0)
        && (HasPayload(msg) ==>
              && (r.check.Some? ==> msg.rowCount >= 0)
              && (GivesWayAt(r, msg) || MIN_I64 <= offset + msg.rowCount <= MAX_I64)))
  }

  /** Every other message ends the read: cancellation, then an error of the protocol, or of Arrow where the schema
      does not parse; and nothing else does. */
  lemma {:induction false} RefusedIff(r: Reader, offset: int, msg: Message, slotGranted: bool, config: Config)
    ensures
      var after, known := AfterMessage(r, offset, msg, slotGranted, config), Known(r, msg);
      if IsTaken(r, offset, msg, config) then
        after.done == known.done || (after.done[..|after.done| - 1] == known.done && after.done[|known.done|].Push?)
      else if IsUnparsable(r, msg, config) then
        after.done == r.done + FatalActions(r, Arrow) && after.state == Terminated(Finished)
      else
        after.done == known.done + FatalActions(known, Protocol) && after.state == Terminated(Finished)
  {
    if HasPayload(msg) && r.check.Some? && msg.rowCount >= 0 {
      SwitchesIff(r.check.value, msg.rows.payload, msg.rowCount, msg.totalRows);
    }
  }

  predicate IsRetried(attempts: nat, f: Failure, config: Config) {
    f.retryable && attempts + 1 < config.maximumAttempts && !(f.throttled && f.throttleExhausted) && !f.outOfTime
  }

  /** Nothing happens that the reader is not made to survive, and reported row counts are right. */
  predicate IsTolerable(sys: System, e: Event, config: Config, src: Source) {
    var r := sys.reader;
    match e
    case CancelSeen => false
    case ConnectFailed(f) => r.state.Connecting? && IsRetried(r.state.attempts, f, config)
    case Broken(f) => r.state.Reading? && IsRetried(if r.state.retry.Some? then r.state.retry.value else 0, f, config)
    case Received(msg, slotGranted) =>
      && slotGranted && r.state.Reading? && IsProper(r, r.state.offset, msg, config)
      && (HasPayload(msg) ==> Decodes(DecodeJob(msg.rows.payload, msg.rowCount, SchemaInForce(r, msg)), src.decoder))
    case _ => true
  }

  /** The reader is alive and has had no trouble; a reader whose check waits for its first page has enqueued nothing,
      and one that gave way neither. */
  predicate IsHealthy(sys: System, src: Source) {
    var r := sys.reader;
    && NoFatal(r.done) && AllDecode(Enqueued(sys), src.decoder)
    && (r.check.Some? ==> Enqueued(sys) == [])
    && (r.state.Terminated? ==> if r.state.reason == Finished then sys.ended else Enqueued(sys) == [])
  }

  /** One more action that is no error, and no batch that fails to decode. */
  lemma {:induction false} OneMoreAction(done: seq<Action>, a: Action, decoder: Decoder)
    requires NoFatal(done) && AllDecode(Pushed(done), decoder)
    requires !IsFatal(a) && (a.Push? ==> Decodes(a.job, decoder))
    ensures NoFatal(done + [a]) && AllDecode(Pushed(done + [a]), decoder)
  {
    ActionEnqueues(done, a);
  }

  lemma {:induction false} LearningKeeps(r: Reader, msg: Message, decoder: Decoder)
    requires NoFatal(r.done) && AllDecode(Pushed(r.done), decoder)
    ensures NoFatal(Known(r, msg).done) && Pushed(Known(r, msg).done) == Pushed(r.done)
  {
    if r.metadata.None? && msg.schema.ArrowSchema? && r.schemaTx {
      OneMoreAction(r.done, SendSchema(Some(msg.schema.serialized)), decoder);
      ActionEnqueues(r.done, SendSchema(Some(msg.schema.serialized)));
    } else {
      assert Known(r, msg).done == r.done;
    }
  }

  lemma {:induction false} ProperMessageKeeps(r: Reader, offset: int, msg: Message, config: Config, decoder: Decoder)
    requires NoFatal(r.done) && AllDecode(Pushed(r.done), decoder) && (r.check.Some? ==> Pushed(r.done) == [])
    requires IsProper(r, offset, msg, config)
    requires HasPayload(msg) ==> Decodes(DecodeJob(msg.rows.payload, msg.rowCount, SchemaInForce(r, msg)), decoder)
    ensures
      var after := AfterMessage(r, offset, msg, true, config);
      && NoFatal(after.done) && AllDecode(Pushed(after.done), decoder)
      && (after.check.Some? ==> Pushed(after.done) == [])
      && if after.state.Terminated? then after.state.reason == SwitchToReadSession && Pushed(after.done) == []
         else after.state.Reading?
  {
    ProperMessage(r, offset, msg, config);
    LearningKeeps(r, msg, decoder);
    if HasPayload(msg) && !GivesWayAt(r, msg) {
      var job := DecodeJob(msg.rows.payload, msg.rowCount, SchemaInForce(r, msg));
      OneMoreAction(Known(r, msg).done, Push(job), decoder);
    }
  }

  lemma {:induction false} TolerableKeeps(sys: System, e: Event, config: Config, src: Source)
    requires IsHealthy(sys, src) && Enabled(sys.reader.state, e) && IsTolerable(sys, e, config, src)
    ensures IsHealthy(SystemNext(sys, e, config, src), src)
  {
    var r := sys.reader;
    if e.Received? {
      ProperMessageKeeps(r, r.state.offset, e.msg, config, src.decoder);
    } else if e.Ended? && r.schemaTx {
      OneMoreAction(r.done, SendSchema(None), src.decoder);
      ActionEnqueues(r.done, SendSchema(None));
    } else if e.Ended? {
      assert r.done + [] == r.done;
    }
  }

  predicate IsTolerableRun(sys: System, events: seq<Event>, config: Config, src: Source)
    requires IsRun(sys, events, config, src)
    decreases |events|
  {
    events == []
    || (IsTolerable(sys, events[0], config, src)
        && IsTolerableRun(SystemNext(sys, events[0], config, src), events[1..], config, src))
  }

  lemma {:induction false} TolerableRunIsHealthy(sys: System, events: seq<Event>, config: Config, src: Source)
    requires IsHealthy(sys, src) && IsRun(sys, events, config, src) && IsTolerableRun(sys, events, config, src)
    ensures IsHealthy(SystemAfter(sys, events, config, src), src)
    decreases |events|
  {
    if events != [] {
      TolerableKeeps(sys, events[0], config, src);
      TolerableRunIsHealthy(SystemNext(sys, events[0], config, src), events[1..], config, src);
    }
  }

  /** Over such a run the reader reports no error. If it terminates it has enqueued every row from its offset to the
      end of the stream, through any number of heartbeats, disconnections and retries; or it had a first-page check,
      and has given way with nothing enqueued. */
  lemma {:induction false} ProperRunReadsAll(offset: int, metadata: Option<Bytes>, check: Option<FirstPageCheck>,
                                             events: seq<Event>, config: Config, src: Source)
    requires 0 <= offset <= |src.rows|
    requires IsRun(System(NewReader(offset, metadata, check), 0, false), events, config, src)
    requires IsTolerableRun(System(NewReader(offset, metadata, check), 0, false), events, config, src)
    ensures
      var sys := SystemAfter(System(NewReader(offset, metadata, check), 0, false), events, config, src);
      && NoFatal(sys.reader.done)
      && (sys.reader.state == Terminated(Finished) ==> SoundRows(Enqueued(sys), src.decoder) == src.rows[offset..])
      && (sys.reader.state == Terminated(SwitchToReadSession) ==> check.Some? && Enqueued(sys) == [])
  {
    var start := System(NewReader(offset, metadata, check), 0, false);
    TolerableRunIsHealthy(start, events, config, src);
    EveryRunInStep(start, events, offset, config, src);
    if check.None? {
      CheckStaysNone(start, events, config, src);
    }
  }

  /** Without a check the reader never gives way. */
  lemma {:induction false} CheckStaysNone(sys: System, events: seq<Event>, config: Config, src: Source)
    requires IsRun(sys, events, config, src)
    requires sys.reader.check.None? && sys.reader.state != Terminated(SwitchToReadSession)
    ensures SystemAfter(sys, events, config, src).reader.state != Terminated(SwitchToReadSession)
    decreases |events|
  {
    if events != [] {
      CheckStaysNone(SystemNext(sys, events[0], config, src), events[1..], config, src);
    }
  }
}
