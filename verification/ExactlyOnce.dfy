/** Exactly-once reading: against a server that drops, delays and miscounts but sends rows in order from
    the offset asked for, what the reader enqueues is always the rows from its start to its offset. */
module ExactlyOnce {
  import opened Values
  import opened Decoding
  import opened ReadStreams
  import opened StreamRuns

  /** What is being read: the rows of the stream and how payloads decode. */
  datatype Source = Source(rows: seq<Row>, decoder: Decoder)

  /** The reader and the server: `pos` is the row the open connection sends next, `ended` tells that the
      connection has reached the end of the stream. */
  datatype System = System(reader: Reader, pos: int, ended: bool)

  function SchemaInForce(r: Reader, msg: Message): Bytes {
    if r.metadata.Some? then r.metadata.value
    else if msg.schema.ArrowSchema? then msg.schema.serialized
    else []
  }

  function ItemsOf(r: Reader, msg: Message, src: Source): seq<Item> {
    if msg.rows.ArrowRows? && msg.rows.payload != [] then src.decoder(msg.rows.payload, SchemaInForce(r, msg)) else []
  }

  /** An intact payload holds the rows from `pos` on. */
  predicate IsNextPiece(items: seq<Item>, pos: int, src: Source) {
    IsIntact(items) && Content(items) != [] ==>
      0 <= pos && pos + |Content(items)| <= |src.rows| && Content(items) == src.rows[pos..pos + |Content(items)|]
  }

  /** The server sends the next rows of the stream, in pieces of its choosing, and ends only after the last
      one. Payloads may be corrupt, and any row count may be reported for them. */
  predicate Honest(sys: System, e: Event, src: Source) {
    && (e.Received? ==>
          IsNextPiece(ItemsOf(sys.reader, e.msg, src), sys.pos, src))
    && (e.Ended? ==> sys.pos >= |src.rows|)
  }

  function SystemNext(sys: System, e: Event, config: Config, src: Source): System
    requires Enabled(sys.reader.state, e)
  {
    System(
      Next(sys.reader, e, config),
      if e.Connected? then sys.reader.state.offset
      else if e.Received? then sys.pos + |Content(ItemsOf(sys.reader, e.msg, src))|
      else sys.pos,
      sys.ended || e.Ended?)
  }

  predicate IsRun(sys: System, events: seq<Event>, config: Config, src: Source)
    decreases |events|
  {
    events == []
    || (Enabled(sys.reader.state, events[0]) && Honest(sys, events[0], src)
        && IsRun(SystemNext(sys, events[0], config, src), events[1..], config, src))
  }

  function SystemAfter(sys: System, events: seq<Event>, config: Config, src: Source): System
    requires IsRun(sys, events, config, src)
    decreases |events|
  {
    if events == [] then sys else SystemAfter(SystemNext(sys, events[0], config, src), events[1..], config, src)
  }

  /** The reader of a run does what `Next` says. */
  lemma {:induction false} RunFollows(sys: System, events: seq<Event>, config: Config, src: Source)
    requires IsRun(sys, events, config, src)
    ensures Follows(sys.reader, events, config)
    ensures SystemAfter(sys, events, config, src).reader == After(sys.reader, events, config)
    decreases |events|
  {
    if events != [] {
      RunFollows(SystemNext(sys, events[0], config, src), events[1..], config, src);
    }
  }

  // --- The invariant ---

  function Enqueued(sys: System): seq<DecodeJob> { Pushed(sys.reader.done) }

  /** What has been enqueued decodes to the rows from `start` on, up to the first job whose payload is not
      what the server said; while there is none, up to the offset, and to the end once it is reached. */
  predicate AreInStep(jobs: seq<DecodeJob>, s: State, pos: int, ended: bool, start: int, src: Source) {
    && 0 <= start <= |src.rows|
    && SoundRows(jobs, src.decoder) <= src.rows[start..]
    && (AllDecode(jobs, src.decoder) && !s.Terminated? ==>
          && start <= s.offset <= |src.rows|
          && SoundRows(jobs, src.decoder) == src.rows[start..s.offset]
          && (s.Reading? ==> pos == s.offset))
    && (AllDecode(jobs, src.decoder) && ended ==> SoundRows(jobs, src.decoder) == src.rows[start..])
    && (ended ==> s.Terminated?)
  }

  predicate InStep(sys: System, start: int, src: Source) {
    AreInStep(Enqueued(sys), sys.reader.state, sys.pos, sys.ended, start, src)
  }

  /** Appending a piece of the rows that follow. */
  lemma {:induction false} NextPiece(rows: seq<Row>, start: int, offset: int, n: nat)
    requires 0 <= start <= offset && offset + n <= |rows|
    ensures rows[start..offset] + rows[offset..offset + n] == rows[start..offset + n]
    ensures rows[start..offset + n] <= rows[start..]
  {
  }

  /** What a message enqueues, and where it leaves the reader: it takes over a payload or nothing. */
  lemma {:induction false} MessageEffect(r: Reader, offset: int, msg: Message, slotGranted: bool, config: Config)
    ensures
      var after := AfterMessage(r, offset, msg, slotGranted, config);
      var job := DecodeJob(if msg.rows.ArrowRows? then msg.rows.payload else [], msg.rowCount, SchemaInForce(r, msg));
      if after.state.Reading? && msg.rows.ArrowRows? && msg.rows.payload != [] then
        after.state.offset == offset + msg.rowCount && Pushed(after.done) == Pushed(r.done) + [job]
      else
        Pushed(after.done) == Pushed(r.done) && (after.state.Terminated? || after.state == Reading(offset, None))
  {
    FatalEnqueuesNothing(r, Protocol);
    FatalEnqueuesNothing(r, Arrow);
    if r.metadata.Some? {
      RowsEffect(r, offset, msg, slotGranted);
    } else if msg.schema.ArrowSchema? {
      var known := WithSchema(r, msg.schema.serialized);
      ActionEnqueues(r.done, SendSchema(Some(msg.schema.serialized)));
      assert r.done + [] == r.done;
      RowsEffect(known, offset, msg, slotGranted);
    }
  }

  lemma {:induction false} RowsEffect(r: Reader, offset: int, msg: Message, slotGranted: bool)
    requires r.metadata.Some?
    ensures
      var after := AfterSchema(r, offset, msg, slotGranted);
      var job := DecodeJob(if msg.rows.ArrowRows? then msg.rows.payload else [], msg.rowCount, r.metadata.value);
      if after.state.Reading? && msg.rows.ArrowRows? && msg.rows.payload != [] then
        after.state.offset == offset + msg.rowCount && Pushed(after.done) == Pushed(r.done) + [job]
      else
        Pushed(after.done) == Pushed(r.done) && (after.state.Terminated? || after.state == Reading(offset, None))
  {
    FatalEnqueuesNothing(r, Protocol);
    if msg.rows.ArrowRows? && msg.rows.payload != [] {
      PageEffect(r, offset, msg.rows.payload, msg, slotGranted);
    }
  }

  lemma {:induction false} PageEffect(r: Reader, offset: int, payload: Bytes, msg: Message, slotGranted: bool)
    requires r.metadata.Some?
    ensures
      var after := AfterPage(r, offset, payload, msg, slotGranted);
      if after.state.Reading? then
        after.state.offset == offset + msg.rowCount
        && Pushed(after.done) == Pushed(r.done) + [DecodeJob(payload, msg.rowCount, r.metadata.value)]
      else Pushed(after.done) == Pushed(r.done) && after.state.Terminated?
  {
    BatchEffect(r.(check := None), offset, payload, msg, slotGranted);
    FatalEnqueuesNothing(r.(check := None), Protocol);
  }

  lemma {:induction false} BatchEffect(r: Reader, offset: int, payload: Bytes, msg: Message, slotGranted: bool)
    requires r.metadata.Some?
    ensures
      var after := AfterBatch(r, offset, payload, msg, slotGranted);
      if after.state.Reading? then
        after.state.offset == offset + msg.rowCount
        && Pushed(after.done) == Pushed(r.done) + [DecodeJob(payload, msg.rowCount, r.metadata.value)]
      else Pushed(after.done) == Pushed(r.done) && after.state.Terminated?
  {
    FatalEnqueuesNothing(r, Protocol);
    ActionEnqueues(r.done, Push(DecodeJob(payload, msg.rowCount, r.metadata.value)));
  }

  /** A job that decodes extends the rows enqueued so far by its row count; one that does not ends them. */
  lemma {:induction false} JobInStep(jobs: seq<DecodeJob>, job: DecodeJob, s: State, pos: int, start: int, src: Source)
    requires s.Reading? && AreInStep(jobs, s, pos, false, start, src)
    requires IsNextPiece(src.decoder(job.payload, job.metadata), pos, src)
    ensures
      AreInStep(jobs + [job], Reading(s.offset + job.expectedRowCount, None),
                pos + |Content(src.decoder(job.payload, job.metadata))|, false, start, src)
  {
    SoundRowsNext(jobs, job, src.decoder);
    if AllDecode(jobs + [job], src.decoder) {
      assert job in jobs + [job] && forall j | j in jobs :: j in jobs + [job];
      DecodedExactly(job, src.decoder);
      NextPiece(src.rows, start, s.offset, job.expectedRowCount);
    }
  }

  lemma {:induction false} MessageInStep(sys: System, e: Event, start: int, config: Config, src: Source)
    requires InStep(sys, start, src) && Enabled(sys.reader.state, e) && e.Received? && Honest(sys, e, src)
    ensures InStep(SystemNext(sys, e, config, src), start, src)
  {
    var r, offset, msg := sys.reader, sys.reader.state.offset, e.msg;
    MessageEffect(r, offset, msg, e.slotGranted, config);
    if msg.rows.ArrowRows? && msg.rows.payload != [] {
      JobInStep(Enqueued(sys), DecodeJob(msg.rows.payload, msg.rowCount, SchemaInForce(r, msg)), r.state, sys.pos,
                start, src);
    }
  }

  lemma {:induction false} NextInStep(sys: System, e: Event, start: int, config: Config, src: Source)
    requires InStep(sys, start, src) && Enabled(sys.reader.state, e) && Honest(sys, e, src)
    ensures InStep(SystemNext(sys, e, config, src), start, src)
  {
    FatalEnqueuesNothing(sys.reader, Grpc);
    if e.Received? {
      MessageInStep(sys, e, start, config, src);
    } else if e.Ended? {
      ActionEnqueues(sys.reader.done, SendSchema(None));
      assert sys.reader.done + [] == sys.reader.done;
    }
  }

  /** Exactly once, in order, over every run: see `InStep`. */
  lemma {:induction false} EveryRunInStep(sys: System, events: seq<Event>, start: int, config: Config, src: Source)
    requires InStep(sys, start, src) && IsRun(sys, events, config, src)
    ensures InStep(SystemAfter(sys, events, config, src), start, src)
    decreases |events|
  {
    if events != [] {
      NextInStep(sys, events[0], start, config, src);
      EveryRunInStep(SystemNext(sys, events[0], config, src), events[1..], start, config, src);
    }
  }

  /** A reader started at `offset`: in every non-terminated state the enqueued payloads hold the rows from
      `offset` to the current offset, at the end of the stream all of them, and none if it gives way to a
      read session. */
  lemma {:induction false} ReadsExactlyOnce(offset: int, metadata: Option<Bytes>, check: Option<FirstPageCheck>,
                                            events: seq<Event>, config: Config, src: Source)
    requires 0 <= offset <= |src.rows|
    requires IsRun(System(NewReader(offset, metadata, check), 0, false), events, config, src)
    ensures
      var sys := SystemAfter(System(NewReader(offset, metadata, check), 0, false), events, config, src);
      && InStep(sys, offset, src) && Orderly(sys.reader)
      && (sys.reader.state == Terminated(SwitchToReadSession) ==> Enqueued(sys) == [] && !sys.ended)
  {
    var sys := System(NewReader(offset, metadata, check), 0, false);
    EveryRunInStep(sys, events, offset, config, src);
    RunFollows(sys, events, config, src);
    NewReaderOrderly(offset, metadata, check);
    RunsAreOrderly(sys.reader, events, config);
    EndedIsFinished(sys, events, config, src);
  }

  lemma {:induction false} EndedIsFinished(sys: System, events: seq<Event>, config: Config, src: Source)
    requires IsRun(sys, events, config, src)
    requires sys.ended ==> sys.reader.state == Terminated(Finished)
    ensures
      var after := SystemAfter(sys, events, config, src);
      after.ended ==> after.reader.state == Terminated(Finished)
    decreases |events|
  {
    if events != [] {
      EndedIsFinished(SystemNext(sys, events[0], config, src), events[1..], config, src);
    }
  }
}
