/** Every run of the stream reader: what it sends besides batches, how often it reconnects, and how long
    it can take. */
module StreamRuns {
  import opened Values
  import opened Decoding
  import opened ReadStreams

  function Pushed(done: seq<Action>): seq<DecodeJob> {
    if done == [] then []
    else (if done[0].Push? then [done[0].job] else []) + Pushed(done[1..])
  }

  lemma {:induction false} PushedConcat(done: seq<Action>, more: seq<Action>)
    ensures Pushed(done + more) == Pushed(done) + Pushed(more)
    decreases |done|
  {
    if done == [] {
      assert done + more == more;
    } else {
      assert (done + more)[0] == done[0] && (done + more)[1..] == done[1..] + more;
      PushedConcat(done[1..], more);
      var first := if done[0].Push? then [done[0].job] else [];
      assert first + (Pushed(done[1..]) + Pushed(more)) == first + Pushed(done[1..]) + Pushed(more);
    }
  }

  // --- The channels and the cancellation flag ---

  predicate IsFatal(a: Action) { a.SetCancel? || a.SendSchemaError? || a.SendError? }

  predicate ToSchema(a: Action) { a.SendSchema? || a.SendSchemaError? }

  predicate NoFatal(done: seq<Action>) { forall a | a in done :: !IsFatal(a) }

  predicate NoSchemaSent(done: seq<Action>) { forall a | a in done :: !ToSchema(a) }

  /** At most one message goes to the schema channel. */
  predicate SchemaSentOnce(done: seq<Action>) {
    forall i, j | 0 <= i < j < |done| :: !(ToSchema(done[i]) && ToSchema(done[j]))
  }

  /** Cancellation and then one error, to whoever waits for the schema or else to the batches, is all the
      reader ever does about an error, and the last thing it does. */
  predicate EndsFatally(r: Reader) {
    var n := |r.done|;
    && n >= 2 && NoFatal(r.done[..n - 2]) && r.done[n - 2].SetCancel?
    && (if r.metadata.None? then r.done[n - 1].SendSchemaError? else r.done[n - 1].SendError?)
  }

  predicate Orderly(r: Reader) {
    && SchemaSentOnce(r.done)
    && (r.schemaTx ==> NoSchemaSent(r.done))
    && (!r.state.Terminated? ==> NoFatal(r.done) && (r.schemaTx <==> r.metadata.None?))
    && (r.state.Terminated? ==>
          NoFatal(r.done) || (EndsFatally(r) && !r.schemaTx && r.state.reason == Finished))
    && (r.state == Terminated(SwitchToReadSession) ==> NoFatal(r.done) && !r.schemaTx && r.metadata.Some?)
    // The first page decides about switching: until then nothing has been enqueued.
    && (r.check.Some? || r.state == Terminated(SwitchToReadSession) ==> Pushed(r.done) == [])
  }

  /** A reader that is about to act on an event, or in the middle of it. */
  predicate Acting(r: Reader) {
    && SchemaSentOnce(r.done) && NoFatal(r.done)
    && (r.schemaTx ==> NoSchemaSent(r.done)) && (r.schemaTx <==> r.metadata.None?)
    && (r.check.Some? ==> Pushed(r.done) == [])
  }

  lemma {:induction false} ActionEnqueues(done: seq<Action>, a: Action)
    ensures Pushed(done + [a]) == if a.Push? then Pushed(done) + [a.job] else Pushed(done)
  {
    PushedConcat(done, [a]);
    assert [a][1..] == [];
    assert Pushed([a]) == (if a.Push? then [a.job] else []) + Pushed([a][1..]);
  }

  lemma {:induction false} FatalEnqueuesNothing(r: Reader, error: ReadError)
    ensures Pushed(Fatal(r, error).done) == Pushed(r.done)
  {
    var last := if r.schemaTx then SendSchemaError(error) else SendError(error);
    ActionEnqueues(r.done, SetCancel);
    ActionEnqueues(r.done + [SetCancel], last);
    assert Fatal(r, error).done == r.done + [SetCancel] + [last];
  }

  lemma {:induction false} SentOnceNext(done: seq<Action>, a: Action)
    requires SchemaSentOnce(done) && (ToSchema(a) ==> NoSchemaSent(done))
    ensures SchemaSentOnce(done + [a])
    ensures NoSchemaSent(done) && !ToSchema(a) ==> NoSchemaSent(done + [a])
  {
    forall i, j | 0 <= i < j < |done + [a]| ensures !(ToSchema((done + [a])[i]) && ToSchema((done + [a])[j])) {
      assert (done + [a])[i] == done[i] && done[i] in done;
    }
  }

  lemma {:induction false} FatalOrderly(r: Reader, error: ReadError)
    requires Acting(r)
    ensures Orderly(Fatal(r, error))
  {
    var after, last := Fatal(r, error), FatalActions(r, error)[1];
    SentOnceNext(r.done, SetCancel);
    SentOnceNext(r.done + [SetCancel], last);
    assert after.done == r.done + [SetCancel] + [last];
    assert after.done[..|after.done| - 2] == r.done;
    FatalEnqueuesNothing(r, error);
  }

  lemma {:induction false} BatchOrderly(r: Reader, offset: int, payload: Bytes, msg: Message, slotGranted: bool)
    requires Acting(r) && r.metadata.Some? && r.check.None?
    ensures Orderly(AfterBatch(r, offset, payload, msg, slotGranted))
  {
    if !(MIN_I64 <= offset + msg.rowCount <= MAX_I64) {
      FatalOrderly(r, Protocol);
    }
  }

  lemma {:induction false} PageOrderly(r: Reader, offset: int, payload: Bytes, msg: Message, slotGranted: bool)
    requires Acting(r) && r.metadata.Some?
    ensures Orderly(AfterPage(r, offset, payload, msg, slotGranted))
  {
    FatalOrderly(r.(check := None), Protocol);
    BatchOrderly(r.(check := None), offset, payload, msg, slotGranted);
  }

  lemma {:induction false} SchemaOrderly(r: Reader, schema: Bytes)
    requires Acting(r)
    ensures Acting(WithSchema(r, schema))
  {
    ActionEnqueues(r.done, SendSchema(Some(schema)));
    assert r.done + [] == r.done;
  }

  lemma {:induction false} MessageOrderly(r: Reader, offset: int, msg: Message, slotGranted: bool, config: Config)
    requires Acting(r)
    ensures Orderly(AfterMessage(r, offset, msg, slotGranted, config))
  {
    FatalOrderly(r, Protocol);
    FatalOrderly(r, Arrow);
    if r.metadata.Some? {
      RowsOrderly(r, offset, msg, slotGranted);
    } else if msg.schema.ArrowSchema? {
      SchemaOrderly(r, msg.schema.serialized);
      RowsOrderly(WithSchema(r, msg.schema.serialized), offset, msg, slotGranted);
    }
  }

  lemma {:induction false} RowsOrderly(r: Reader, offset: int, msg: Message, slotGranted: bool)
    requires Acting(r) && r.metadata.Some?
    ensures Orderly(AfterSchema(r, offset, msg, slotGranted))
  {
    FatalOrderly(r, Protocol);
    var payload := ValidatedBytes(PayloadOf(msg.rows), msg.rowCount);
    if payload.Rows? {
      PageOrderly(r, offset, payload.bytes, msg, slotGranted);
    }
  }

  lemma {:induction false} NextOrderly(r: Reader, e: Event, config: Config)
    requires Orderly(r) && Enabled(r.state, e)
    ensures Orderly(Next(r, e, config))
  {
    FatalOrderly(r, Grpc);
    if e.Received? {
      MessageOrderly(r, r.state.offset, e.msg, e.slotGranted, config);
    } else if e.Ended? {
      ActionEnqueues(r.done, SendSchema(None));
      assert r.done + [] == r.done;
    }
  }

  /** Over every run: one message at most to the schema channel, an error handed over at most once, right
      after cancellation and as the last action, and switching only before anything was enqueued. */
  lemma {:induction false} RunsAreOrderly(r: Reader, events: seq<Event>, config: Config)
    requires Orderly(r) && Follows(r, events, config)
    ensures Orderly(After(r, events, config))
    decreases |events|
  {
    if events != [] {
      NextOrderly(r, events[0], config);
      RunsAreOrderly(Next(r, events[0], config), events[1..], config);
    }
  }

  lemma {:induction false} NewReaderOrderly(offset: int, metadata: Option<Bytes>, check: Option<FirstPageCheck>)
    ensures Orderly(NewReader(offset, metadata, check))
  {
  }

  // --- Reconnecting ---

  function AttemptLimit(config: Config): nat {
    if config.maximumAttempts == 0 then 1 else config.maximumAttempts
  }

  predicate IsAttempt(e: Event) { e.Connected? || e.ConnectFailed? }

  /** Connection attempts after the last message; `before` were made before these events. */
  function AttemptsSinceMessage(before: nat, events: seq<Event>): nat
    decreases |events|
  {
    if events == [] then before
    else AttemptsSinceMessage(if events[0].Received? then 0 else before + if IsAttempt(events[0]) then 1 else 0,
                                events[1..])
  }

  /** The reader's own count is at least the attempts made, except for the one that just succeeded. */
  predicate AttemptsCounted(s: State, attempts: nat, config: Config) {
    match s
    case Connecting(_, n) => attempts <= n <= AttemptLimit(config) && attempts < AttemptLimit(config)
    case Backoff(_, n) => attempts <= n <= AttemptLimit(config) && attempts < AttemptLimit(config)
    case Reading(_, Some(n)) => attempts <= n + 1 && n <= AttemptLimit(config) && attempts <= AttemptLimit(config)
    case Reading(_, None) => attempts == 0
    case Terminated(_) => attempts <= AttemptLimit(config)
  }

  lemma {:induction false} NextCounted(r: Reader, e: Event, attempts: nat, config: Config)
    requires AttemptsCounted(r.state, attempts, config) && Enabled(r.state, e)
    ensures
      var after := if e.Received? then 0 else attempts + if IsAttempt(e) then 1 else 0;
      AttemptsCounted(Next(r, e, config).state, after, config)
  {
  }

  /** At every point of every run at most `maximum_attempts` connection attempts were made since the last
      message. */
  lemma {:induction false} RetryBound(r: Reader, events: seq<Event>, attempts: nat, config: Config)
    requires AttemptsCounted(r.state, attempts, config) && Follows(r, events, config)
    ensures AttemptsSinceMessage(attempts, events) <= AttemptLimit(config)
    ensures AttemptsCounted(After(r, events, config).state, AttemptsSinceMessage(attempts, events), config)
    decreases |events|
  {
    if events != [] {
      var e := events[0];
      NextCounted(r, e, attempts, config);
      RetryBound(Next(r, e, config), events[1..], if e.Received? then 0 else attempts + if IsAttempt(e) then 1 else 0,
                 config);
    }
  }

  // --- Every run is finite ---

  function Messages(events: seq<Event>): nat {
    if events == [] then 0 else (if events[0].Received? then 1 else 0) + Messages(events[1..])
  }

  /** Steps left until the next message, at most. */
  function StepsLeft(s: State, config: Config): int {
    var limit := AttemptLimit(config);
    match s
    case Connecting(_, n) => 3 * (limit + 1 - n)
    case Backoff(_, n) => 3 * (limit + 1 - n) + 1
    case Reading(_, Some(n)) => 3 * (limit + 1 - n) - 1
    case Reading(_, None) => 3 * limit + 2
    case Terminated(_) => 0
  }

  lemma {:induction false} StepsRunOut(r: Reader, e: Event, attempts: nat, config: Config)
    requires AttemptsCounted(r.state, attempts, config) && Enabled(r.state, e)
    ensures StepsLeft(r.state, config) > 0
    ensures !e.Received? ==> StepsLeft(Next(r, e, config).state, config) < StepsLeft(r.state, config)
    ensures e.Received? ==> StepsLeft(Next(r, e, config).state, config) <= 3 * AttemptLimit(config) + 2
  {
  }

  /** `steps` between two messages, over all of `messages`. */
  function Steps(steps: nat, messages: nat): nat { if messages == 0 then 0 else steps + Steps(steps, messages - 1) }

  lemma {:induction false} StepsAre(steps: nat, messages: nat)
    ensures Steps(steps, messages) == steps * messages
  {
    if messages > 0 {
      StepsAre(steps, messages - 1);
    }
  }

  /** Messages are what keeps a run going: between two of them there are at most `3 * limit + 3` steps. */
  lemma {:induction false} RunLength(r: Reader, events: seq<Event>, attempts: nat, config: Config)
    requires AttemptsCounted(r.state, attempts, config) && Follows(r, events, config)
    ensures |events| <= StepsLeft(r.state, config) + Steps(3 * AttemptLimit(config) + 3, Messages(events))
    decreases |events|
  {
    if events == [] {
      assert StepsLeft(r.state, config) >= 0;
    } else {
      var e := events[0];
      NextCounted(r, e, attempts, config);
      StepsRunOut(r, e, attempts, config);
      RunLength(Next(r, e, config), events[1..], if e.Received? then 0 else attempts + if IsAttempt(e) then 1 else 0,
                config);
    }
  }

  /** A reader that follows a run of finitely many messages terminates within the bound. */
  lemma {:induction false} RunsTerminate(offset: int, metadata: Option<Bytes>, check: Option<FirstPageCheck>,
                                         events: seq<Event>,
                                         config: Config)
    requires Follows(NewReader(offset, metadata, check), events, config)
    ensures |events| <= (3 * AttemptLimit(config) + 3) * (Messages(events) + 1)
    ensures AttemptsSinceMessage(0, events) <= AttemptLimit(config)
  {
    var r := NewReader(offset, metadata, check);
    RunLength(r, events, 0, config);
    var steps, messages := 3 * AttemptLimit(config) + 3, Messages(events);
    assert |events| <= Steps(steps, messages + 1);
    StepsAre(steps, messages + 1);
    RetryBound(r, events, 0, config);
  }

  // --- The first page ---

  /** The row count the decision goes by: the stream's estimate, or else the response's total. */
  function KnownTotal(check: FirstPageCheck, estimated: Option<int>): nat {
    if estimated.Some? && estimated.value > 0 then estimated.value
    else if check.fallbackTotalRows.Some? then check.fallbackTotalRows.value
    else 0
  }

  lemma {:induction false} ScaledAtLeast(bytes: nat, rows: nat, perRows: nat, threshold: real)
    requires perRows > 0
    ensures Scaled(bytes, rows, perRows) >= threshold <==> bytes as real * rows as real >= threshold * perRows as real
  {
    var estimate := Scaled(bytes, rows, perRows);
    assert estimate * perRows as real == bytes as real * rows as real;
    if estimate >= threshold {
      assert estimate * perRows as real >= threshold * perRows as real;
    } else {
      assert estimate * perRows as real < threshold * perRows as real;
    }
  }

  /** At the first page's bytes per row, what remains makes up the threshold. */
  predicate GivesWay(check: FirstPageCheck, bytes: nat, rowCount: nat, estimated: Option<int>) {
    var total := KnownTotal(check, estimated);
    || check.thresholdBytes <= 0.0
    || (total > rowCount > 0
        && bytes as real * (total - rowCount) as real >= check.thresholdBytes * rowCount as real)
  }

  /** The decision to give way, without the division. */
  lemma {:induction false} SwitchesIff(check: FirstPageCheck, payload: Bytes, rowCount: nat, estimated: Option<int>)
    ensures SwitchesAt(check, payload, rowCount, estimated) <==> GivesWay(check, |payload|, rowCount, estimated)
  {
    var total := KnownTotal(check, estimated);
    if total > rowCount > 0 {
      ScaledAtLeast(|payload|, total - rowCount, rowCount, check.thresholdBytes);
      assert |payload| as real * (total - rowCount) as real >= 0.0;
      if check.thresholdBytes <= 0.0 {
        assert check.thresholdBytes * rowCount as real <= 0.0;
      }
    }
  }
}
