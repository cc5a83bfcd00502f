/** The reconnecting reader of one BigQuery read stream (bigquery_read_stream.rs): `ReadStream::step` as a
    class, its transitions as a function, and what every run of it against an adversarial server keeps. */
module ReadStreams {
  import opened Values
  import opened Decoding

  // --- What the reader sees ---

  datatype SchemaField = NoSchema | ArrowSchema(serialized: Bytes) | OtherSchema
  datatype RowsField = NoRows | ArrowRows(payload: Bytes) | OtherRows

  /** A `ReadRowsResponse`. */
  datatype Message = Message(schema: SchemaField, rows: RowsField, rowCount: int, totalRows: Option<int>)

  /** An error of the connection: what the retry policy, the throttler and the clock make of it. */
  datatype Failure = Failure(retryable: bool, throttled: bool, throttleExhausted: bool, outOfTime: bool)

  /** What the environment does next. A message comes with the outcome of reserving a slot for its batch:
      no slot is granted once the receiver is gone or cancellation is seen. */
  datatype Event =
    | CancelSeen
    | Connected
    | ConnectFailed(failure: Failure)
    | DeadlineElapsed
    | Received(msg: Message, slotGranted: bool)
    | Broken(failure: Failure)
    | Ended

  // --- The reader ---

  datatype TerminationReason = Finished | SwitchToReadSession

  datatype State =
    | Connecting(offset: int, attempts: nat)
    | Backoff(offset: int, attempts: nat)
    | Reading(offset: int, retry: Option<nat>)
    | Terminated(reason: TerminationReason)

  datatype FirstPageCheck = FirstPageCheck(thresholdBytes: real, fallbackTotalRows: Option<nat>)

  /** What the reader does to the outside: the cancellation flag, the schema channel, the batch channel
      and the decode queue. */
  datatype Action =
    | SetCancel
    | SendSchema(schema: Option<Bytes>)
    | SendSchemaError(error: ReadError)
    | SendError(error: ReadError)
    | Push(job: DecodeJob)

  datatype Reader = Reader(
    state: State,
    metadata: Option<Bytes>,
    schemaTx: bool,
    check: Option<FirstPageCheck>,
    done: seq<Action>)

  /** The reconnection policy gives up after this many failed attempts; `parses` tells which schema bytes
      `parse_arrow_schema` accepts. */
  datatype Config = Config(maximumAttempts: nat, parses: Bytes -> bool)

  predicate Enabled(s: State, e: Event) {
    match s
    case Connecting(_, _) => e.CancelSeen? || e.Connected? || e.ConnectFailed?
    case Backoff(_, _) => e.CancelSeen? || e.DeadlineElapsed?
    case Reading(_, _) => e.CancelSeen? || e.Received? || e.Broken? || e.Ended?
    case Terminated(_) => false
  }

  // --- Transitions ---

  /** `send_fatal_error`: cancellation is set first, then the error goes to whoever still waits for the
      schema, else to the batches. */
  function FatalActions(r: Reader, error: ReadError): seq<Action> {
    [SetCancel, if r.schemaTx then SendSchemaError(error) else SendError(error)]
  }

  function Fatal(r: Reader, error: ReadError): Reader {
    r.(state := Terminated(Finished), schemaTx := false, done := r.done + FatalActions(r, error))
  }

  /** `handle_error`. */
  function AfterFailure(r: Reader, offset: int, attempts: nat, f: Failure, config: Config): Reader {
    if !f.retryable || attempts + 1 >= config.maximumAttempts || (f.throttled && f.throttleExhausted) || f.outOfTime
    then Fatal(r, Grpc)
    else r.(state := Backoff(offset, attempts + if f.throttled then 2 else 1))
  }

  /** `estimate_remaining_bytes`. */
  function EstimateRemainingBytes(firstPageBytes: nat, pageRowCount: nat, totalRows: Option<nat>): real {
    if totalRows.None? || pageRowCount == 0 || totalRows.value <= pageRowCount then 0.0
    else Scaled(firstPageBytes, totalRows.value - pageRowCount, pageRowCount)
  }

  /** The bytes of `rows` rows, when `perRows` rows take up `bytes`. */
  function Scaled(bytes: nat, rows: nat, perRows: nat): real
    requires perRows > 0
  {
    bytes as real * rows as real / perRows as real
  }

  function Positive(n: Option<int>): Option<nat> {
    if n.Some? && n.value > 0 then Some(n.value) else None
  }

  predicate SwitchesAt(check: FirstPageCheck, payload: Bytes, rowCount: nat, total: Option<int>) {
    var totalRows := if Positive(total).Some? then Positive(total) else Positive(check.fallbackTotalRows);
    EstimateRemainingBytes(|payload|, rowCount, totalRows) >= check.thresholdBytes
  }

  function PayloadOf(rows: RowsField): Option<Bytes> {
    if rows.ArrowRows? then Some(rows.payload) else None
  }

  function AfterBatch(r: Reader, offset: int, payload: Bytes, msg: Message, slotGranted: bool): Reader
    requires r.metadata.Some?
  {
    if !(MIN_I64 <= offset + msg.rowCount <= MAX_I64) then Fatal(r, Protocol)
    else if slotGranted then
      r.(state := Reading(offset + msg.rowCount, None),
         done := r.done + [Push(DecodeJob(payload, msg.rowCount, r.metadata.value))])
    else r.(state := Terminated(Finished))
  }

  function AfterPage(r: Reader, offset: int, payload: Bytes, msg: Message, slotGranted: bool): Reader
    requires r.metadata.Some?
  {
    var checked := r.(check := None);
    if r.check.Some? && msg.rowCount < 0 then Fatal(checked, Protocol)
    else if r.check.Some? && SwitchesAt(r.check.value, payload, msg.rowCount, msg.totalRows) then
      checked.(state := Terminated(SwitchToReadSession))
    else AfterBatch(checked, offset, payload, msg, slotGranted)
  }

  function AfterSchema(r: Reader, offset: int, msg: Message, slotGranted: bool): Reader
    requires r.metadata.Some?
  {
    if msg.rows.OtherRows? then Fatal(r, Protocol)
    else match ValidatedBytes(PayloadOf(msg.rows), msg.rowCount)
      case Empty => r.(state := Reading(offset, None))
      case Rows(payload) => AfterPage(r, offset, payload, msg, slotGranted)
      case CountMismatch => Fatal(r, Protocol)
  }

  function WithSchema(r: Reader, schema: Bytes): Reader {
    r.(metadata := Some(schema), schemaTx := false,
       done := r.done + if r.schemaTx then [SendSchema(Some(schema))] else [])
  }

  function AfterMessage(r: Reader, offset: int, msg: Message, slotGranted: bool, config: Config): Reader {
    if r.metadata.Some? then AfterSchema(r, offset, msg, slotGranted)
    else if msg.schema.ArrowSchema? then
      if config.parses(msg.schema.serialized) then
        AfterSchema(WithSchema(r, msg.schema.serialized), offset, msg, slotGranted)
      else Fatal(r, Arrow)
    else if msg.schema.NoSchema? && msg.rows.NoRows? && msg.rowCount == 0 then
      r.(state := Reading(offset, None))
    else Fatal(r, Protocol)
  }

  function Next(r: Reader, e: Event, config: Config): Reader
    requires Enabled(r.state, e)
  {
    if e.CancelSeen? then r.(state := Terminated(Finished))
    else match r.state
      case Connecting(offset, attempts) =>
        if e.Connected? then r.(state := Reading(offset, Some(attempts)))
        else AfterFailure(r, offset, attempts, e.failure, config)
      case Backoff(offset, attempts) => r.(state := Connecting(offset, attempts))
      case Reading(offset, retry) =>
        if e.Received? then AfterMessage(r, offset, e.msg, e.slotGranted, config)
        else if e.Broken? then
          AfterFailure(r, offset, if retry.Some? then retry.value else 0, e.failure, config)
        else
          r.(state := Terminated(Finished), schemaTx := false,
             done := r.done + if r.schemaTx then [SendSchema(None)] else [])
  }

  /** A new reader: it either knows the schema or owes it to the schema channel. */
  function NewReader(offset: int, metadata: Option<Bytes>, check: Option<FirstPageCheck>): Reader {
    Reader(Connecting(offset, 0), metadata, metadata.None?, check, [])
  }

  /** The reader steps through `events`; nothing is done once it has terminated. */
  predicate Follows(r: Reader, events: seq<Event>, config: Config)
    decreases |events|
  {
    events == [] || (Enabled(r.state, events[0]) && Follows(Next(r, events[0], config), events[1..], config))
  }

  function After(r: Reader, events: seq<Event>, config: Config): Reader
    requires Follows(r, events, config)
    decreases |events|
  {
    if events == [] then r else After(Next(r, events[0], config), events[1..], config)
  }

  // --- `ReadStream` ---

  class ReadStream {
    const config: Config
    var state: State
    var metadata: Option<Bytes>
    var schemaTx: bool
    var firstPageCheck: Option<FirstPageCheck>
    /** Everything done to the channels, the flag and the decode queue. */
    var done: seq<Action>

    ghost function View(): Reader
      reads this
    {
      Reader(state, metadata, schemaTx, firstPageCheck, done)
    }

    constructor (config: Config, offset: int, metadata: Option<Bytes>, check: Option<FirstPageCheck>)
      ensures View() == NewReader(offset, metadata, check) && this.config == config
    {
      this.config := config;
      state := Connecting(offset, 0);
      this.metadata := metadata;
      schemaTx := metadata.None?;
      firstPageCheck := check;
      done := [];
    }

    method SendFatalError(error: ReadError)
      modifies this
      ensures View() == Fatal(old(View()), error)
    {
      done := done + [SetCancel];
      if schemaTx {
        schemaTx := false;
        done := done + [SendSchemaError(error)];
      } else {
        done := done + [SendError(error)];
      }
      state := Terminated(Finished);
    }

    method HandleError(offset: int, attemptsBefore: nat, f: Failure)
      modifies this
      ensures View() == AfterFailure(old(View()), offset, attemptsBefore, f, config)
    {
      var attempts := attemptsBefore + 1;
      if !f.retryable || attempts >= config.maximumAttempts {
        SendFatalError(Grpc);
        return;
      }
      if f.throttled {
        attempts := attempts + 1;
        if f.throttleExhausted {
          SendFatalError(Grpc);
          return;
        }
      }
      if f.outOfTime {
        SendFatalError(Grpc);
        return;
      }
      state := Backoff(offset, attempts);
    }

    method EnqueueDecodeBatch(payload: Bytes, rowCount: int, schema: Bytes, slotGranted: bool) returns (ok: bool)
      modifies this`done
      ensures ok == slotGranted
      ensures done == old(done) + if ok then [Push(DecodeJob(payload, rowCount, schema))] else []
    {
      if slotGranted {
        done := done + [Push(DecodeJob(payload, rowCount, schema))];
      }
      ok := slotGranted;
    }

    /** The rows of a message, once the schema is known. */
    method ReadRows(offset: int, msg: Message, slotGranted: bool)
      requires metadata.Some?
      modifies this
      ensures View() == AfterSchema(old(View()), offset, msg, slotGranted)
    {
      if msg.rows.OtherRows? {
        SendFatalError(Protocol);
        return;
      }
      var payload := ValidatedBytes(PayloadOf(msg.rows), msg.rowCount);
      if payload.CountMismatch? {
        SendFatalError(Protocol);
        return;
      }
      if payload.Empty? {
        state := Reading(offset, None);
        return;
      }
      if firstPageCheck.Some? {
        var check := firstPageCheck.value;
        firstPageCheck := None;
        if msg.rowCount < 0 {
          SendFatalError(Protocol);
          return;
        }
        if SwitchesAt(check, payload.bytes, msg.rowCount, msg.totalRows) {
          state := Terminated(SwitchToReadSession);
          return;
        }
      }
      var nextOffset := offset + msg.rowCount;
      if !(MIN_I64 <= nextOffset <= MAX_I64) {
        SendFatalError(Protocol);
        return;
      }
      state := Reading(nextOffset, None);
      var ok := EnqueueDecodeBatch(payload.bytes, msg.rowCount, metadata.value, slotGranted);
      if !ok {
        state := Terminated(Finished);
      }
    }

    method ReceiveMessage(offset: int, msg: Message, slotGranted: bool)
      modifies this
      ensures View() == AfterMessage(old(View()), offset, msg, slotGranted, config)
    {
      if metadata.None? {
        if msg.schema.NoSchema? && msg.rows.NoRows? && msg.rowCount == 0 {
          state := Reading(offset, None);
          return;
        }
        if !msg.schema.ArrowSchema? {
          SendFatalError(Protocol);
          return;
        }
        if !config.parses(msg.schema.serialized) {
          SendFatalError(Arrow);
          return;
        }
        if schemaTx {
          schemaTx := false;
          done := done + [SendSchema(Some(msg.schema.serialized))];
        }
        metadata := Some(msg.schema.serialized);
      }
      ReadRows(offset, msg, slotGranted);
    }

    /** `step`. */
    method Step(e: Event)
      requires Enabled(state, e)
      modifies this
      ensures View() == Next(old(View()), e, config)
    {
      if e.CancelSeen? {
        state := Terminated(Finished);
        return;
      }
      match state {
        case Connecting(offset, attempts) =>
          if e.Connected? {
            state := Reading(offset, Some(attempts));
          } else {
            HandleError(offset, attempts, e.failure);
          }
        case Backoff(offset, attempts) => state := Connecting(offset, attempts);
        case Reading(offset, retry) =>
          if e.Received? {
            ReceiveMessage(offset, e.msg, e.slotGranted);
          } else if e.Broken? {
            HandleError(offset, if retry.Some? then retry.value else 0, e.failure);
          } else {
            if schemaTx {
              schemaTx := false;
              done := done + [SendSchema(None)];
            }
            state := Terminated(Finished);
          }
      }
    }

    /** `run`, against the events the environment has in store: it stops where the reader terminates. */
    method Run(events: seq<Event>) returns (reason: Option<TerminationReason>)
      requires Follows(View(), events, config)
      modifies this
      ensures View() == After(old(View()), events, config)
      ensures reason == if state.Terminated? then Some(state.reason) else None
    {
      var rest := events;
      while !state.Terminated? && rest != []
        invariant Follows(View(), rest, config)
        invariant After(View(), rest, config) == After(old(View()), events, config)
      {
        Step(rest[0]);
        rest := rest[1..];
      }
      reason := if state.Terminated? then Some(state.reason) else None;
    }
  }
}
