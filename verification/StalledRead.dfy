/** Runs of the ordered read that stall: any channel, and any decoder that makes two batches or more of some
    payload. */
module StalledRead {
  import opened Values
  import opened Decoding
  import opened ReadStreams
  import opened ExactlyOnce
  import opened DecodeQueues
  import opened Delivery
  import opened ReadPipeline
  import opened Receiver

  /** A payload of the stream, its decoder and the slots of the channel. */
  datatype Case = Case(decoder: Decoder, payload: Bytes, capacity: nat)

  function BatchesOf(k: Case): seq<RowBatch> { Readable(k.decoder(k.payload, [])) }

  function Piece(k: Case): seq<Row> { RowsOf(BatchesOf(k)) }

  /** The rows of `n` such payloads. */
  function Copies(k: Case, n: nat): seq<Row> { if n == 0 then [] else Copies(k, n - 1) + Piece(k) }

  /** The payload decodes, to more than one batch, and the offsets stay within an i64. */
  predicate IsMultiBatch(k: Case) {
    && k.payload != [] && IsIntact(k.decoder(k.payload, [])) && |BatchesOf(k)| >= 2
    && k.capacity > 0 && |Copies(k, k.capacity + 1)| <= MAX_I64
  }

  function SetupOf(k: Case): Setup {
    Setup(Config(10, (schema: Bytes) => true), Source(Copies(k, k.capacity + 1), k.decoder), k.capacity)
  }

  function MessageOf(k: Case): Message { Message(NoSchema, ArrowRows(k.payload), |Piece(k)|, None) }

  function JobOf(k: Case): DecodeJob { DecodeJob(k.payload, |Piece(k)|, []) }

  function Jobs(k: Case, n: nat): (jobs: seq<DecodeJob>)
    ensures |jobs| == n
  {
    seq(n, _ => JobOf(k))
  }

  lemma {:induction false} CopiesGrow(k: Case, n: nat, m: nat)
    requires n <= m
    ensures Copies(k, n) <= Copies(k, m)
    decreases m
  {
    if n < m {
      CopiesGrow(k, n, m - 1);
    }
  }

  /** The next piece of the stream. */
  lemma {:induction false} NextCopy(k: Case, n: nat)
    requires IsMultiBatch(k) && n <= k.capacity
    ensures
      var from, rows := |Copies(k, n)|, Copies(k, k.capacity + 1);
      from + |Piece(k)| == |Copies(k, n + 1)| <= |rows| <= MAX_I64 && rows[from..from + |Piece(k)|] == Piece(k)
  {
    CopiesGrow(k, n + 1, k.capacity + 1);
    assert Copies(k, n + 1)[|Copies(k, n)|..] == Piece(k);
  }

  lemma {:induction false} JobDecodes(k: Case)
    requires IsMultiBatch(k)
    ensures JobResult(JobOf(k), k.decoder) == Batches(BatchesOf(k))
  {
    NextCopy(k, 0);
  }

  function Pushes(k: Case, n: nat): seq<Action> {
    if n == 0 then [] else Pushes(k, n - 1) + [Push(JobOf(k))]
  }

  /** The reader after `n` payloads were enqueued. */
  function ReaderAt(k: Case, n: nat): System {
    System(Reader(Reading(|Copies(k, n)|, if n == 0 then Some(0) else None), Some([]), false, None, Pushes(k, n)),
           |Copies(k, n)|, false)
  }

  /** The pipeline at that point. */
  function WithJobs(k: Case, n: nat, q: QueueState, pending: nat, scheduled: nat, drainers: seq<Drainer>,
                    channel: seq<Sent>,
                    received: seq<Sent>): Pipeline {
    Pipeline(ReaderAt(k, n), false, None, q, pending, scheduled, drainers, channel, received, false, false, false)
  }

  ghost predicate Reaches(k: Case, p: Pipeline, after: Pipeline) {
    exists steps :: IsPipelineRun(p, steps, SetupOf(k)) && PipelineAfter(p, steps, SetupOf(k)) == after
  }

  lemma {:induction false} Stays(k: Case, p: Pipeline)
    ensures Reaches(k, p, p)
  {
    assert IsPipelineRun(p, [], SetupOf(k)) && PipelineAfter(p, [], SetupOf(k)) == p;
  }

  lemma {:induction false} StepsTo(k: Case, p: Pipeline, s: Step, next: Pipeline, after: Pipeline)
    requires May(p, s, SetupOf(k)) && PipelineNext(p, s, SetupOf(k)) == next && Reaches(k, next, after)
    ensures Reaches(k, p, after)
  {
    var rest :| IsPipelineRun(next, rest, SetupOf(k)) && PipelineAfter(next, rest, SetupOf(k)) == after;
    assert ([s] + rest)[1..] == rest;
    assert IsPipelineRun(p, [s] + rest, SetupOf(k)) && PipelineAfter(p, [s] + rest, SetupOf(k)) == after;
  }

  // --- The reader ---

  /** The reader receives the next payload and finds a slot for it. */
  lemma {:induction false} ReaderReceives(k: Case, n: nat)
    requires IsMultiBatch(k) && n <= k.capacity
    ensures
      var sys, e, setup := ReaderAt(k, n), Received(MessageOf(k), true), SetupOf(k);
      && Honest(sys, e, setup.src) && SystemNext(sys, e, setup.config, setup.src) == ReaderAt(k, n + 1)
      && NewActions(sys.reader, e, setup.config) == [Push(JobOf(k))]
  {
    NextCopy(k, n);
    var r, e, setup := ReaderAt(k, n).reader, Received(MessageOf(k), true), SetupOf(k);
    assert Next(r, e, setup.config) == ReaderAt(k, n + 1).reader;
    assert Pushes(k, n + 1)[|Pushes(k, n)|..] == [Push(JobOf(k))];
  }

  lemma {:induction false} EnqueuesNext(k: Case, n: nat, q: QueueState, pending: nat, drainers: seq<Drainer>,
                                        received: seq<Sent>)
    requires IsMultiBatch(k) && n <= k.capacity && |q.queue| + SlotsHeld(drainers) < k.capacity
    ensures
      var p, s := WithJobs(k, n, q, pending, 0, drainers, [], received), ReaderStep(Received(MessageOf(k), true));
      May(p, s, SetupOf(k))
      && PipelineNext(p, s, SetupOf(k))
      == WithJobs(k, n + 1, PushTo(q, JobOf(k)), pending + (if q.running then 0 else 1), 0, drainers, [], received)
  {
    ReaderReceives(k, n);
    var p := WithJobs(k, n, q, pending, 0, drainers, [], received);
    var mid := p.(sys := ReaderAt(k, n + 1));
    assert [Push(JobOf(k))][1..] == [];
    assert PerformAll(mid, [Push(JobOf(k))]) == PerformAll(Perform(mid, Push(JobOf(k))), []);
  }

  lemma {:induction false} Connects(k: Case)
    ensures
      var p := StreamRead(0, Some([]), None);
      May(p, ReaderStep(Connected), SetupOf(k))
      && PipelineNext(p, ReaderStep(Connected), SetupOf(k)) == WithJobs(k, 0, QueueState([], false), 0, 0, [], [], [])
  {
    var p := StreamRead(0, Some([]), None);
    assert NewActions(p.sys.reader, Connected, SetupOf(k).config) == [];
  }

  // --- The drainer ---

  /** The pipeline with all slots enqueued and one drainer. */
  function Draining(k: Case, queued: nat, d: Drainer, channel: seq<Sent>): Pipeline {
    WithJobs(k, k.capacity, QueueState(Jobs(k, queued), true), 0, 0, [d], channel, [])
  }

  lemma {:induction false} DrainsTo(k: Case, queued: nat, phase: Phase, phase': Phase, channel: seq<Sent>,
                                    channel': seq<Sent>,
                                    after: Pipeline)
    requires IsMultiBatch(k)
    requires
      match phase
      case Fetched => phase' == Decode && channel' == channel
      case Decode => phase' == First(BatchesOf(k)) && channel' == channel
      case First(batches) => batches != [] && phase' == More(batches[1..]) && channel' == channel + [Ok(batches[0])]
      case More(batches) => batches != [] && phase' == Blocked(batches) && channel' == channel
      case _ => false
    requires Reaches(k, Draining(k, queued, Running(JobOf(k), phase'), channel'), after)
    ensures Reaches(k, Draining(k, queued, Running(JobOf(k), phase), channel), after)
  {
    JobDecodes(k);
    var p := Draining(k, queued, Running(JobOf(k), phase), channel);
    var next := Draining(k, queued, Running(JobOf(k), phase'), channel');
    assert p.drainers[0 := Running(JobOf(k), phase')] == next.drainers;
    assert PipelineNext(p, Drain(0), SetupOf(k)) == next;
    StepsTo(k, p, Drain(0), next, after);
  }

  /** The drainer waits for a slot to send what is left of the first payload. */
  function BlockedOn(k: Case): Phase { Blocked(if BatchesOf(k) == [] then [] else BatchesOf(k)[1..]) }

  function FirstSent(k: Case): seq<Sent> { [Ok(if BatchesOf(k) == [] then [] else BatchesOf(k)[0])] }

  /** The drainer takes the first job, sends its first batch and waits for a slot for the second. */
  lemma {:induction false} RunsUntilBlocked(k: Case, after: Pipeline)
    requires IsMultiBatch(k)
    requires Reaches(k, Draining(k, k.capacity - 1, Running(JobOf(k), BlockedOn(k)), FirstSent(k)), after)
    ensures Reaches(k, Draining(k, k.capacity - 1, Running(JobOf(k), Fetched), []), after)
  {
    var queued, batches := k.capacity - 1, BatchesOf(k);
    assert [] + FirstSent(k) == FirstSent(k);
    DrainsTo(k, queued, More(batches[1..]), BlockedOn(k), FirstSent(k), FirstSent(k), after);
    DrainsTo(k, queued, First(batches), More(batches[1..]), [], FirstSent(k), after);
    DrainsTo(k, queued, Decode, First(batches), [], [], after);
    DrainsTo(k, queued, Fetched, Decode, [], [], after);
  }

  lemma {:induction false} DrainerStarts(k: Case, after: Pipeline)
    requires IsMultiBatch(k)
    requires Reaches(k, Draining(k, k.capacity - 1, Running(JobOf(k), Fetched), []), after)
    ensures Reaches(k, WithJobs(k, k.capacity, QueueState(Jobs(k, k.capacity), true), 1, 0, [], [], []), after)
  {
    var n, q := k.capacity, QueueState(Jobs(k, k.capacity), true);
    var w0, w1 := WithJobs(k, n, q, 1, 0, [], [], []), WithJobs(k, n, q, 0, 1, [], [], []);
    var w2, w3 := Draining(k, n, Fetching, []), Draining(k, n - 1, Running(JobOf(k), Fetched), []);
    assert Jobs(k, n)[1..] == Jobs(k, n - 1) && Jobs(k, n)[0] == JobOf(k);
    assert [Fetching][0 := Running(JobOf(k), Fetched)] == [Running(JobOf(k), Fetched)];
    StepsTo(k, w2, Drain(0), w3, after);
    StepsTo(k, w1, Start, w2, after);
    StepsTo(k, w0, Spawn, w1, after);
  }

  // --- The stall ---

  /** The drainer holds the rest of the first payload, later payloads hold all slots. */
  function Stalled(k: Case): Pipeline {
    WithJobs(k, k.capacity + 1, QueueState(Jobs(k, k.capacity), true), 0, 0, [Running(JobOf(k), BlockedOn(k))],
             [], FirstSent(k))
  }

  /** Once the receiver takes the first batch, the slot goes to the reader. */
  lemma {:induction false} SlotLost(k: Case)
    requires IsMultiBatch(k)
    ensures Reaches(k, Draining(k, k.capacity - 1, Running(JobOf(k), BlockedOn(k)), FirstSent(k)), Stalled(k))
  {
    var n, blocked, first := k.capacity, Running(JobOf(k), BlockedOn(k)), FirstSent(k);
    var q := QueueState(Jobs(k, n - 1), true);
    var p, taken := Draining(k, n - 1, blocked, first), WithJobs(k, n, q, 0, 0, [blocked], [], first);
    HeldByOne(blocked);
    assert Jobs(k, n - 1) + [JobOf(k)] == Jobs(k, n);
    EnqueuesNext(k, n, q, 0, [blocked], first);
    Stays(k, Stalled(k));
    StepsTo(k, taken, ReaderStep(Received(MessageOf(k), true)), Stalled(k), Stalled(k));
    assert first[1..] == [] && [] + [first[0]] == first;
    StepsTo(k, p, Receive, taken, Stalled(k));
  }

  /** From `n` payloads on, the reader fills the channel's slots before the drainer starts. */
  lemma {:induction false} FillsSlots(k: Case, n: nat)
    requires IsMultiBatch(k) && n <= k.capacity
    ensures Reaches(k, WithJobs(k, n, QueueState(Jobs(k, n), n > 0), if n > 0 then 1 else 0, 0, [], [], []), Stalled(k))
    decreases k.capacity - n
  {
    if n == k.capacity {
      SlotLost(k);
      RunsUntilBlocked(k, Stalled(k));
      DrainerStarts(k, Stalled(k));
    } else {
      var q, pending := QueueState(Jobs(k, n), n > 0), if n > 0 then 1 else 0;
      FillsSlots(k, n + 1);
      assert Jobs(k, n) + [JobOf(k)] == Jobs(k, n + 1);
      EnqueuesNext(k, n, q, pending, [], []);
      StepsTo(k, WithJobs(k, n, q, pending, 0, [], [], []), ReaderStep(Received(MessageOf(k), true)),
              WithJobs(k, n + 1, QueueState(Jobs(k, n + 1), true), 1, 0, [], [], []), Stalled(k));
    }
  }

  lemma {:induction false} IsStall(k: Case)
    requires IsMultiBatch(k)
    ensures IsStalled(Stalled(k), SetupOf(k))
  {
    SlotsOf(Stalled(k));
    forall s: Step | IsInternal(s) ensures !May(Stalled(k), s, SetupOf(k)) {
    }
  }

  /** Whatever the channel's capacity, a payload of more than one batch can stall an ordered read. */
  lemma {:induction false} MultiBatchReadStalls(k: Case) returns (steps: seq<Step>)
    requires IsMultiBatch(k)
    ensures IsPipelineRun(StreamRead(0, Some([]), None), steps, SetupOf(k))
    ensures IsStalled(PipelineAfter(StreamRead(0, Some([]), None), steps, SetupOf(k)), SetupOf(k))
  {
    var start, connected := StreamRead(0, Some([]), None), WithJobs(k, 0, QueueState([], false), 0, 0, [], [], []);
    assert Jobs(k, 0) == [];
    FillsSlots(k, 0);
    Connects(k);
    StepsTo(k, start, ReaderStep(Connected), connected, Stalled(k));
    steps :| IsPipelineRun(start, steps, SetupOf(k)) && PipelineAfter(start, steps, SetupOf(k)) == Stalled(k);
    IsStall(k);
  }
}
