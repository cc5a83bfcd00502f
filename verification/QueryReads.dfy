/** A whole query read: the route, the readers it starts, and the rows they enqueue between them. */
module QueryReads {
  import opened Values
  import opened Decoding
  import opened ReadStreams
  import opened StreamRuns
  import opened ExactlyOnce
  import opened Delivery
  import opened OrderedDelivery
  import opened ReadPipeline
  import opened Receiver
  import opened Routing
  import opened TableReads
  import opened TableDelivery
  import opened Cutover

  // --- A stream without a schema ---

  lemma {:induction false} MessageSchemaFirst(r: Reader, offset: int, msg: Message, slotGranted: bool, config: Config)
    requires AfterMessage(r, offset, msg, slotGranted, config).metadata.None?
    ensures r.metadata.None? && Pushed(AfterMessage(r, offset, msg, slotGranted, config).done) == Pushed(r.done)
  {
    FatalEnqueuesNothing(r, Protocol);
    FatalEnqueuesNothing(r, Arrow);
    if r.metadata.Some? {
      RowsKeepSchema(r, offset, msg, slotGranted);
    } else if msg.schema.ArrowSchema? {
      RowsKeepSchema(WithSchema(r, msg.schema.serialized), offset, msg, slotGranted);
    }
  }

  lemma {:induction false} RowsKeepSchema(r: Reader, offset: int, msg: Message, slotGranted: bool)
    requires r.metadata.Some?
    ensures AfterSchema(r, offset, msg, slotGranted).metadata == r.metadata
  {
  }

  lemma {:induction false} SchemaFirst(r: Reader, e: Event, config: Config)
    requires Enabled(r.state, e) && (r.metadata.None? ==> Pushed(r.done) == [])
    ensures Next(r, e, config).metadata.None? ==> r.metadata.None? && Pushed(Next(r, e, config).done) == []
  {
    FatalEnqueuesNothing(r, Grpc);
    if e.Received? && Next(r, e, config).metadata.None? {
      MessageSchemaFirst(r, r.state.offset, e.msg, e.slotGranted, config);
    } else if e.Ended? {
      ActionEnqueues(r.done, SendSchema(None));
      assert r.done + [] == r.done;
    }
  }

  lemma {:induction false} SchemaFirstAlways(sys: System, events: seq<Event>, config: Config, src: Source)
    requires IsRun(sys, events, config, src) && (sys.reader.metadata.None? ==> Enqueued(sys) == [])
    ensures
      var after := SystemAfter(sys, events, config, src);
      after.reader.metadata.None? ==> Enqueued(after) == []
    decreases |events|
  {
    if events != [] {
      SchemaFirst(sys.reader, events[0], config);
      SchemaFirstAlways(SystemNext(sys, events[0], config, src), events[1..], config, src);
    }
  }

  /** The job's stream ends without a schema only if the result is empty, so answering it with an empty
      receiver (`resolve_empty_job_stream`) loses nothing. */
  lemma {:induction false} NoSchemaNoRows(check: Option<FirstPageCheck>, events: seq<Event>, config: Config,
                                          src: Source)
    requires IsRun(System(NewReader(0, None, check), 0, false), events, config, src)
    requires
      var sys := SystemAfter(System(NewReader(0, None, check), 0, false), events, config, src);
      sys.ended && sys.reader.metadata.None?
    ensures src.rows == []
  {
    var sys := SystemAfter(System(NewReader(0, None, check), 0, false), events, config, src);
    ReadsExactlyOnce(0, None, check, events, config, src);
    SchemaFirstAlways(System(NewReader(0, None, check), 0, false), events, config, src);
    assert src.rows[0..] == src.rows;
  }

  // --- An ordered query ---

  /** The pipeline that `read` starts for a route that streams. */
  function Started(route: Route): Pipeline
    requires route.FirstPage? || route.JobStream?
  {
    if route.FirstPage? then QueryRead(route.page, route.tail.Some?) else StreamRead(0, route.schema, route.check)
  }

  /** The inline page is what the response says it is, up to its row count. */
  predicate HonestFirstPage(r: QueryResponse, route: Route, src: Source) {
    route.FirstPage? && Decodes(route.page, src.decoder) ==> JobRows(route.page, src.decoder) <= src.rows
  }

  /** From the response to the receiver: every run of an ordered query delivers a prefix of its result, and
      all of it if it ends without an error and is not given up; a query that starts no reader has an empty
      result. */
  lemma {:induction false} OrderedQueryDelivers(r: QueryResponse, parses: Bytes -> bool, route: Route, steps: seq<Step>,
                                                setup: Setup)
    requires IsRouteFor(r, true, parses, route) && HonestResponse(r, setup.src.rows) && !route.Fails?
    requires HonestFirstPage(r, route, setup.src) && setup.capacity > 0
    ensures !route.FirstPage? && !route.JobStream? ==> setup.src.rows == []
    ensures
      route.FirstPage? || route.JobStream? ==>
        IsPipelineRun(Started(route), steps, setup) ==>
          var p := PipelineAfter(Started(route), steps, setup);
          && OkRows(p.received) <= setup.src.rows
          && (AtEnd(p) && NoErr(p.received) && !p.schemaError && !p.aborted ==> OkRows(p.received) == setup.src.rows)
  {
    var rows := setup.src.rows;
    EveryRowOnce(r, true, parses, route, rows);
    assert rows[0..] == rows;
    if route.FirstPage? {
      if Decodes(route.page, setup.src.decoder) {
        DecodedExactly(route.page, setup.src.decoder);
      }
      if IsPipelineRun(Started(route), steps, setup) {
        QueryReadDelivers(route.page, route.tail.Some?, steps, setup);
      }
    } else if route.JobStream? && IsPipelineRun(Started(route), steps, setup) {
      StreamReadDelivers(0, route.schema, route.check, steps, setup);
      NeverSwitches(Started(route), steps, setup);
    }
  }

  // --- An unordered query ---

  /** The read that `read` starts without order; for the whole table, a session with a schema. */
  function StartedUnordered(route: Route, schema: Bytes, session: Session): TableRead
    requires route.FirstPage? || route.JobStream? || route.WholeTable?
  {
    match route
    case FirstPage(page, tail) => NewPageRead(page, tail.Some?)
    case JobStream(metadata, check) => NewStreamRead(metadata, check)
    case _ => NewTableRead(schema, |session.sources|)
  }

  /** The sources are the job's one stream, or the streams of the session, which together are the result. */
  ghost predicate SourcesAre(route: Route, session: Session, src: Source) {
    if route.WholeTable? then Bags(RowBags(session.sources)) == multiset(src.rows) else session.sources == [src]
  }

  lemma {:induction false} StartedUnorderedKeeps(r: QueryResponse, parses: Bytes -> bool, route: Route, schema: Bytes,
                                                 session: Session,
                                                 src: Source)
    requires IsRouteFor(r, false, parses, route) && HonestResponse(r, src.rows) && HonestFirstPage(r, route, src)
    requires route.FirstPage? || route.JobStream? || route.WholeTable?
    requires SourcesAre(route, session, src)
    ensures |StartedUnordered(route, schema, session).streams| == |session.sources|
    ensures TableInvariant(StartedUnordered(route, schema, session), session)
  {
    EveryRowOnce(r, false, parses, route, src.rows);
    match route
    case FirstPage(page, tail) =>
      if Decodes(page, src.decoder) {
        DecodedExactly(page, src.decoder);
      }
      NewPageReadStarts(page, tail.Some?, session);
    case JobStream(metadata, check) => NewStreamReadStarts(metadata, check, session);
    case _ => NewTableReadStarts(schema, session);
  }

  /** Every run of an unordered query that ends cleanly has delivered every row of its result once; a query
      that starts no reader has an empty result. */
  lemma {:induction false} UnorderedQueryDelivers(r: QueryResponse, parses: Bytes -> bool, route: Route, schema: Bytes,
                                                  steps: seq<TableStep>, session: Session, src: Source)
    requires IsRouteFor(r, false, parses, route) && HonestResponse(r, src.rows) && HonestFirstPage(r, route, src)
    requires !route.Fails? && SourcesAre(route, session, src)
    ensures !route.FirstPage? && !route.JobStream? && !route.WholeTable? ==> src.rows == []
    ensures
      route.FirstPage? || route.JobStream? || route.WholeTable? ==>
        var start := StartedUnordered(route, schema, session);
        |start.streams| == |session.sources| && (IsTableRun(start, steps, session) ==>
          var end := TableAfter(start, steps, session);
          EndsCleanly(end) ==> multiset(OkRows(end.received)) == multiset(src.rows))
  {
    EveryRowOnce(r, false, parses, route, src.rows);
    if route.FirstPage? || route.JobStream? || route.WholeTable? {
      StartedUnorderedKeeps(r, parses, route, schema, session, src);
      if IsTableRun(StartedUnordered(route, schema, session), steps, session) {
        UnorderedReadDelivers(StartedUnordered(route, schema, session), steps, session);
        if !route.WholeTable? {
          assert RowBags([src]) == [multiset(src.rows)];
          OneBag(multiset(src.rows));
        }
      }
    }
  }

  /** An unordered query read from its job's stream, with the check that may turn it over to a read session: one
      run through the cutover, whenever it happens or fails. */
  lemma {:induction false} CutoverQueryDelivers(r: QueryResponse, parses: Bytes -> bool, route: Route,
                                                steps: seq<CutoverStep>,
                                                sides: Sides, src: Source)
    requires IsRouteFor(r, false, parses, route) && route.JobStream?
    requires sides.job.sources == [src] && Bags(RowBags(sides.session.sources)) == multiset(src.rows)
    ensures
      var start := CutoverRead(NewStreamRead(route.schema, route.check), FromJob);
      IsCutoverRun(start, steps, sides) ==>
        var end := CutoverAfter(start, steps, sides);
        CutoverEndsCleanly(end) ==> multiset(OkRows(end.read.received)) == multiset(src.rows)
  {
    if IsCutoverRun(CutoverRead(NewStreamRead(route.schema, route.check), FromJob), steps, sides) {
      CutoverReadDelivers(route.schema, route.check, steps, sides);
    }
  }
}
