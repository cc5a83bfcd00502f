/** Where the rows of a query come from (`Query::read`, query.rs:369-486): the inline first page and the
    tail of the job's stream, the whole stream, or the destination table through a read session. */
module Routing {
  import opened Values
  import opened Decoding
  import opened ReadStreams

  const MULTI_STREAM_THRESHOLD_BYTES: real := 262_144_000.0
  const MULTI_STREAM_THRESHOLD_ROWS: nat := 32_768_000

  /** The parts of a `QueryResponse` that decide; `jobReference` tells whether it names a project, a job and
      a location. */
  datatype QueryResponse = QueryResponse(
    jobComplete: Option<bool>,
    schema: SchemaField,
    results: RowsField,
    pageRowCount: int,
    totalRows: Option<nat>,
    pageToken: string,
    statementType: string,
    jobReference: bool)

  datatype Route =
    | Fails(error: ReadError)
    | JobStream(schema: Option<Bytes>, check: Option<FirstPageCheck>)
    | WholeTable
    | EmptyResult(schema: Option<Bytes>)
    | ResolveEmpty
    | FirstPage(page: DecodeJob, tail: Option<int>)

  predicate IsIncomplete(r: QueryResponse) { r.jobComplete == Some(false) }

  /** `can_read_destination_table`. */
  predicate CanReadDestinationTable(r: QueryResponse, maintainOrder: bool) {
    !maintainOrder && r.statementType != "SCRIPT"
  }

  function InlineSchema(r: QueryResponse): Option<Bytes> {
    if r.schema.ArrowSchema? && r.schema.serialized != [] then Some(r.schema.serialized) else None
  }

  predicate HasPage(r: QueryResponse) { r.results.ArrowRows? && r.results.payload != [] }

  predicate HasRemainingRows(r: QueryResponse) {
    (r.totalRows.Some? && r.totalRows.value > r.pageRowCount) || r.pageToken != ""
  }

  predicate ReadsTable(r: QueryResponse, maintainOrder: bool) {
    CanReadDestinationTable(r, maintainOrder) && r.totalRows.Some? && r.totalRows.value >= MULTI_STREAM_THRESHOLD_ROWS
  }

  /** The response cannot be read: it needs a job it does not name, or its parts do not fit. */
  predicate IsUnreadable(r: QueryResponse, maintainOrder: bool, parses: Bytes -> bool) {
    if IsIncomplete(r) then !r.jobReference
    else
      || r.schema.OtherSchema? || r.results.OtherRows? || r.pageRowCount < 0
      || (!HasPage(r) && r.pageRowCount != 0)
      || (if ReadsTable(r, maintainOrder) then !r.jobReference
          else
            || (HasRemainingRows(r) && !r.jobReference)
            || (HasPage(r) && InlineSchema(r).None?)
            || (InlineSchema(r).Some? && !parses(InlineSchema(r).value))
            || (!HasPage(r) && InlineSchema(r).None? && !r.jobReference))
  }

  predicate AnySchema(schema: Bytes) { true }

  /** What `read` promises about the route it takes. It fails with an error of the protocol, or with Arrow's where
      only the bytes of the schema stand in the way. */
  predicate IsRouteFor(r: QueryResponse, maintainOrder: bool, parses: Bytes -> bool, route: Route) {
    && (route.Fails? <==> IsUnreadable(r, maintainOrder, parses))
    && (route.Fails? ==>
          route.error == if IsUnreadable(r, maintainOrder, AnySchema) then Protocol else Arrow)
    && (!route.Fails? ==>
          && (route.WholeTable? <==> !IsIncomplete(r) && ReadsTable(r, maintainOrder))
          && (route.FirstPage? <==> !IsIncomplete(r) && !route.WholeTable? && HasPage(r))
          && (route.JobStream? <==> IsIncomplete(r) || (!route.WholeTable? && !HasPage(r) && HasRemainingRows(r))))
    && (route.FirstPage? ==>
          && InlineSchema(r).Some?
          && route.page == DecodeJob(r.results.payload, r.pageRowCount, InlineSchema(r).value)
          && route.tail == if HasRemainingRows(r) then Some(r.pageRowCount) else None)
    && (route.JobStream? ==>
          && route.schema == (if IsIncomplete(r) then None else InlineSchema(r))
          && route.check == if CanReadDestinationTable(r, maintainOrder)
                            then Some(FirstPageCheck(MULTI_STREAM_THRESHOLD_BYTES, r.totalRows)) else None)
    && (route.EmptyResult? ==>
          route.schema == InlineSchema(r) && (route.schema.None? ==> r.statementType !in ["", "SELECT"]))
    && (route.ResolveEmpty? ==> InlineSchema(r).None? && r.statementType in ["", "SELECT"])
  }

  /** `read_job_stream_or_table`, up to opening the stream. */
  method ReadJobStreamOrTable(r: QueryResponse, maintainOrder: bool, parses: Bytes -> bool, schema: Option<Bytes>)
    returns (route: Route)
    requires r.jobReference
    ensures route ==
      if schema.Some? && !parses(schema.value) then Fails(Arrow)
      else JobStream(schema, if CanReadDestinationTable(r, maintainOrder)
                             then Some(FirstPageCheck(MULTI_STREAM_THRESHOLD_BYTES, r.totalRows)) else None)
  {
    var check: Option<FirstPageCheck> := None;
    if CanReadDestinationTable(r, maintainOrder) {
      check := Some(FirstPageCheck(MULTI_STREAM_THRESHOLD_BYTES, r.totalRows));
    }
    if schema.Some? && !parses(schema.value) {
      return Fails(Arrow);
    }
    return JobStream(schema, check);
  }

  /** `read`. */
  method Read(response: QueryResponse, maintainOrder: bool, parses: Bytes -> bool) returns (route: Route)
    ensures IsRouteFor(response, maintainOrder, parses, route)
  {
    if response.jobComplete == Some(false) {
      if !response.jobReference {
        return Fails(Protocol);
      }
      route := ReadJobStreamOrTable(response, maintainOrder, parses, None);
      return;
    }
    if response.schema.OtherSchema? || response.pageRowCount < 0 || response.results.OtherRows? {
      return Fails(Protocol);
    }
    var serializedSchema := InlineSchema(response);
    var firstPage := ValidatedBytes(PayloadOf(response.results), response.pageRowCount);
    if firstPage.CountMismatch? {
      return Fails(Protocol);
    }
    if CanReadDestinationTable(response, maintainOrder)
       && response.totalRows.Some? && response.totalRows.value >= MULTI_STREAM_THRESHOLD_ROWS {
      return if response.jobReference then WholeTable else Fails(Protocol);
    }
    var hasRemainingRows := (response.totalRows.Some? && response.totalRows.value > response.pageRowCount)
                            || response.pageToken != "";
    if hasRemainingRows && !response.jobReference {
      return Fails(Protocol);
    }
    if firstPage.Rows? {
      if serializedSchema.None? {
        return Fails(Protocol);
      }
      if !parses(serializedSchema.value) {
        return Fails(Arrow);
      }
      return FirstPage(DecodeJob(firstPage.bytes, response.pageRowCount, serializedSchema.value),
                       if hasRemainingRows then Some(response.pageRowCount) else None);
    }
    if hasRemainingRows {
      route := ReadJobStreamOrTable(response, maintainOrder, parses, serializedSchema);
      return;
    }
    if serializedSchema.Some? {
      return if parses(serializedSchema.value) then EmptyResult(serializedSchema) else Fails(Arrow);
    }
    if !response.jobReference {
      return Fails(Protocol);
    }
    return if response.statementType !in ["", "SELECT"] then EmptyResult(None) else ResolveEmpty;
  }

  // --- Every row once ---

  /** What BigQuery says about a result: a complete response holds its first rows, reports their number, and
      if it leaves out the total it has a page token whenever there are more. */
  predicate HonestResponse(r: QueryResponse, result: seq<Row>) {
    !IsIncomplete(r) ==>
      && r.pageRowCount <= |result|
      && (r.totalRows.Some? ==> r.totalRows.value == |result|)
      && (r.totalRows.None? && r.pageToken == "" ==> r.pageRowCount == |result|)
  }

  /** A readable response is routed so that nothing is lost or read twice: an inline page and the tail that follows
      it are the result, in order, and a read without any source has an empty result; only a caller that gave up
      the order gets several streams. */
  lemma {:induction false} EveryRowOnce(r: QueryResponse, maintainOrder: bool, parses: Bytes -> bool, route: Route,
                                        result: seq<Row>)
    requires IsRouteFor(r, maintainOrder, parses, route) && HonestResponse(r, result) && !route.Fails?
    ensures route.FirstPage? ==> 0 <= route.page.expectedRowCount <= |result|
    ensures route.FirstPage? && route.tail.Some? ==> 0 <= route.tail.value <= |result|
    ensures route.FirstPage? ==>
              result[..route.page.expectedRowCount]
              + (if route.tail.Some? then result[route.tail.value..] else []) == result
    ensures route.EmptyResult? || route.ResolveEmpty? ==> result == []
    ensures maintainOrder || r.statementType == "SCRIPT" ==>
                !route.WholeTable? && (route.JobStream? ==> route.check.None?)
  {
    if route.FirstPage? && route.tail.None? {
      assert |result| == r.pageRowCount;
      assert result[..|result|] + [] == result;
    }
  }

  /** A response in order: it names its job, its parts are in Arrow format, it reports the rows of its page, and with
      them comes a schema that parses. */
  predicate IsWellFormed(r: QueryResponse, parses: Bytes -> bool) {
    && !r.schema.OtherSchema? && !r.results.OtherRows? && r.pageRowCount >= 0 && (r.pageRowCount > 0 ==> HasPage(r))
    && (HasPage(r) ==> InlineSchema(r).Some?)
    && (InlineSchema(r).Some? ==> parses(InlineSchema(r).value))
  }

  /** No such response is refused; one that is complete and carries its whole result needs no job either. */
  lemma {:induction false} WellFormedIsRead(r: QueryResponse, maintainOrder: bool, parses: Bytes -> bool, route: Route)
    requires IsRouteFor(r, maintainOrder, parses, route) && IsWellFormed(r, parses)
    ensures r.jobReference ==> !route.Fails?
    ensures !IsIncomplete(r) && HasPage(r) && !HasRemainingRows(r) && maintainOrder ==>
              route == FirstPage(DecodeJob(r.results.payload, r.pageRowCount, r.schema.serialized), None)
  {
  }
}
