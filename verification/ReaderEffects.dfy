/** What one step of the reader does to the pipeline: it cancels exactly when it fails, and it terminates
    for no other reason than the end of the stream, cancellation, a missing slot or the cutover. */
module ReaderEffects {
  import opened Values
  import opened Decoding
  import opened ReadStreams
  import opened StreamRuns
  import opened ExactlyOnce
  import opened Delivery

  predicate IsQuiet(actions: seq<Action>) { forall a | a in actions :: a.SendSchema? || a.Push? }

  /** The step fails: it ends with cancellation and the error. */
  predicate Fails(r: Reader, after: Reader) {
    var n := |after.done|;
    && n >= |r.done| + 2 && r.done == after.done[..|r.done|] && IsQuiet(after.done[|r.done|..n - 2])
    && after.done[n - 2].SetCancel? && (after.done[n - 1].SendSchemaError? || after.done[n - 1].SendError?)
    && after.state == Terminated(Finished)
  }

  predicate Succeeds(r: Reader, after: Reader) {
    r.done <= after.done && IsQuiet(after.done[|r.done|..])
  }

  lemma {:induction false} FatalFails(r: Reader, known: Reader, error: ReadError)
    requires known.done == r.done
          || (|known.done| == |r.done| + 1 && r.done <= known.done && known.done[|r.done|].SendSchema?)
    ensures Fails(r, Fatal(known, error))
  {
    var after := Fatal(known, error);
    assert after.done[..|r.done|] == r.done;
    assert after.done[|r.done|..|after.done| - 2] == known.done[|r.done|..];
  }

  /** `known` is `r`, possibly after handing over the schema. */
  predicate Knows(r: Reader, known: Reader) {
    && known.metadata.Some?
    && (known.done == r.done
        || (|known.done| == |r.done| + 1 && r.done <= known.done && known.done[|r.done|].SendSchema?))
  }

  /** Without a slot the reader stops where it would have enqueued. */
  predicate StoppedFor(msg: Message, denied: Reader, granted: Reader) {
    denied.state == Terminated(Finished) ==> granted.state.Reading? && msg.rows.ArrowRows? && msg.rows.payload != []
  }

  lemma {:induction false} RowsOutcome(r: Reader, known: Reader, offset: int, msg: Message, slotGranted: bool)
    requires Knows(r, known)
    ensures
      var after := AfterSchema(known, offset, msg, slotGranted);
      Fails(r, after)
      || (Succeeds(r, after)
          && (if slotGranted then after.state != Terminated(Finished)
              else StoppedFor(msg, after, AfterSchema(known, offset, msg, true))))
  {
    FatalFails(r, known, Protocol);
    var payload := ValidatedBytes(PayloadOf(msg.rows), msg.rowCount);
    if payload.Rows? && !msg.rows.OtherRows? {
      PageOutcome(r, known, offset, payload.bytes, msg, slotGranted);
    }
  }

  lemma {:induction false} PageOutcome(r: Reader, known: Reader, offset: int, payload: Bytes, msg: Message,
                                       slotGranted: bool)
    requires Knows(r, known)
    ensures
      var after := AfterPage(known, offset, payload, msg, slotGranted);
      Fails(r, after)
      || (Succeeds(r, after)
          && (after.state == Terminated(Finished) ==>
                !slotGranted && AfterPage(known, offset, payload, msg, true).state.Reading?))
  {
    var checked := known.(check := None);
    FatalFails(r, checked, Protocol);
    assert AfterBatch(known, offset, payload, msg, slotGranted).done
         == AfterBatch(checked, offset, payload, msg, slotGranted).done;
  }

  lemma {:induction false} MessageOutcome(r: Reader, offset: int, msg: Message, slotGranted: bool, config: Config)
    ensures
      var after := AfterMessage(r, offset, msg, slotGranted, config);
      Fails(r, after)
      || (Succeeds(r, after)
          && (if slotGranted then after.state != Terminated(Finished)
              else StoppedFor(msg, after, AfterMessage(r, offset, msg, true, config))))
  {
    FatalFails(r, r, Protocol);
    FatalFails(r, r, Arrow);
    if r.metadata.Some? {
      RowsOutcome(r, r, offset, msg, slotGranted);
    } else if msg.schema.ArrowSchema? {
      RowsOutcome(r, WithSchema(r, msg.schema.serialized), offset, msg, slotGranted);
    }
  }

  lemma {:induction false} PushedNext(r: Reader, e: Event, config: Config)
    requires Enabled(r.state, e)
    ensures Pushed(Next(r, e, config).done) == Pushed(r.done) + Pushed(NewActions(r, e, config))
  {
    NextAppends(r, e, config);
    assert Next(r, e, config).done == r.done + NewActions(r, e, config);
    PushedConcat(r.done, NewActions(r, e, config));
  }

  /** At most one job is enqueued, for a batch that was granted its slot, by a reader that reads on. */
  lemma {:induction false} AtMostOnePush(r: Reader, e: Event, config: Config)
    requires Enabled(r.state, e)
    ensures
      var pushed := Pushed(NewActions(r, e, config));
      |pushed| <= 1 && (pushed != [] ==> Enqueues(r, e, config) && e.slotGranted && Next(r, e, config).state.Reading?)
  {
    PushedNext(r, e, config);
    FatalEnqueuesNothing(r, Grpc);
    if e.Received? {
      MessageEffect(r, r.state.offset, e.msg, e.slotGranted, config);
      if !e.slotGranted {
        DeniedPushesNothing(r, r.state.offset, e.msg, config);
      } else {
        assert e.(slotGranted := true) == e;
      }
    } else if e.Ended? {
      ActionEnqueues(r.done, SendSchema(None));
      assert r.done + [] == r.done;
    }
  }

  lemma {:induction false} DeniedPushesNothing(r: Reader, offset: int, msg: Message, config: Config)
    ensures Pushed(AfterMessage(r, offset, msg, false, config).done) == Pushed(r.done)
  {
    FatalEnqueuesNothing(r, Protocol);
    FatalEnqueuesNothing(r, Arrow);
    if r.metadata.Some? {
      DeniedRows(r, offset, msg);
    } else if msg.schema.ArrowSchema? {
      ActionEnqueues(r.done, SendSchema(Some(msg.schema.serialized)));
      assert r.done + [] == r.done;
      DeniedRows(WithSchema(r, msg.schema.serialized), offset, msg);
    }
  }

  lemma {:induction false} DeniedRows(r: Reader, offset: int, msg: Message)
    requires r.metadata.Some?
    ensures Pushed(AfterSchema(r, offset, msg, false).done) == Pushed(r.done)
  {
    FatalEnqueuesNothing(r, Protocol);
    FatalEnqueuesNothing(r.(check := None), Protocol);
  }

  /** A reader stops for no other reason than an error, which it reports, the end of the stream,
      cancellation, the cutover, or a batch for which there is no slot. */
  lemma {:induction false} WhyItStops(r: Reader, e: Event, config: Config)
    requires Enabled(r.state, e) && Next(r, e, config).state.Terminated?
    ensures
      var after := Next(r, e, config);
      || Fails(r, after)
      || (Succeeds(r, after)
          && (e.CancelSeen? || e.Ended? || after.state == Terminated(SwitchToReadSession)
              || (Enqueues(r, e, config) && !e.slotGranted)))
  {
    FatalFails(r, r, Grpc);
    if e.Received? {
      MessageOutcome(r, r.state.offset, e.msg, e.slotGranted, config);
      if !e.slotGranted && Next(r, e, config).state == Terminated(Finished) && !Fails(r, Next(r, e, config)) {
        DeniedEnqueues(r, e, config);
      }
    }
  }

  lemma {:induction false} DeniedEnqueues(r: Reader, e: Event, config: Config)
    requires Enabled(r.state, e) && e.Received?
    requires AfterMessage(r, r.state.offset, e.msg, true, config).state.Reading? && e.msg.rows.ArrowRows?
    requires e.msg.rows.payload != []
    ensures Enqueues(r, e, config)
  {
    MessageEffect(r, r.state.offset, e.msg, true, config);
  }

  lemma {:induction false} ItGoesOn(r: Reader, e: Event, config: Config)
    requires Enabled(r.state, e) && !Next(r, e, config).state.Terminated?
    ensures Succeeds(r, Next(r, e, config))
  {
    if e.Received? {
      MessageOutcome(r, r.state.offset, e.msg, e.slotGranted, config);
    }
  }

  /** Cancelling and failing, seen in the actions. */
  lemma {:induction false} ActionsOf(r: Reader, e: Event, config: Config)
    requires Enabled(r.state, e)
    ensures
      var actions, after := NewActions(r, e, config), Next(r, e, config);
      if Fails(r, after) then
        SetCancel in actions && (FailsSchema(actions) || FailsBatches(actions))
      else
        SetCancel !in actions && !FailsSchema(actions) && !FailsBatches(actions)
  {
    var actions, after := NewActions(r, e, config), Next(r, e, config);
    if after.state.Terminated? {
      WhyItStops(r, e, config);
    } else {
      ItGoesOn(r, e, config);
    }
    NextAppends(r, e, config);
    if Fails(r, after) {
      assert actions[|actions| - 2] == SetCancel && actions[|actions| - 1] == after.done[|after.done| - 1];
    }
  }
}
