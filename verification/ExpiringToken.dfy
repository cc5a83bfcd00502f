/** How long the first look at the cache may come after the look at the clock: not at all, if what it serves is to
    have a minute left. */
module ExpiringToken {
  import opened Values
  import opened TokenCaches
  import opened TokenRefresh
  import opened TokenSafety

  /** The caller is about to look at the cache, `delay` after it looked at the clock, and will be served from it. */
  predicate IsServedLate(w: World, i: nat, delay: nat) {
    && May(w, ReadCache(i)) && w.callers[i].now + delay == w.clock
    && w.cache.token.Some? && !Next(w, ReadCache(i)).callers[i].Waiting?
  }

  predicate ServesMinute(w: World, i: nat, delay: nat) {
    IsServedLate(w, i, delay) ==> HasMinuteLeft(w.cache.token.value, w.clock)
  }

  predicate ServesMinuteIfKnown(w: World, i: nat, delay: nat) {
    IsServedLate(w, i, delay) && w.cache.token.value.fetchedAt <= w.callers[i].now ==> ServesMinute(w, i, delay)
  }

  /** In every run, a first look so late serves only tokens with a minute left. */
  ghost predicate AlwaysServesMinute(delay: nat) {
    forall clock, steps, i: nat | IsRun(NewWorld(clock), steps) :: ServesMinute(After(NewWorld(clock), steps), i, delay)
  }

  /** The same of tokens that had been fetched when the caller looked at the clock. */
  ghost predicate ServesMinuteOfKnown(delay: nat) {
    forall clock, steps, i: nat | IsRun(NewWorld(clock), steps) ::
      ServesMinuteIfKnown(After(NewWorld(clock), steps), i, delay)
  }

  function With(clock: int, cache: Cache, writer: Option<nat>, callers: seq<Caller>, worker: Worker,
                commits: seq<nat>): World {
    World(clock, cache, writer, Some(HeldByRefresh(0)), callers, [],
          [Refresh(Active, false, worker, None, 0, false)], commits)
  }

  /** A refresh runs to its commit. */
  lemma {:induction false} RefreshRuns(clock: int, expiry: int, callers: seq<Caller>, after: World)
    requires
      Reaches(With(clock, WithToken(Token(0, clock, Some(expiry))), None, callers, Exited(true), [0]), after)
    ensures Reaches(With(clock, Cache(None, 0, None), None, callers, Fetching, []), after)
  {
    var none, t := Cache(None, 0, None), Token(0, clock, Some(expiry));
    var w1 := With(clock, none, None, callers, Fetching, []);
    var w2 := With(clock, none, None, callers, Fetched(t), []);
    var w3 := With(clock, none, None, callers, Checked(t), []);
    var w4 := With(clock, none, Some(0), callers, Writing(t), []);
    var w5 := With(clock, none, Some(0), callers, Committing(t), []);
    var w6 := With(clock, WithToken(t), None, callers, Exited(true), [0]);
    StepsTo(w5, Commit(0), w6, after);
    StepsTo(w4, Recheck(0), w5, after);
    StepsTo(w3, AcquireWrite(0), w4, after);
    StepsTo(w2, CheckTimeout(0), w3, after);
    StepsTo(w1, FetchToken(0, Some(Some(expiry))), w2, after);
  }

  /** The last of some calls finds the cache empty, waits for the lock and starts a refresh. */
  lemma {:induction false} RefreshStarts(callers: seq<Caller>, after: World)
    requires Reaches(With(0, Cache(None, 0, None), None, callers + [AwaitingRefresh(0)], Fetching, []), after)
    ensures Reaches(World(0, Cache(None, 0, None), None, None, callers, [], [], []), after)
  {
    var none, i := Cache(None, 0, None), |callers|;
    var w1 := World(0, none, None, None, callers, [], [], []);
    var w2 := World(0, none, None, None, callers + [Called(0)], [], [], []);
    var w3 := World(0, none, None, None, callers + [Waiting], [], [], []);
    var w4 := World(0, none, None, Some(HeldByCaller(i)), callers + [Locked], [], [], []);
    var w5 := With(0, none, None, callers + [AwaitingRefresh(0)], Fetching, []);
    assert (callers + [Called(0)])[i := Waiting] == callers + [Waiting];
    assert (callers + [Waiting])[i := Locked] == callers + [Locked];
    assert (callers + [Locked])[i := AwaitingRefresh(0)] == callers + [AwaitingRefresh(0)];
    StepsTo(w4, DoubleCheck(i), w5, after);
    StepsTo(w3, Lock(i), w4, after);
    StepsTo(w2, ReadCache(i), w3, after);
    StepsTo(w1, Call, w2, after);
  }

  /** A token that is just about to be too old when the call begins: a run that serves it `delay` later. */
  lemma {:induction false} KnownTokenServedLate(delay: nat) returns (steps: seq<Step>)
    ensures IsRun(NewWorld(0), steps)
    ensures
      var w := After(NewWorld(0), steps);
      && IsServedLate(w, 1, delay) && w.cache.token == Some(Token(0, 0, Some(HARD_EXPIRY_BUFFER + 1)))
      && w.clock == delay && w.callers[1].now == 0
  {
    var t := Token(0, 0, Some(HARD_EXPIRY_BUFFER + 1));
    var w1 := With(0, WithToken(t), None, [AwaitingRefresh(0)], Exited(true), [0]);
    var w2 := With(0, WithToken(t), None, [AwaitingRefresh(0), Called(0)], Exited(true), [0]);
    var w3 := With(delay, WithToken(t), None, [AwaitingRefresh(0), Called(0)], Exited(true), [0]);
    Stays(w3);
    StepsTo(w2, Tick(delay), w3, w3);
    StepsTo(w1, Call, w2, w3);
    RefreshRuns(0, HARD_EXPIRY_BUFFER + 1, [AwaitingRefresh(0)], w3);
    assert [] + [AwaitingRefresh(0)] == [AwaitingRefresh(0)];
    RefreshStarts([], w3);
    steps :| IsRun(NewWorld(0), steps) && After(NewWorld(0), steps) == w3;
  }

  /** A token fetched after the call began: a run that serves it, whatever its expiry. */
  lemma {:induction false} LaterTokenServed(delay: nat, expiry: int) returns (steps: seq<Step>)
    requires delay > 0
    ensures IsRun(NewWorld(0), steps)
    ensures
      var w := After(NewWorld(0), steps);
      && IsServedLate(w, 0, delay) && w.cache.token == Some(Token(0, delay, Some(expiry))) && w.clock == delay
      && Next(w, ReadCache(0)).callers[0] == Done(Cached(w.cache.token.value))
  {
    var none, t, callers := Cache(None, 0, None), Token(0, delay, Some(expiry)), [Called(0), AwaitingRefresh(0)];
    var w0 := NewWorld(0);
    var w1 := World(0, none, None, None, [Called(0)], [], [], []);
    var w2 := With(0, none, None, callers, Fetching, []);
    var w3 := With(delay, none, None, callers, Fetching, []);
    var w4 := With(delay, WithToken(t), None, callers, Exited(true), [0]);
    EarlyCallerServesAnyToken(t, 0);
    Stays(w4);
    RefreshRuns(delay, expiry, callers, w4);
    StepsTo(w2, Tick(delay), w3, w4);
    assert [Called(0)] + [AwaitingRefresh(0)] == callers;
    RefreshStarts([Called(0)], w4);
    StepsTo(w0, Call, w1, w4);
    steps :| IsRun(w0, steps) && After(w0, steps) == w4;
  }

  /** Looking at the clock and at the cache in one step serves no token without a minute left. */
  lemma {:induction false} PromptLookServesMinute(clock: int, steps: seq<Step>, i: nat)
    requires IsRun(NewWorld(clock), steps)
    ensures ServesMinute(After(NewWorld(clock), steps), i, 0)
  {
    var w := After(NewWorld(clock), steps);
    RunKeeps(NewWorld(clock), steps);
    if IsServedLate(w, i, 0) {
      ServedIff(w.cache.token.value, w.clock);
    }
  }

  /** The first look at the cache serves only tokens with more than a minute left, in every run, if and only if it
      comes at the very time at which the call began. */
  lemma {:induction false} FirstLookServesMinuteIff(delay: nat)
    ensures AlwaysServesMinute(delay) <==> delay == 0
  {
    if delay == 0 {
      forall clock, steps, i: nat | IsRun(NewWorld(clock), steps)
        ensures ServesMinute(After(NewWorld(clock), steps), i, 0)
      {
        PromptLookServesMinute(clock, steps, i);
      }
    } else {
      var steps := LaterTokenServed(delay, delay);
      assert !ServesMinute(After(NewWorld(0), steps), 0, delay);
    }
  }

  /** Nor does it help that the token was fetched before the call began. */
  lemma {:induction false} FirstLookServesKnownIff(delay: nat)
    ensures ServesMinuteOfKnown(delay) <==> delay == 0
  {
    if delay == 0 {
      forall clock, steps, i: nat | IsRun(NewWorld(clock), steps)
        ensures ServesMinuteIfKnown(After(NewWorld(clock), steps), i, 0)
      {
        PromptLookServesMinute(clock, steps, i);
      }
    } else {
      var steps := KnownTokenServedLate(delay);
      assert !ServesMinuteIfKnown(After(NewWorld(0), steps), 1, delay);
    }
  }
}
