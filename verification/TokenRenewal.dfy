/** Tokens are renewed: from every state in which nobody holds a lock, one call and what it starts bring a new token,
    in the background while the old one still lasts, and before the call returns when it does not. */
module TokenRenewal {
  import opened Values
  import opened TokenCaches
  import opened TokenRefresh
  import opened TokenSafety
  import opened TokenSteps

  predicate IsIdle(w: World) { w.holder.None? && w.writer.None? }

  /** A refresh that was just started. */
  predicate IsStarted(w: World, g: nat) {
    && IsRefresh(w, g) && w.writer.None?
    && w.refreshes[g].worker.Fetching? && w.refreshes[g].coordinator.Active? && !w.refreshes[g].timedOut
  }

  /** The provider's answer: no token, or one with its expiry, if it has any. */
  type Outcome = Option<Option<int>>

  /** The world after a refresh that ran undisturbed: its token is in the cache and the lock is free. */
  function Ended(w: World, g: nat, outcome: Outcome): World
    requires IsRefresh(w, g)
  {
    var r := w.refreshes[g].(worker := Exited(outcome.Some?), coordinator := Finished(outcome.Some?));
    var released := WithRefresh(w, g, r).(holder := None);
    if outcome.None? then released
    else released.(cache := WithToken(Token(g, w.clock, outcome.value)), commits := w.commits + [g])
  }

  lemma {:induction false} WorkerMovesOn(w: World, g: nat, a: Worker, b: Worker)
    requires IsRefresh(w, g)
    ensures WithWorker(WithWorker(w, g, a), g, b) == WithWorker(w, g, b)
  {
    var r := w.refreshes[g];
    assert w.refreshes[g := r.(worker := a)][g := r.(worker := b)] == w.refreshes[g := r.(worker := b)];
  }

  lemma {:induction false} Completes(w: World, g: nat, ok: bool, after: World)
    requires IsRefresh(w, g) && w.refreshes[g].coordinator.Active?
    requires Reaches(WithRefresh(w, g, w.refreshes[g].(worker := Exited(ok), coordinator := Finished(ok)))
                     .(holder := None), after)
    ensures Reaches(WithWorker(w, g, Exited(ok)), after)
  {
    var r, exited := w.refreshes[g], WithWorker(w, g, Exited(ok));
    var done := r.(worker := Exited(ok), coordinator := Finished(ok));
    assert exited.refreshes[g := done] == w.refreshes[g := done];
    StepsTo(exited, Complete(g), WithRefresh(w, g, done).(holder := None), after);
  }

  /** A refresh whose provider fails leaves the cache alone and frees the lock. */
  lemma {:induction false} RefreshFails(w: World, g: nat, after: World)
    requires IsStarted(w, g) && Reaches(Ended(w, g, None), after)
    ensures Reaches(w, after)
  {
    Completes(w, g, false, after);
    StepsTo(w, FetchToken(g, None), WithWorker(w, g, Exited(false)), after);
  }

  /** A refresh whose provider answers in time commits the token. */
  lemma {:induction false} RefreshCommits(w: World, g: nat, expiry: Option<int>, after: World)
    requires IsStarted(w, g) && Reaches(Ended(w, g, Some(expiry)), after)
    ensures Reaches(w, after)
  {
    var t := Token(g, w.clock, expiry);
    var renewed := w.(cache := WithToken(t), commits := w.commits + [g]);
    var w1, w2 := WithWorker(w, g, Fetched(t)), WithWorker(w, g, Checked(t));
    var w3, w4 := WithWorker(w, g, Writing(t)).(writer := Some(g)), WithWorker(w, g, Committing(t)).(writer := Some(g));
    var w5 := WithWorker(renewed, g, Exited(true));
    WorkerMovesOn(w, g, Fetched(t), Checked(t));
    WorkerMovesOn(w, g, Checked(t), Writing(t));
    WorkerMovesOn(w, g, Writing(t), Committing(t));
    WorkerMovesOn(w, g, Committing(t), Exited(true));
    Completes(renewed, g, true, after);
    StepsTo(w4, Commit(g), w5, after);
    StepsTo(w3, Recheck(g), w4, after);
    StepsTo(w2, AcquireWrite(g), w3, after);
    StepsTo(w1, CheckTimeout(g), w2, after);
    StepsTo(w, FetchToken(g, Some(expiry)), w1, after);
  }

  lemma {:induction false} RefreshRuns(w: World, g: nat, outcome: Outcome, after: World)
    requires IsStarted(w, g) && Reaches(Ended(w, g, outcome), after)
    ensures Reaches(w, after)
  {
    match outcome
    case None => RefreshFails(w, g, after);
    case Some(expiry) => RefreshCommits(w, g, expiry, after);
  }

  /** A refresh started over the cached token of `w` that has run to its end. */
  function OverRefresh(w: World, outcome: Outcome, background: bool): Refresh {
    Refresh(Finished(outcome.Some?), false, Exited(outcome.Some?), w.cache.token, w.clock, background)
  }

  // --- In the background ---

  /** The cached token has between one and two minutes left. */
  predicate IsSoftExpired(w: World) {
    CacheLasts(w.cache, w.clock, HARD_EXPIRY_BUFFER) && !CacheLasts(w.cache, w.clock, SOFT_EXPIRY_BUFFER)
  }

  /** The world after a background refresh over `w`, started by a call that was served at once. */
  function RenewedInBackground(w: World, outcome: Outcome): World
    requires w.cache.token.Some?
  {
    var g := |w.refreshes|;
    w.(callers := w.callers + [Done(Cached(w.cache.token.value))],
       backgrounds := w.backgrounds + [Over],
       refreshes := w.refreshes + [OverRefresh(w, outcome, true)],
       cache := if outcome.Some? then WithToken(Token(g, w.clock, outcome.value))
                else WithFailure(w.cache, w.clock, BASE_COOLDOWN),
       commits := if outcome.Some? then w.commits + [g] else w.commits)
  }

  /** A background task that has been spawned refreshes the token. */
  lemma {:induction false} BackgroundRuns(w: World, outcome: Outcome, after: World)
    requires IsIdle(w) && IsSoftExpired(w) && IsDue(w.cache, w.clock) && w.cache.token.value.fetchedAt <= w.clock
    requires Reaches(RenewedInBackground(w, outcome), after)
    ensures
      var served := w.callers + [Done(Cached(w.cache.token.value))];
      Reaches(w.(callers := served, holder := Some(HeldByBackground(|w.backgrounds|)),
                 backgrounds := w.backgrounds + [Owning]), after)
  {
    var b, g, served := |w.backgrounds|, |w.refreshes|, w.callers + [Done(Cached(w.cache.token.value))];
    var w1 := w.(callers := served, holder := Some(HeldByBackground(b)), backgrounds := w.backgrounds + [Owning]);
    var w2 := w.(callers := served, holder := Some(HeldByRefresh(g)),
                 backgrounds := w.backgrounds + [AwaitingBackground(g)],
                 refreshes := w.refreshes + [Refresh(Active, false, Fetching, w.cache.token, w.clock, true)]);
    var w3 := Ended(w2, g, outcome);
    CachedFreshnessIff(w, w.clock);
    assert w1.backgrounds[b := AwaitingBackground(g)] == w2.backgrounds;
    assert w3.backgrounds[b := Over] == w.backgrounds + [Over];
    assert Next(w3, BackgroundResult(b)) == RenewedInBackground(w, outcome);
    StepsTo(w3, BackgroundResult(b), RenewedInBackground(w, outcome), after);
    RefreshRuns(w2, g, outcome, after);
    StepsTo(w1, BackgroundCheck(b), w2, after);
  }

  /** Stale while revalidate: with no lock held and no failure waited out, a call that finds the token soft-expired is
      served it at once and starts a refresh. What the provider answers is committed; if it fails, the old token stays
      and the next attempt is put off. */
  lemma {:induction false} SoftExpiredIsRenewed(w: World, outcome: Outcome)
    requires Invariant(w) && IsIdle(w) && IsSoftExpired(w) && IsDue(w.cache, w.clock)
    ensures Reaches(w, RenewedInBackground(w, outcome))
  {
    var i, t, after := |w.callers|, w.cache.token.value, RenewedInBackground(w, outcome);
    var w1, w2 := w.(callers := w.callers + [Called(w.clock)]), w.(callers := w.callers + [SoftHit(t, true)]);
    var w3 := w.(callers := w.callers + [Done(Cached(t))], holder := Some(HeldByBackground(|w.backgrounds|)),
                 backgrounds := w.backgrounds + [Owning]);
    CachedFreshnessIff(w, w.clock);
    assert w1.callers[i := SoftHit(t, true)] == w2.callers && w2.callers[i := Done(Cached(t))] == w3.callers;
    Stays(after);
    BackgroundRuns(w, outcome, after);
    StepsTo(w2, TrySoftRefresh(i), w3, after);
    StepsTo(w1, ReadCache(i), w2, after);
    StepsTo(w, Call, w1, after);
  }

  // --- Before the call returns ---

  /** The world after a call that had to wait for its own refresh. */
  function RenewedForCaller(w: World, outcome: Outcome): World {
    var g := |w.refreshes|;
    w.(callers := w.callers + [Done(Refreshed(g))],
       refreshes := w.refreshes + [OverRefresh(w, outcome, false)],
       cache := if outcome.Some? then WithToken(Token(g, w.clock, outcome.value)) else w.cache,
       commits := if outcome.Some? then w.commits + [g] else w.commits)
  }

  /** A refresh that a caller waits for runs to its end. */
  lemma {:induction false} AwaitedRuns(w: World, outcome: Outcome, after: World)
    requires IsIdle(w) && Reaches(RenewedForCaller(w, outcome), after)
    ensures
      var g := |w.refreshes|;
      Reaches(w.(callers := w.callers + [AwaitingRefresh(g)], holder := Some(HeldByRefresh(g)),
                 refreshes := w.refreshes + [Refresh(Active, false, Fetching, w.cache.token, w.clock, false)]), after)
  {
    var i, g, renewed := |w.callers|, |w.refreshes|, RenewedForCaller(w, outcome);
    var w1 := w.(callers := w.callers + [AwaitingRefresh(g)], holder := Some(HeldByRefresh(g)),
                 refreshes := w.refreshes + [Refresh(Active, false, Fetching, w.cache.token, w.clock, false)]);
    var w2 := Ended(w1, g, outcome);
    assert w2.callers[i := Done(Refreshed(g))] == renewed.callers;
    assert Next(w2, GetRefreshed(i)) == renewed;
    StepsTo(w2, GetRefreshed(i), renewed, after);
    RefreshRuns(w1, g, outcome, after);
  }

  /** With no lock held, a call that finds no token with a minute left refreshes it and returns the outcome. */
  lemma {:induction false} HardExpiredIsRenewed(w: World, outcome: Outcome)
    requires Invariant(w) && IsIdle(w) && !CacheLasts(w.cache, w.clock, HARD_EXPIRY_BUFFER)
    ensures Reaches(w, RenewedForCaller(w, outcome))
  {
    var i, g, after := |w.callers|, |w.refreshes|, RenewedForCaller(w, outcome);
    var w1, w2 := w.(callers := w.callers + [Called(w.clock)]), w.(callers := w.callers + [Waiting]);
    var w3 := w.(callers := w.callers + [Locked], holder := Some(HeldByCaller(i)));
    var w4 := w.(callers := w.callers + [AwaitingRefresh(g)], holder := Some(HeldByRefresh(g)),
                 refreshes := w.refreshes + [Refresh(Active, false, Fetching, w.cache.token, w.clock, false)]);
    CachedFreshnessIff(w, w.clock);
    assert w1.callers[i := Waiting] == w2.callers && w2.callers[i := Locked] == w3.callers;
    assert w3.callers[i := AwaitingRefresh(g)] == w4.callers;
    Stays(after);
    AwaitedRuns(w, outcome, after);
    StepsTo(w3, DoubleCheck(i), w4, after);
    StepsTo(w2, Lock(i), w3, after);
    StepsTo(w1, ReadCache(i), w2, after);
    StepsTo(w, Call, w1, after);
  }
}
