/** What the steps around the token cache decide, by the clock and the expiry of the cached token. */
module TokenSteps {
  import opened Values
  import opened TokenCaches
  import opened TokenRefresh
  import opened TokenSafety

  /** More than `buffer` is left of the token, or it was fetched after the look at the clock. */
  predicate Lasts(t: Token, now: int, buffer: int) {
    t.expiry.None? || now < t.fetchedAt || t.expiry.value - now > buffer
  }

  predicate CacheLasts(c: Cache, now: int, buffer: int) { c.token.Some? && Lasts(c.token.value, now, buffer) }

  /** No failure is being waited out. */
  predicate IsDue(c: Cache, now: int) { c.nextSoftRefreshAt.Some? ==> c.nextSoftRefreshAt.value <= now }

  lemma {:induction false} FreshnessIff(t: Token, now: int)
    ensures TokenFreshness(t, now) == Fresh <==> Lasts(t, now, SOFT_EXPIRY_BUFFER)
    ensures TokenFreshness(t, now) == HardExpired <==> !Lasts(t, now, HARD_EXPIRY_BUFFER)
  {
  }

  lemma {:induction false} CachedFreshnessIff(w: World, now: int)
    ensures w.cache.token.Some? && CachedFreshness(w, now) == Fresh <==> CacheLasts(w.cache, now, SOFT_EXPIRY_BUFFER)
    ensures CachedFreshness(w, now) == HardExpired <==> !CacheLasts(w.cache, now, HARD_EXPIRY_BUFFER)
  {
    if w.cache.token.Some? {
      FreshnessIff(w.cache.token.value, now);
    }
  }

  /** The first look at the cache: a token with two minutes left is served; one with a minute left is served and a
      background refresh considered; any other makes the caller wait for the lock. Nothing else changes. */
  lemma {:induction false} FirstLookIff(w: World, i: nat)
    requires May(w, ReadCache(i))
    ensures
      var now := w.callers[i].now;
      Next(w, ReadCache(i))
      == WithCaller(w, i,
                    if CacheLasts(w.cache, now, SOFT_EXPIRY_BUFFER) then Done(Cached(w.cache.token.value))
                    else if CacheLasts(w.cache, now, HARD_EXPIRY_BUFFER) then
                      SoftHit(w.cache.token.value, IsDue(w.cache, now))
                    else Waiting)
  {
    CachedFreshnessIff(w, w.callers[i].now);
  }

  /** A soft-expired token is served either way; a background task is spawned, and takes the lock, exactly when an
      attempt was due and nobody holds the lock. */
  lemma {:induction false} SoftRefreshIff(w: World, i: nat)
    requires May(w, TrySoftRefresh(i))
    ensures
      var next, served := Next(w, TrySoftRefresh(i)), WithCaller(w, i, Done(Cached(w.callers[i].token)));
      var spawns := w.callers[i].canAttempt && w.holder.None?;
      && (|next.backgrounds| > |w.backgrounds| <==> spawns)
      && if spawns then
           next == served.(holder := Some(HeldByBackground(|w.backgrounds|)), backgrounds := w.backgrounds + [Owning])
         else next == served
  {
  }

  /** The second look, under the lock: a token with a minute left is served and the lock let go; otherwise a refresh is
      started over the cached token and takes the lock over. */
  lemma {:induction false} SecondLookIff(w: World, i: nat)
    requires Invariant(w) && May(w, DoubleCheck(i))
    ensures
      var next, g := Next(w, DoubleCheck(i)), |w.refreshes|;
      if CacheLasts(w.cache, w.clock, HARD_EXPIRY_BUFFER) then
        next == WithCaller(w, i, Done(Cached(w.cache.token.value))).(holder := None)
      else
        next == WithCaller(w, i, AwaitingRefresh(g)).(
                  holder := Some(HeldByRefresh(g)),
                  refreshes := w.refreshes + [Refresh(Active, false, Fetching, w.cache.token, w.clock, false)])
  {
    CachedFreshnessIff(w, w.clock);
  }

  /** The look of a background task: it starts a refresh of its own over the cached token, and hands it the lock,
      exactly when an attempt is due and at most two minutes are left of the token; otherwise it lets the lock go and
      changes nothing else. */
  lemma {:induction false} BackgroundIff(w: World, b: nat)
    requires Invariant(w) && May(w, BackgroundCheck(b))
    ensures
      var next, g, token := Next(w, BackgroundCheck(b)), |w.refreshes|, w.cache.token;
      var starts := IsDue(w.cache, w.clock) && token.Some? && token.value.expiry.Some?
                    && token.value.expiry.value - w.clock <= SOFT_EXPIRY_BUFFER;
      && (|next.refreshes| > |w.refreshes| <==> starts)
      && if starts then
           next == WithBackground(w, b, AwaitingBackground(g)).(
                     holder := Some(HeldByRefresh(g)),
                     refreshes := w.refreshes + [Refresh(Active, false, Fetching, token, w.clock, true)])
         else next == WithBackground(w, b, Over).(holder := None)
  {
    CachedFreshnessIff(w, w.clock);
  }

  /** The end of a background refresh: a failed one leaves the token and puts the next attempt off; one that did not
      fail changes nothing more. */
  lemma {:induction false} BackgroundResultIff(w: World, b: nat)
    requires Invariant(w) && May(w, BackgroundResult(b))
    ensures
      var next, c := Next(w, BackgroundResult(b)), w.cache;
      var failed := w.refreshes[w.backgrounds[b].g].coordinator == Finished(false);
      && next == WithBackground(w, b, Over).(cache := next.cache) && next.cache.token == c.token
      && (failed ==> next.cache.nextSoftRefreshAt == Some(w.clock + Cooldown(c.failures, BASE_COOLDOWN)))
      && (failed ==> next.cache.failures == Min(c.failures + 1, MAX_U32))
      && (!failed ==> next.cache == c)
  {
  }
}
