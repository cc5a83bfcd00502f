/** The token cache (py-arrow-bigquery/src/auth.rs): its state and arithmetic of deadlines and cooldowns. */
module TokenCaches {
  import opened Values

  // Milliseconds of one monotonic clock.
  const SOFT_EXPIRY_BUFFER: int := 120_000
  const HARD_EXPIRY_BUFFER: int := 60_000
  const MAX_SOFT_REFRESH_COOLDOWN: int := 30_000
  const MAX_U32: int := 0xffff_ffff

  datatype Freshness = Fresh | SoftExpired | HardExpired

  datatype TokenDeadlines = TokenDeadlines(softExpiry: int, hardExpiry: int)

  function Max(a: int, b: int): int { if a < b then b else a }

  function Min(a: int, b: int): int { if a < b then a else b }

  /** `from_utc_expiry`, with subtractions that saturate at zero. */
  function FromUtcExpiry(expiry: int, nowUtc: int, nowInstant: int): TokenDeadlines {
    var remaining := Max(0, expiry - nowUtc);
    TokenDeadlines(nowInstant + Max(0, remaining - SOFT_EXPIRY_BUFFER),
                   nowInstant + Max(0, remaining - HARD_EXPIRY_BUFFER))
  }

  function FreshnessAt(d: TokenDeadlines, now: int): Freshness {
    if now < d.softExpiry then Fresh else if now < d.hardExpiry then SoftExpired else HardExpired
  }

  /** A token: the refresh that fetched it, when, and when it expires. */
  datatype Token = Token(generation: nat, fetchedAt: int, expiry: Option<int>)

  function Deadlines(t: Token): Option<TokenDeadlines> {
    if t.expiry.None? then None else Some(FromUtcExpiry(t.expiry.value, t.fetchedAt, t.fetchedAt))
  }

  function TokenFreshness(t: Token, now: int): Freshness {
    if Deadlines(t).None? then Fresh else FreshnessAt(Deadlines(t).value, now)
  }

  /** A token judged when it is taken: it is served if and only if it is valid for more than a minute. */
  lemma {:induction false} ServedIff(t: Token, now: int)
    requires t.fetchedAt <= now
    ensures TokenFreshness(t, now) != HardExpired <==> t.expiry.None? || t.expiry.value - now > HARD_EXPIRY_BUFFER
    ensures TokenFreshness(t, now) == Fresh <==> t.expiry.None? || t.expiry.value - now > SOFT_EXPIRY_BUFFER
  {
  }

  predicate HasMinuteLeft(t: Token, clock: int) {
    t.expiry.None? || t.expiry.value - clock > HARD_EXPIRY_BUFFER
  }

  /** A token that is taken at `clock` but judged by an earlier look at the clock, at `now`, as in `headers`: tokens
      fetched by the time of the look are sure to have a minute left exactly when no time has passed since. */
  lemma {:induction false} ServedLateIff(now: int, clock: int)
    requires now <= clock
    ensures (forall t: Token | t.fetchedAt <= now && TokenFreshness(t, now) != HardExpired :: HasMinuteLeft(t, clock))
       <==> now == clock
  {
    if now < clock {
      var t := Token(0, now, Some(now + HARD_EXPIRY_BUFFER + 1));
      assert t.fetchedAt <= now && TokenFreshness(t, now) != HardExpired && !HasMinuteLeft(t, clock);
    } else {
      forall t: Token | t.fetchedAt <= now && TokenFreshness(t, now) != HardExpired ensures HasMinuteLeft(t, clock) {
        ServedIff(t, now);
      }
    }
  }

  /** A caller that looked at the clock before the token was fetched takes it for fresh, however little is
      left of it. */
  lemma {:induction false} EarlyCallerServesAnyToken(t: Token, now: int)
    requires now < t.fetchedAt
    ensures TokenFreshness(t, now) == Fresh
  {
  }

  // --- The cache ---

  datatype Cache = Cache(token: Option<Token>, failures: nat, nextSoftRefreshAt: Option<int>)

  predicate CanAttemptSoftRefresh(c: Cache, now: int) {
    c.nextSoftRefreshAt.None? || now >= c.nextSoftRefreshAt.value
  }

  function Pow2(n: nat): nat { if n == 0 then 1 else 2 * Pow2(n - 1) }

  function Cooldown(failures: nat, base: int): int {
    Min(base * Pow2(Min(failures, 5)), MAX_SOFT_REFRESH_COOLDOWN)
  }

  function WithFailure(c: Cache, now: int, base: int): Cache {
    c.(failures := Min(c.failures + 1, MAX_U32), nextSoftRefreshAt := Some(now + Cooldown(c.failures, base)))
  }

  function WithToken(t: Token): Cache { Cache(Some(t), 0, None) }

  lemma {:induction false} Pow2Grows(m: nat, n: nat)
    requires m <= n
    ensures 1 <= Pow2(m) <= Pow2(n)
    decreases n
  {
    if m < n {
      Pow2Grows(m, n - 1);
    } else if n > 0 {
      Pow2Grows(m - 1, n - 1);
    }
  }

  /** The cooldown backs off: it never shrinks as failures add up, and it stays within its bounds. */
  lemma {:induction false} CooldownBacksOff(failures: nat, more: nat, base: int)
    requires base >= 0 && failures <= more
    ensures Cooldown(failures, base) <= Cooldown(more, base) <= MAX_SOFT_REFRESH_COOLDOWN
    ensures base <= MAX_SOFT_REFRESH_COOLDOWN ==> base <= Cooldown(failures, base)
  {
    var f, m := Pow2(Min(failures, 5)), Pow2(Min(more, 5));
    Pow2Grows(Min(failures, 5), Min(more, 5));
    assert base * f <= base * m;
    assert base <= base * f;
  }

  /** The base cooldown after the first failure; every further one doubles it, up to the fifth and to the maximum. */
  lemma {:induction false} CooldownDoubles(failures: nat, base: int)
    requires 0 <= base
    ensures Cooldown(0, base) == Min(base, MAX_SOFT_REFRESH_COOLDOWN)
    ensures Cooldown(failures + 1, base)
         == if failures < 5 then Min(2 * Cooldown(failures, base), MAX_SOFT_REFRESH_COOLDOWN)
            else Cooldown(failures, base)
  {
    var f := Pow2(Min(failures, 5));
    Pow2Grows(0, Min(failures, 5));
    if failures < 5 {
      assert Pow2(failures + 1) == 2 * f;
      assert base * (2 * f) == 2 * (base * f);
    }
  }

  class CacheState {
    var token: Option<Token>
    var softRefreshFailures: nat
    var nextSoftRefreshAt: Option<int>

    ghost function View(): Cache
      reads this
    {
      Cache(token, softRefreshFailures, nextSoftRefreshAt)
    }

    constructor ()
      ensures View() == Cache(None, 0, None)
    {
      token, softRefreshFailures, nextSoftRefreshAt := None, 0, None;
    }

    /** `record_soft_refresh_failure`. */
    method RecordSoftRefreshFailure(now: int, baseCooldown: int) returns (cooldown: int)
      modifies this
      ensures View() == WithFailure(old(View()), now, baseCooldown)
      ensures cooldown == Cooldown(old(softRefreshFailures), baseCooldown)
    {
      var shift := Min(softRefreshFailures, 5);
      softRefreshFailures := Min(softRefreshFailures + 1, MAX_U32);
      cooldown := Min(baseCooldown * Pow2(shift), MAX_SOFT_REFRESH_COOLDOWN);
      nextSoftRefreshAt := Some(now + cooldown);
    }

    /** What a refresh worker does under the write lock. */
    method Commit(fetched: Token)
      modifies this
      ensures View() == WithToken(fetched)
    {
      token := Some(fetched);
      softRefreshFailures := 0;
      nextSoftRefreshAt := None;
    }
  }
}
