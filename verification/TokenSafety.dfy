/** What every interleaving of the token cache keeps. */
module TokenSafety {
  import opened Values
  import opened TokenCaches
  import opened TokenRefresh

  // --- The locks ---

  predicate OwnsGuard(r: Refresh) { !r.coordinator.Finished? }

  predicate HoldsWrite(r: Refresh) { r.worker.Writing? || r.worker.Committing? }

  /** The refresh lock is held exactly by the caller, background task or refresh task that owns the guard. */
  ghost predicate GuardOwned(w: World) {
    && (forall i | 0 <= i < |w.callers| :: w.callers[i].Locked? <==> w.holder == Some(HeldByCaller(i)))
    && (forall b | 0 <= b < |w.backgrounds| :: w.backgrounds[b].Owning? <==> w.holder == Some(HeldByBackground(b)))
    && (forall g | 0 <= g < |w.refreshes| :: OwnsGuard(w.refreshes[g]) <==> w.holder == Some(HeldByRefresh(g)))
    && (w.holder.Some? ==>
          match w.holder.value
          case HeldByCaller(i) => i < |w.callers|
          case HeldByBackground(b) => b < |w.backgrounds|
          case HeldByRefresh(g) => g < |w.refreshes|)
  }

  ghost predicate WriterOwned(w: World) {
    && (forall g | 0 <= g < |w.refreshes| :: HoldsWrite(w.refreshes[g]) <==> w.writer == Some(g))
    && (w.writer.Some? ==> w.writer.value < |w.refreshes|)
  }

  /** A refresh task that is over either timed out or its worker is through. */
  predicate IsSettled(r: Refresh) {
    && (r.coordinator.TimingOut? ==> r.timedOut)
    && (r.coordinator.Finished? ==> r.timedOut || r.worker.Exited?)
  }

  // --- Commits ---

  /** The worker may still put its token into the cache. */
  predicate CanCommit(r: Refresh) {
    r.worker.Committing? || (!r.timedOut && !r.worker.Exited?)
  }

  predicate Increasing(commits: seq<nat>) {
    forall i, j | 0 <= i < j < |commits| :: commits[i] < commits[j]
  }

  /** The tokens ever committed come from ever later refreshes, and the cache holds the last of them. */
  predicate CommitsInOrder(w: World) {
    && Increasing(w.commits)
    && (forall c | c in w.commits :: c < |w.refreshes|)
    && (w.cache.token.Some? <==> w.commits != [])
    && (w.cache.token.Some? ==> w.cache.token.value.generation == w.commits[|w.commits| - 1])
  }

  /** Only the latest refresh can still commit, and what it will replace is the very token that its starter
      found stale under the lock. */
  ghost predicate OneCandidate(w: World) {
    forall g | 0 <= g < |w.refreshes| && CanCommit(w.refreshes[g]) ::
      g + 1 == |w.refreshes| && w.refreshes[g].judged == w.cache.token && g !in w.commits
  }

  function TokenOf(worker: Worker): Option<Token> {
    match worker
    case Fetched(t) => Some(t)
    case Checked(t) => Some(t)
    case Writing(t) => Some(t)
    case Committing(t) => Some(t)
    case _ => None
  }

  /** Refreshes were started over a stale token; their own tokens carry their number and a past date. */
  predicate IsJustified(r: Refresh, g: nat, clock: int) {
    && r.judgedAt <= clock
    && (r.judged.Some? ==>
          if r.background then TokenFreshness(r.judged.value, r.judgedAt) != Fresh
          else TokenFreshness(r.judged.value, r.judgedAt) == HardExpired)
    && (TokenOf(r.worker).Some? ==>
          TokenOf(r.worker).value.generation == g && TokenOf(r.worker).value.fetchedAt <= clock)
  }

  ghost predicate RefreshesSound(w: World) {
    forall g | 0 <= g < |w.refreshes| :: IsSettled(w.refreshes[g]) && IsJustified(w.refreshes[g], g, w.clock)
  }

  /** Callers have looked at the clock before now and hold only tokens that were committed. */
  predicate IsSound(c: Caller, clock: int, commits: seq<nat>, refreshes: nat) {
    match c
    case Called(now) => now <= clock
    case SoftHit(token, _) => token.generation in commits
    case AwaitingRefresh(g) => g < refreshes
    case Done(Cached(token)) => token.generation in commits
    case _ => true
  }

  ghost predicate CallersSound(w: World) {
    forall i | 0 <= i < |w.callers| :: IsSound(w.callers[i], w.clock, w.commits, |w.refreshes|)
  }

  ghost predicate Invariant(w: World) {
    && CallersSound(w) && GuardOwned(w) && WriterOwned(w) && RefreshesSound(w) && CommitsInOrder(w) && OneCandidate(w)
    && (w.cache.token.Some? ==> w.cache.token.value.fetchedAt <= w.clock)
  }

  lemma {:induction false} IncreasingNext(commits: seq<nat>, g: nat)
    requires Increasing(commits) && forall c | c in commits :: c < g
    ensures Increasing(commits + [g])
  {
    forall i, j | 0 <= i < j < |commits + [g]| ensures (commits + [g])[i] < (commits + [g])[j] {
      assert commits[i] in commits;
    }
  }

  lemma {:induction false} CommitKeeps(w: World, s: Step)
    requires Invariant(w) && May(w, s) && s.Commit?
    ensures Invariant(Next(w, s))
  {
    var g, r := s.g, w.refreshes[s.g];
    assert CanCommit(r);
    assert IsJustified(r, g, w.clock) && HoldsWrite(r);
    forall c | c in w.commits ensures c < g {
      assert c != g;
    }
    IncreasingNext(w.commits, g);
  }

  /** A worker that moves on without gaining the right to commit. */
  lemma {:induction false} WorkerMoves(w: World, g: nat, worker: Worker, writer: Option<nat>)
    requires Invariant(w) && g < |w.refreshes|
    requires !w.refreshes[g].worker.Exited?
    requires CanCommit(w.refreshes[g].(worker := worker)) ==> CanCommit(w.refreshes[g])
    requires TokenOf(worker).Some? ==>
                TokenOf(worker).value.generation == g && TokenOf(worker).value.fetchedAt <= w.clock
    requires HoldsWrite(w.refreshes[g].(worker := worker)) <==> writer == Some(g)
    requires writer == w.writer || (w.writer.None? && writer == Some(g)) || (w.writer == Some(g) && writer.None?)
    ensures Invariant(WithWorker(w, g, worker).(writer := writer))
  {
    var r := w.refreshes[g];
    assert IsSettled(r) && IsJustified(r, g, w.clock) && OwnsGuard(r) == OwnsGuard(r.(worker := worker));
    assert HoldsWrite(r) <==> w.writer == Some(g);
    var after := WithWorker(w, g, worker).(writer := writer);
    assert IsSettled(r.(worker := worker));
    assert RefreshesSound(after);
    assert OneCandidate(after);
  }

  lemma {:induction false} WorkerKeeps(w: World, s: Step)
    requires Invariant(w) && May(w, s) && (s.FetchToken? || s.CheckTimeout? || s.AcquireWrite? || s.Recheck?)
    ensures Invariant(Next(w, s))
  {
    var g, r := s.g, w.refreshes[s.g];
    assert IsJustified(r, g, w.clock) && (HoldsWrite(r) <==> w.writer == Some(g));
    match s
    case FetchToken(_, outcome) =>
      WorkerMoves(w, g, if outcome.None? then Exited(false) else Fetched(Token(g, w.clock, outcome.value)), w.writer);
    case CheckTimeout(_) => WorkerMoves(w, g, if r.timedOut then Exited(false) else Checked(r.worker.token), w.writer);
    case AcquireWrite(_) => WorkerMoves(w, g, Writing(r.worker.token), Some(g));
    case Recheck(_) =>
      if r.timedOut {
        WorkerMoves(w, g, Exited(true), None);
      } else {
        WorkerMoves(w, g, Committing(r.worker.token), w.writer);
      }
  }

  lemma {:induction false} CoordinatorKeeps(w: World, s: Step)
    requires Invariant(w) && May(w, s) && (s.Complete? || s.TimeOut? || s.Release?)
    ensures Invariant(Next(w, s))
  {
    var g, r := s.g, w.refreshes[s.g];
    assert IsSettled(r) && IsJustified(r, g, w.clock) && OwnsGuard(r);
  }

  /** Starting a refresh under the lock while nobody writes: no earlier refresh can commit any more. */
  lemma {:induction false} NoOtherCandidate(w: World)
    requires Invariant(w) && w.writer.None? && (w.holder.Some? ==> !w.holder.value.HeldByRefresh?)
    ensures forall g | 0 <= g < |w.refreshes| :: !CanCommit(w.refreshes[g])
  {
    forall g | 0 <= g < |w.refreshes| ensures !CanCommit(w.refreshes[g]) {
      assert IsSettled(w.refreshes[g]) && !OwnsGuard(w.refreshes[g]) && !HoldsWrite(w.refreshes[g]);
    }
  }

  /** A caller that moves on without touching the locks. */
  lemma {:induction false} CallerMoves(w: World, i: nat, c: Caller)
    requires Invariant(w) && i < |w.callers| && !w.callers[i].Locked? && !c.Locked?
    requires IsSound(c, w.clock, w.commits, |w.refreshes|)
    ensures Invariant(WithCaller(w, i, c))
  {
  }

  /** A caller that takes the refresh lock, or gives it up. */
  lemma {:induction false} CallerLocks(w: World, i: nat, c: Caller, holder: Option<Holder>)
    requires Invariant(w) && i < |w.callers| && IsSound(c, w.clock, w.commits, |w.refreshes|)
    requires (w.holder.None? && c.Locked? && holder == Some(HeldByCaller(i)))
          || (w.callers[i].Locked? && !c.Locked? && holder.None?)
    ensures Invariant(WithCaller(w, i, c).(holder := holder))
  {
  }

  lemma {:induction false} ServedSound(w: World, i: nat)
    requires Invariant(w) && w.cache.token.Some? && i < |w.callers|
    ensures w.cache.token.value.generation in w.commits
  {
  }

  lemma {:induction false} SoftRefreshKeeps(w: World, i: nat)
    requires Invariant(w) && May(w, TrySoftRefresh(i))
    ensures Invariant(Next(w, TrySoftRefresh(i)))
  {
    var c := Done(Cached(w.callers[i].token));
    assert IsSound(w.callers[i], w.clock, w.commits, |w.refreshes|);
    CallerMoves(w, i, c);
  }

  lemma {:induction false} DoubleCheckKeeps(w: World, i: nat)
    requires Invariant(w) && May(w, DoubleCheck(i))
    ensures Invariant(Next(w, DoubleCheck(i)))
  {
    assert w.holder == Some(HeldByCaller(i));
    NoOtherCandidate(w);
    if CachedFreshness(w, w.clock) != HardExpired {
      ServedSound(w, i);
      CallerLocks(w, i, Done(Cached(w.cache.token.value)), None);
    }
  }

  lemma {:induction false} CallerKeeps(w: World, s: Step)
    requires Invariant(w) && May(w, s)
    requires s.ReadCache? || s.TrySoftRefresh? || s.Lock? || s.DoubleCheck? || s.GetRefreshed? || s.Drop?
    ensures Invariant(Next(w, s))
  {
    if s.TrySoftRefresh? {
      SoftRefreshKeeps(w, s.i);
    } else if s.DoubleCheck? {
      DoubleCheckKeeps(w, s.i);
    } else if s.Lock? {
      CallerLocks(w, s.i, Locked, Some(HeldByCaller(s.i)));
    } else if s.Drop? && w.callers[s.i].Locked? {
      CallerLocks(w, s.i, Done(Dropped), None);
    } else {
      if w.cache.token.Some? {
        ServedSound(w, s.i);
      }
      CallerMoves(w, s.i, Next(w, s).callers[s.i]);
    }
  }

  lemma {:induction false} BackgroundKeeps(w: World, s: Step)
    requires Invariant(w) && May(w, s) && (s.BackgroundCheck? || s.BackgroundResult?)
    ensures Invariant(Next(w, s))
  {
    if s.BackgroundCheck? {
      assert w.holder == Some(HeldByBackground(s.b));
      NoOtherCandidate(w);
    }
  }

  lemma {:induction false} NextKeeps(w: World, s: Step)
    requires Invariant(w) && May(w, s)
    ensures Invariant(Next(w, s))
  {
    if s.Tick? || s.Call? {
    } else if s.Commit? {
      CommitKeeps(w, s);
    } else if s.FetchToken? || s.CheckTimeout? || s.AcquireWrite? || s.Recheck? {
      WorkerKeeps(w, s);
    } else if s.Complete? || s.TimeOut? || s.Release? {
      CoordinatorKeeps(w, s);
    } else if s.BackgroundCheck? || s.BackgroundResult? {
      BackgroundKeeps(w, s);
    } else {
      CallerKeeps(w, s);
    }
  }

  // --- Runs ---

  predicate IsRun(w: World, steps: seq<Step>)
    decreases |steps|
  {
    steps == [] || (May(w, steps[0]) && IsRun(Next(w, steps[0]), steps[1..]))
  }

  function After(w: World, steps: seq<Step>): World
    requires IsRun(w, steps)
    decreases |steps|
  {
    if steps == [] then w else After(Next(w, steps[0]), steps[1..])
  }

  lemma {:induction false} RunKeeps(w: World, steps: seq<Step>)
    requires Invariant(w) && IsRun(w, steps)
    ensures Invariant(After(w, steps))
    decreases |steps|
  {
    if steps != [] {
      NextKeeps(w, steps[0]);
      RunKeeps(Next(w, steps[0]), steps[1..]);
    }
  }

  ghost predicate Reaches(w: World, after: World) {
    exists steps :: IsRun(w, steps) && After(w, steps) == after
  }

  lemma {:induction false} Stays(w: World)
    ensures Reaches(w, w)
  {
    assert IsRun(w, []) && After(w, []) == w;
  }

  lemma {:induction false} StepsTo(w: World, s: Step, next: World, after: World)
    requires May(w, s) && Next(w, s) == next && Reaches(next, after)
    ensures Reaches(w, after)
  {
    var rest :| IsRun(next, rest) && After(next, rest) == after;
    assert ([s] + rest)[1..] == rest;
    assert IsRun(w, [s] + rest) && After(w, [s] + rest) == after;
  }

  /** Over every interleaving of callers, timeouts and late workers: committed generations strictly increase,
      and no two refreshes that have not timed out are under way at once. */
  lemma {:induction false} GenerationsNeverGoBack(clock: int, steps: seq<Step>)
    requires IsRun(NewWorld(clock), steps)
    ensures
      var w := After(NewWorld(clock), steps);
      && Increasing(w.commits)
      && (w.cache.token.Some? ==> w.commits != [] && w.cache.token.value.generation == w.commits[|w.commits| - 1])
    ensures
      var w := After(NewWorld(clock), steps);
      forall g, h | 0 <= g < |w.refreshes| && 0 <= h < |w.refreshes| ::
        !w.refreshes[g].timedOut && !w.refreshes[g].worker.Exited?
        && !w.refreshes[h].timedOut && !w.refreshes[h].worker.Exited?
        ==> g == h
  {
    RunKeeps(NewWorld(clock), steps);
    var w := After(NewWorld(clock), steps);
    forall g, h | 0 <= g < |w.refreshes| && 0 <= h < |w.refreshes|
                  && CanCommit(w.refreshes[g]) && CanCommit(w.refreshes[h])
      ensures g == h
    {
    }
  }

  /** What a commit replaces is the token that its refresh was started over, found stale under the lock:
      between that look and the commit nobody else touches the token. */
  lemma {:induction false} CommitReplacesWhatWasStale(w: World, g: nat)
    requires Invariant(w) && May(w, Commit(g))
    ensures w.cache.token == w.refreshes[g].judged
    ensures w.cache.token.Some? ==> TokenFreshness(w.cache.token.value, w.refreshes[g].judgedAt) != Fresh
    ensures w.cache.token.Some? ==> w.cache.token.value.generation < g
    ensures Next(w, Commit(g)).cache.token == Some(w.refreshes[g].worker.token)
  {
    assert CanCommit(w.refreshes[g]) && IsJustified(w.refreshes[g], g, w.clock);
    if w.cache.token.Some? {
      assert w.commits[|w.commits| - 1] in w.commits;
    }
  }

  /** A worker that comes back after its timeout was recorded, before its last look at it, changes nothing. */
  lemma {:induction false} LateWorkerCommitsNothing(w: World, g: nat, steps: seq<Step>)
    requires IsRun(w, steps) && g < |w.refreshes| && !CanCommit(w.refreshes[g])
    ensures g < |After(w, steps).refreshes| && !CanCommit(After(w, steps).refreshes[g])
    decreases |steps|
  {
    if steps != [] {
      var next := Next(w, steps[0]);
      assert g < |next.refreshes| && !CanCommit(next.refreshes[g]);
      LateWorkerCommitsNothing(next, g, steps[1..]);
    }
  }

  // --- Nobody is locked out ---

  /** Whoever holds a lock can take a step, or waits for a writer that can. */
  lemma {:induction false} HoldersCanMove(w: World) returns (s: Step)
    requires Invariant(w) && (w.holder.Some? || w.writer.Some?)
    ensures May(w, s)
    ensures
      match s
      case Recheck(g) => w.writer == Some(g)
      case Commit(g) => w.writer == Some(g)
      case DoubleCheck(i) => w.holder == Some(HeldByCaller(i))
      case BackgroundCheck(b) => w.holder == Some(HeldByBackground(b))
      case TimeOut(g) => w.holder == Some(HeldByRefresh(g))
      case Release(g) => w.holder == Some(HeldByRefresh(g))
      case _ => false
  {
    if w.writer.Some? {
      var g := w.writer.value;
      assert HoldsWrite(w.refreshes[g]);
      s := if w.refreshes[g].worker.Writing? then Recheck(g) else Commit(g);
    } else {
      match w.holder.value
      case HeldByCaller(i) => s := DoubleCheck(i);
      case HeldByBackground(b) => s := BackgroundCheck(b);
      case HeldByRefresh(g) =>
        assert OwnsGuard(w.refreshes[g]);
        s := if w.refreshes[g].coordinator.Active? then TimeOut(g) else Release(g);
    }
  }

  /** How far the lock is from being free: a caller or background task looks at the cache and starts a refresh or
      lets go, a refresh task times out and lets go. */
  function HoldRank(w: World): nat {
    match w.holder
    case None => 0
    case Some(HeldByRefresh(g)) => if IsRefresh(w, g) && w.refreshes[g].coordinator.TimingOut? then 1 else 2
    case Some(_) => 3
  }

  function WriteRank(w: World): nat {
    match w.writer
    case None => 0
    case Some(g) => if IsRefresh(w, g) && w.refreshes[g].worker.Committing? then 1 else 2
  }

  function StepsToFree(w: World): nat { if w.holder.None? then 0 else 3 * HoldRank(w) + WriteRank(w) }

  /** Nobody can prolong a hold: until the lock is free its rank only falls. */
  lemma {:induction false} HoldOnlyShortens(w: World, s: Step)
    requires Invariant(w) && May(w, s) && w.holder.Some?
    ensures HoldRank(Next(w, s)) <= HoldRank(w)
  {
  }

  lemma {:induction false} HolderGetsOn(w: World) returns (s: Step)
    requires Invariant(w) && w.holder.Some?
    ensures May(w, s) && StepsToFree(Next(w, s)) < StepsToFree(w)
  {
    s := HoldersCanMove(w);
    if w.writer.Some? {
      assert HoldsWrite(w.refreshes[w.writer.value]);
    }
  }

  /** From every state that can be reached the lock comes free in a few steps of its holder and the writer alone. */
  lemma {:induction false} LockComesFree(w: World) returns (steps: seq<Step>)
    requires Invariant(w)
    ensures IsRun(w, steps) && |steps| <= StepsToFree(w) <= 11 && After(w, steps).holder.None?
    decreases StepsToFree(w)
  {
    steps := [];
    if w.holder.Some? {
      var s := HolderGetsOn(w);
      NextKeeps(w, s);
      var rest := LockComesFree(Next(w, s));
      steps := [s] + rest;
      assert steps[1..] == rest;
    }
  }

  // --- What callers are served ---

  /** A token looked at and served in one step, as the second look under the lock does, has more than a
      minute left. */
  lemma {:induction false} SecondLookServesValid(w: World, i: nat)
    requires Invariant(w) && May(w, DoubleCheck(i)) && Next(w, DoubleCheck(i)).callers[i].Done?
    ensures
      var t := Next(w, DoubleCheck(i)).callers[i].answer.token;
      w.cache.token == Some(t) && HasMinuteLeft(t, w.clock)
  {
    ServedIff(w.cache.token.value, w.clock);
  }
}
