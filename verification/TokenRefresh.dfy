/** Callers, background refreshes, refresh tasks and their workers around the token cache, interleaved step
    by step (`headers`, `refresh_token_with_guard`, auth.rs:282-463). */
module TokenRefresh {
  import opened Values
  import opened TokenCaches

  /** Who holds the refresh lock. */
  datatype Holder = HeldByCaller(i: nat) | HeldByBackground(i: nat) | HeldByRefresh(g: nat)

  /** What a caller gets: a cached token, or the outcome of a refresh. */
  datatype Answer = Cached(token: Token) | Refreshed(g: nat) | Dropped

  /** A call of `headers`: it has looked at the clock; serves a soft-expired token after trying to start a
      background refresh; waits for the lock; holds it; waits for its refresh; is done. */
  datatype Caller =
    | Called(now: int)
    | SoftHit(token: Token, canAttempt: bool)
    | Waiting
    | Locked
    | AwaitingRefresh(g: nat)
    | Done(answer: Answer)

  /** A background task: it owns the guard until it has looked at the cache again. */
  datatype Background = Owning | AwaitingBackground(g: nat) | Over

  datatype Worker =
    | Fetching
    | Fetched(token: Token)
    | Checked(token: Token)
    | Writing(token: Token)
    | Committing(token: Token)
    | Exited(ok: bool)

  /** The task that owns the guard: it waits for its worker or times out, then releases the guard. */
  datatype Coordinator = Active | TimingOut | Finished(ok: bool)

  /** `judged` is the cached token that whoever started the refresh found stale, at `judgedAt`. */
  datatype Refresh = Refresh(coordinator: Coordinator, timedOut: bool, worker: Worker, judged: Option<Token>,
                             judgedAt: int,
                             background: bool)

  datatype World = World(
    clock: int,
    cache: Cache,
    writer: Option<nat>,
    holder: Option<Holder>,
    callers: seq<Caller>,
    backgrounds: seq<Background>,
    refreshes: seq<Refresh>,
    commits: seq<nat>)

  datatype Step =
    | Tick(elapsed: nat)
    | Call
    | ReadCache(i: nat)
    | TrySoftRefresh(i: nat)
    | Lock(i: nat)
    | DoubleCheck(i: nat)
    | GetRefreshed(i: nat)
    | Drop(i: nat)
    | BackgroundCheck(b: nat)
    | BackgroundResult(b: nat)
    | FetchToken(g: nat, outcome: Option<Option<int>>)
    | CheckTimeout(g: nat)
    | AcquireWrite(g: nat)
    | Recheck(g: nat)
    | Commit(g: nat)
    | Complete(g: nat)
    | TimeOut(g: nat)
    | Release(g: nat)

  const BASE_COOLDOWN: int := 1_000

  predicate IsCaller(w: World, i: nat) { i < |w.callers| }

  predicate IsRefresh(w: World, g: nat) { g < |w.refreshes| }

  /** A read of the cache waits for the writer. */
  predicate May(w: World, s: Step) {
    match s
    case Tick(_) => true
    case Call => true
    case ReadCache(i) => IsCaller(w, i) && w.callers[i].Called? && w.writer.None?
    case TrySoftRefresh(i) => IsCaller(w, i) && w.callers[i].SoftHit?
    case Lock(i) => IsCaller(w, i) && w.callers[i].Waiting? && w.holder.None?
    case DoubleCheck(i) => IsCaller(w, i) && w.callers[i].Locked? && w.writer.None?
    case GetRefreshed(i) =>
      IsCaller(w, i) && w.callers[i].AwaitingRefresh? && IsRefresh(w, w.callers[i].g)
      && w.refreshes[w.callers[i].g].coordinator.Finished?
    case Drop(i) => IsCaller(w, i) && !w.callers[i].Done?
    case BackgroundCheck(b) => b < |w.backgrounds| && w.backgrounds[b].Owning? && w.writer.None?
    case BackgroundResult(b) =>
      b < |w.backgrounds| && w.backgrounds[b].AwaitingBackground? && IsRefresh(w, w.backgrounds[b].g)
      && w.refreshes[w.backgrounds[b].g].coordinator.Finished? && w.writer.None?
    case FetchToken(g, _) => IsRefresh(w, g) && w.refreshes[g].worker.Fetching?
    case CheckTimeout(g) => IsRefresh(w, g) && w.refreshes[g].worker.Fetched?
    case AcquireWrite(g) => IsRefresh(w, g) && w.refreshes[g].worker.Checked? && w.writer.None?
    case Recheck(g) => IsRefresh(w, g) && w.refreshes[g].worker.Writing?
    case Commit(g) => IsRefresh(w, g) && w.refreshes[g].worker.Committing?
    case Complete(g) => IsRefresh(w, g) && w.refreshes[g].coordinator.Active? && w.refreshes[g].worker.Exited?
    case TimeOut(g) => IsRefresh(w, g) && w.refreshes[g].coordinator.Active?
    case Release(g) => IsRefresh(w, g) && w.refreshes[g].coordinator.TimingOut?
  }

  function WithCaller(w: World, i: nat, c: Caller): World
    requires IsCaller(w, i)
  {
    w.(callers := w.callers[i := c])
  }

  function WithBackground(w: World, b: nat, c: Background): World
    requires b < |w.backgrounds|
  {
    w.(backgrounds := w.backgrounds[b := c])
  }

  function WithRefresh(w: World, g: nat, r: Refresh): World
    requires IsRefresh(w, g)
  {
    w.(refreshes := w.refreshes[g := r])
  }

  function WithWorker(w: World, g: nat, worker: Worker): World
    requires IsRefresh(w, g)
  {
    WithRefresh(w, g, w.refreshes[g].(worker := worker))
  }

  /** A refresh is spawned and takes the guard over. */
  function Started(w: World, background: bool): World {
    w.(holder := Some(HeldByRefresh(|w.refreshes|)),
       refreshes := w.refreshes + [Refresh(Active, false, Fetching, w.cache.token, w.clock, background)])
  }

  function CachedFreshness(w: World, now: int): Freshness {
    if w.cache.token.None? then HardExpired else TokenFreshness(w.cache.token.value, now)
  }

  /** Steps of callers. */
  function CallerNext(w: World, s: Step): World
    requires May(w, s) && (s.ReadCache? || s.TrySoftRefresh? || s.Lock? || s.DoubleCheck? || s.GetRefreshed? || s.Drop?)
  {
    var i := s.i;
    match s
    case ReadCache(_) =>
      var now := w.callers[i].now;
      WithCaller(w, i,
        match CachedFreshness(w, now)
        case Fresh => Done(Cached(w.cache.token.value))
        case SoftExpired => SoftHit(w.cache.token.value, CanAttemptSoftRefresh(w.cache, now))
        case HardExpired => Waiting)
    case TrySoftRefresh(_) =>
      var served := WithCaller(w, i, Done(Cached(w.callers[i].token)));
      if w.callers[i].canAttempt && w.holder.None? then
        served.(holder := Some(HeldByBackground(|w.backgrounds|)), backgrounds := w.backgrounds + [Owning])
      else served
    case Lock(_) => WithCaller(w, i, Locked).(holder := Some(HeldByCaller(i)))
    case DoubleCheck(_) =>
      if CachedFreshness(w, w.clock) != HardExpired then
        WithCaller(w, i, Done(Cached(w.cache.token.value))).(holder := None)
      else Started(WithCaller(w, i, AwaitingRefresh(|w.refreshes|)), false)
    case GetRefreshed(_) => WithCaller(w, i, Done(Refreshed(w.callers[i].g)))
    case _ =>
      // Dropping a caller drops its guard; a refresh goes on without it.
      WithCaller(w, i, Done(Dropped)).(holder := if w.callers[i].Locked? then None else w.holder)
  }

  function BackgroundNext(w: World, s: Step): World
    requires May(w, s) && (s.BackgroundCheck? || s.BackgroundResult?)
  {
    var b := s.b;
    if s.BackgroundCheck? then
      if CanAttemptSoftRefresh(w.cache, w.clock) && w.cache.token.Some? && CachedFreshness(w, w.clock) != Fresh then
        Started(WithBackground(w, b, AwaitingBackground(|w.refreshes|)), true)
      else WithBackground(w, b, Over).(holder := None)
    else
      var ok := w.refreshes[w.backgrounds[b].g].coordinator.ok;
      WithBackground(w, b, Over).(cache := if ok then w.cache else WithFailure(w.cache, w.clock, BASE_COOLDOWN))
  }

  /** Steps of the detached worker. */
  function WorkerNext(w: World, s: Step): World
    requires May(w, s) && (s.FetchToken? || s.CheckTimeout? || s.AcquireWrite? || s.Recheck? || s.Commit?)
  {
    var g := s.g;
    var r := w.refreshes[g];
    match s
    case FetchToken(_, outcome) =>
      WithWorker(w, g, if outcome.None? then Exited(false) else Fetched(Token(g, w.clock, outcome.value)))
    case CheckTimeout(_) => WithWorker(w, g, if r.timedOut then Exited(false) else Checked(r.worker.token))
    case AcquireWrite(_) => WithWorker(w, g, Writing(r.worker.token)).(writer := Some(g))
    case Recheck(_) =>
      if r.timedOut then WithWorker(w, g, Exited(true)).(writer := None)
      else WithWorker(w, g, Committing(r.worker.token))
    case _ =>
      WithWorker(w, g, Exited(true)).(cache := WithToken(r.worker.token), writer := None, commits := w.commits + [g])
  }

  /** Steps of the refresh task that owns the guard. */
  function CoordinatorNext(w: World, s: Step): World
    requires May(w, s) && (s.Complete? || s.TimeOut? || s.Release?)
  {
    var g := s.g;
    var r := w.refreshes[g];
    match s
    case Complete(_) => WithRefresh(w, g, r.(coordinator := Finished(r.worker.ok))).(holder := None)
    case TimeOut(_) => WithRefresh(w, g, r.(coordinator := TimingOut, timedOut := true))
    case _ => WithRefresh(w, g, r.(coordinator := Finished(false))).(holder := None)
  }

  function Next(w: World, s: Step): World
    requires May(w, s)
  {
    match s
    case Tick(elapsed) => w.(clock := w.clock + elapsed)
    case Call => w.(callers := w.callers + [Called(w.clock)])
    case ReadCache(_) => CallerNext(w, s)
    case TrySoftRefresh(_) => CallerNext(w, s)
    case Lock(_) => CallerNext(w, s)
    case DoubleCheck(_) => CallerNext(w, s)
    case GetRefreshed(_) => CallerNext(w, s)
    case Drop(_) => CallerNext(w, s)
    case BackgroundCheck(_) => BackgroundNext(w, s)
    case BackgroundResult(_) => BackgroundNext(w, s)
    case FetchToken(_, _) => WorkerNext(w, s)
    case CheckTimeout(_) => WorkerNext(w, s)
    case AcquireWrite(_) => WorkerNext(w, s)
    case Recheck(_) => WorkerNext(w, s)
    case Commit(_) => WorkerNext(w, s)
    case Complete(_) => CoordinatorNext(w, s)
    case TimeOut(_) => CoordinatorNext(w, s)
    case Release(_) => CoordinatorNext(w, s)
  }

  function NewWorld(clock: int): World {
    World(clock, Cache(None, 0, None), None, None, [], [], [], [])
  }
}
