/** Which answer each critical section of the pool gives, and what that answer leaves behind. */
module PoolLaws {
  import opened Wrappers
  import opened PoolModel
  import opened PoolRuns

  // ----- Borrowing -----

  predicate Full(cfg: Config, p: Pool) { p.idle == [] && p.total >= cfg.maxConn }

  /** Each answer of a turn of the borrow loop, and when it is given. */
  ghost predicate TurnAnswers(cfg: Config, p: Pool, zeroTimeout: bool, poll: Poll) {
    && (poll.PollClosed? <==> p.closed)
    && (poll.PollCheck? <==> !p.closed && p.idle != [])
    && (poll.PollCreate? <==> !p.closed && p.idle == [] && p.total < cfg.maxConn)
    && (poll.PollExhausted? <==> !p.closed && Full(cfg, p) && zeroTimeout)
    && (poll.PollWait? <==> !p.closed && Full(cfg, p) && !zeroTimeout)
  }

  lemma BorrowAnswers(cfg: Config, p: Pool, zeroTimeout: bool)
    requires cfg.pooled
    ensures TurnAnswers(cfg, p, zeroTimeout, StartBorrow(cfg, p, zeroTimeout).1)
    ensures TurnAnswers(cfg, p, zeroTimeout, TurnBorrow(cfg, p, zeroTimeout).1)
  {
  }

  lemma UnpooledAnswers(cfg: Config, p: Pool, zeroTimeout: bool)
    requires !cfg.pooled
    ensures StartBorrow(cfg, p, zeroTimeout).1 == if p.closed then PollClosed else PollCreate
  {
  }

  /** A wait that timed out is refused; any other wait looks at the pool again and may wait on. */
  lemma WaitAnswers(cfg: Config, p: Pool, timedOut: bool)
    requires cfg.pooled
    ensures var (q, poll) := EndWait(cfg, p, timedOut);
            && (poll.PollExhausted? <==> timedOut)
            && (!timedOut ==> TurnAnswers(cfg, p, false, poll))
            && q.waiting == p.waiting - 1 + Tick(poll.PollWait?)
            && RequestTallies(cfg, p, q, 0, 0, Tick(timedOut))
            && (timedOut ==> QueuesKept(p, q) && TalliesKept(p, q) && q.closed == p.closed)
  {
  }

  /** In an open pool of any reachable state, a borrow is refused or waits exactly if every one of
      the `maxConn` slots is lent, under validation, or reserved. */
  lemma RefusedOnlyWhenFull(cfg: Config, w: World, zeroTimeout: bool)
    requires cfg.Normal() && cfg.pooled && Reachable(cfg, w) && !w.p.closed
    ensures var inUse := w.p.borrowed + |w.checking| + w.creating + w.refilling;
            var poll := StartBorrow(cfg, w.p, zeroTimeout).1;
            && inUse <= cfg.maxConn
            && (poll.PollExhausted? <==> inUse == cfg.maxConn && zeroTimeout)
            && (poll.PollWait? <==> inUse == cfg.maxConn && !zeroTimeout)
  {
    SlotsConserved(cfg, w);
    BorrowAnswers(cfg, w.p, zeroTimeout);
  }

  /** Each answer of an asynchronous borrow, and when it is given. */
  lemma AsyncAnswers(cfg: Config, p: Pool, request: int, now: int, timeout: int)
    ensures var (q, poll) := StartAsync(cfg, p, request, now, timeout);
            var pooled := !p.closed && cfg.pooled;
            && (poll.AsyncClosed? <==> p.closed)
            && (poll.AsyncUnpooled? <==> !p.closed && !cfg.pooled)
            && (poll.AsyncRetry? <==> pooled && p.idle != [] && Expired(cfg, p.idle[0].createdAt, now))
            && (poll.AsyncLent? <==> pooled && p.idle != [] && !Expired(cfg, p.idle[0].createdAt, now)
                                     && !NeedsPing(cfg, p.idle[0], now))
            && (poll.AsyncCheck? <==> pooled && p.idle != [] && !Expired(cfg, p.idle[0].createdAt, now)
                                      && NeedsPing(cfg, p.idle[0], now))
            && (poll.AsyncCreate? <==> pooled && p.idle == [] && p.total < cfg.maxConn)
            && (poll.AsyncExhausted? <==> pooled && Full(cfg, p) && timeout == 0)
            && (poll.AsyncQueued? <==> pooled && Full(cfg, p) && timeout != 0)
            && (poll.AsyncQueued? ==> q.waiters == p.waiters + [Waiter(request, p.nextTicket, now, now + timeout)])
  {
  }

  /** Expiring takes exactly the waiters whose deadline has come, and counts each as a timeout. */
  lemma ExpireAnswers(cfg: Config, p: Pool, now: int)
    ensures var (q, late) := ExpireWaiters(cfg, p, now);
            && (forall w :: w in late <==> w in p.waiters && w.deadline <= now)
            && (forall w :: w in q.waiters <==> w in p.waiters && now < w.deadline)
            && |late| + |q.waiters| == |p.waiters|
            && q.idle == p.idle && Aside(p, q) && TalliesKept(p, q) && RequestTallies(cfg, p, q, 0, 0, |late|)
  {
    LiveSelects(p.waiters, now);
    RequestsSplit(p.waiters, now, 0);
  }

  // ----- What the connection's own outcome leads to -----

  /** The lifetime counters moved by these amounts, and no others did. */
  ghost predicate Lifetimes(p: Pool, q: Pool, created: int, failures: int, invalid: int, expired: int, idle: int, returned: int) {
    && q.c.created == p.c.created + created && q.c.createFailures == p.c.createFailures + failures
    && q.c.validationFailures == p.c.validationFailures + invalid
    && q.c.lifetimeEvictions == p.c.lifetimeEvictions + expired
    && q.c.idleEvictions == p.c.idleEvictions + idle && q.c.invalidated == p.c.invalidated + returned
  }

  ghost predicate Aside(p: Pool, q: Pool) {
    q.closed == p.closed && q.waiting == p.waiting && q.nextTicket == p.nextTicket
  }

  /** A connection is lent exactly if it answered and the pool is still open; a dead one is counted
      by its cause and gives up its slot. */
  lemma CheckAnswers(cfg: Config, p: Pool, alive: bool, expired: bool)
    ensures var (q, done) := FinishCheck(cfg, p, alive, expired);
            && (done == Some(true) <==> alive && !p.closed) && (done == Some(false) <==> alive && p.closed)
            && (done == None <==> !alive) && QueuesKept(p, q) && Aside(p, q)
            && q.borrowed == p.borrowed + Tick(done == Some(true))
            && q.total == (if alive then p.total else Clamp(p.total - 1)) && q.c.closed == p.c.closed + Tick(!alive)
            && Lifetimes(p, q, 0, 0, Tick(!alive && !expired), Tick(!alive && expired), 0, 0)
            && RequestTallies(cfg, p, q, 0, Tick(done == Some(true)), 0)
  {
  }

  /** A new connection is lent exactly if it was made and the pool is still open; the reserved slot
      is used or given back. */
  lemma CreateAnswers(cfg: Config, p: Pool, connected: bool)
    ensures var (q, lends) := FinishCreate(cfg, p, connected);
            && (lends <==> connected && !p.closed) && QueuesKept(p, q) && Aside(p, q)
            && q.borrowed == p.borrowed + Tick(lends) && q.c.closed == p.c.closed
            && q.total == (if lends then p.total else if connected then p.total - 1 else Clamp(p.total - 1))
            && Lifetimes(p, q, Tick(lends), Tick(!connected), 0, 0, 0, 0)
            && RequestTallies(cfg, p, q, 0, Tick(lends), 0)
    ensures var (q, lends) := FinishUnpooled(cfg, p, connected);
            && (lends <==> connected && !p.closed) && QueuesKept(p, q) && Aside(p, q)
            && q.borrowed == p.borrowed + Tick(lends) && q.c.closed == p.c.closed
            && q.total == p.total + Tick(lends)
            && Lifetimes(p, q, Tick(lends), Tick(!connected), 0, 0, 0, 0)
            && RequestTallies(cfg, p, q, 0, Tick(lends), 0)
  {
  }

  lemma AsyncCheckAnswers(cfg: Config, p: Pool, alive: bool)
    ensures var (q, done) := FinishAsyncCheck(cfg, p, alive);
            && (done == Some(true) <==> alive && !p.closed) && (done == Some(false) <==> p.closed)
            && QueuesKept(p, q) && Aside(p, q) && q.total == p.total && q.c.closed == p.c.closed
            && q.borrowed == p.borrowed + Tick(done == Some(true)) && Lifetimes(p, q, 0, 0, 0, 0, 0, 0)
            && RequestTallies(cfg, p, q, 0, Tick(done == Some(true)), 0)
  {
  }

  /** In a closed pool the outcome of connecting is not even counted. */
  lemma AsyncCreateAnswers(cfg: Config, p: Pool, connected: bool, reserved: bool)
    ensures var (q, lends) := FinishAsyncCreate(cfg, p, connected, reserved);
            && (lends <==> connected && !p.closed) && QueuesKept(p, q) && Aside(p, q)
            && q.borrowed == p.borrowed + Tick(lends) && q.c.closed == p.c.closed
            && (p.closed ==> q.total == p.total - Tick(reserved && p.total > 0))
            && (!p.closed && !connected ==> q.total == if reserved then Clamp(p.total - 1) else p.total)
            && (lends ==> q.total == p.total + Tick(!reserved))
            && Lifetimes(p, q, Tick(lends), Tick(!connected && !p.closed), 0, 0, 0, 0)
            && RequestTallies(cfg, p, q, 0, Tick(lends), 0)
  {
  }

  // ----- Returning -----

  /** A returned connection is closed, lent on, or parked with its age and the time of its return;
      one that is closed is counted by its cause, a purged waiter as a timeout. */
  lemma ReturnAnswers(cfg: Config, p: Pool, conn: int, createdAt: int, reusable: bool, now: int)
    ensures var (q, r) := Return(cfg, p, conn, createdAt, reusable, now);
            var expired := Expired(cfg, createdAt, now);
            && (r.Retired? <==> p.closed || !cfg.pooled || !reusable || expired)
            && q.idle == (if r.Parked? then p.idle + [Idle(conn, createdAt, now, 0)] else p.idle)
            && q.waiters == (if r.Retired? then p.waiters
                             else if r.HandedOff? then Live(p.waiters, now)[1..] else []) && Aside(p, q)
            && q.borrowed == p.borrowed - Tick(p.borrowed > 0) + Tick(r.HandedOff?)
            && q.total == p.total - Tick(r.Retired? && p.total > 0) && q.c.closed == p.c.closed + Tick(r.Retired?)
            && Lifetimes(p, q, 0, 0, 0, Tick(r.Retired? && reusable && expired), 0, Tick(!reusable))
            && RequestTallies(cfg, p, q, 0, Tick(r.HandedOff?), if r.Retired? then 0 else |Late(p.waiters, now)|)
  {
  }

  /** A connection is past its lifetime exactly from its age on; no limit means never. */
  lemma ExpiredFrom(cfg: Config, createdAt: int, now: int)
    ensures Expired(cfg, createdAt, now) <==> cfg.maxLifetime > 0 && createdAt + cfg.maxLifetime <= now
  {
  }

  // ----- The health check -----

  /** The oldest connection is taken unless the pool is closed or empty, and told to retire exactly
      if it has been idle for the idle timeout and the pool has more than its minimum. */
  lemma HealthAnswers(cfg: Config, p: Pool, now: int)
    ensures var (q, taken) := TakeForHealth(cfg, p, now);
            && (taken.Some? <==> !p.closed && p.idle != [])
            && (taken.None? ==> q == p)
            && (taken.Some? ==>
                && Popped(p, q, taken.value.0) && Aside(p, q) && TalliesKept(p, q) && q.c == p.c
                && (taken.value.1 <==> cfg.idleTimeout > 0 && p.idle[0].returnedAt + cfg.idleTimeout <= now
                                       && p.total > cfg.minConn))
  {
  }

  /** It is parked again, unchanged, exactly if it answered and the pool is open; otherwise it is
      counted by its cause: idle before age before a failed ping. */
  lemma HealthEndAnswers(p: Pool, item: Idle, alive: bool, retire: bool, expired: bool)
    ensures var (q, kept) := FinishHealth(p, item, alive, retire, expired);
            && (kept <==> alive && !p.closed) && q.idle == (if kept then p.idle + [item] else p.idle)
            && q.waiters == p.waiters && Aside(p, q) && q.borrowed == p.borrowed
            && q.total == (if kept then p.total else Clamp(p.total - 1)) && q.c.closed == p.c.closed + Tick(!kept)
            && Lifetimes(p, q, 0, 0, Tick(!kept && !retire && !expired), Tick(!kept && !retire && expired),
                         Tick(!kept && retire), 0)
            && q.c.requests == p.c.requests && q.c.successes == p.c.successes && q.c.timeouts == p.c.timeouts
  {
  }

  /** After the refill has reserved, an open pool has its minimum of slots, and no more than it had
      or needs. */
  lemma RefillReaches(cfg: Config, p: Pool)
    requires cfg.Normal()
    ensures var q := ReserveRefill(cfg, p);
            q == p.(total := if p.closed then p.total else Max(p.total, cfg.minConn))
  {
  }

  /** The fresh connections are parked in order behind the others, in an open pool, and what was
      reserved for the missing ones is given back. */
  lemma RefillAdopts(p: Pool, need: int, made: seq<Idle>)
    requires |made| <= need
    ensures var q := FinishRefill(p, need, made);
            && q.idle == (if p.closed then p.idle else p.idle + made) && q.waiters == p.waiters
            && Aside(p, q) && q.borrowed == p.borrowed && q.total == Clamp(p.total - (need - |made|))
            && Lifetimes(p, q, |made|, 0, 0, 0, 0, 0) && q.c.closed == p.c.closed
  {
  }

  /** Closing takes every waiter out, in order, and leaves the rest; the drain takes the oldest parked
      connection and counts one closed for it; at the end the total is what is still lent. */
  lemma CloseAnswers(p: Pool)
    ensures var (q, ws) := BeginShutdown(p);
            && q.closed && ws == p.waiters && q.waiters == [] && q.idle == p.idle
            && q.waiting == p.waiting && TalliesKept(p, q) && q.c == p.c
    ensures p.idle != [] ==> Popped(p, DrainPop(p), p.idle[0]) && TalliesKept(p, DrainPop(p)) && Aside(p, DrainPop(p))
    ensures var q := DrainCount(p);
            q.c.closed == p.c.closed + 1 && Lifetimes(p, q, 0, 0, 0, 0, 0, 0) && QueuesKept(p, q) && Aside(p, q)
            && q.total == p.total && q.borrowed == p.borrowed
    ensures var q := EndShutdown(p);
            q.total == q.borrowed == p.borrowed && QueuesKept(p, q) && Aside(p, q) && q.c == p.c
  {
  }

  // ----- A closed pool's total -----

  /** A connection that is still being made when shutdown ends gives its slot back although the total
      no longer counts it: a closed pool can report fewer than no connections. */
  lemma ClosedTotalNegative()
    ensures exists cfg: Config, w: World :: cfg.Normal() && Reachable(cfg, w) && w.p.closed && w.p.total == -1
  {
    var cfg := Config(0, 1, 0, 0, 0, true, true);
    assert Warm(0, 0) == Run(cfg, Warm(0, 0), []);
    assert Reachable(cfg, Warm(0, 0));
    var w := Claimed(cfg);
    var u := ShutDown(cfg, w);
    ReachableStep(cfg, u, Sync(CreateEnd(true)));
    assert Step(cfg, u, Sync(CreateEnd(true))).p.total == -1;
  }

  lemma ShutDown(cfg: Config, w: World) returns (u: World)
    requires Reachable(cfg, w) && w.p.idle == [] && w.p.borrowed == 0 && w.p.waiting == 0 && w.borrowing == 1
    requires cfg.pooled && w.creating == 1
    ensures Reachable(cfg, u) && u.p.closed && u.p.total == 0 && u.p.waiting == 0 && u.borrowing == 1 && u.creating == 1
  {
    var a := ShutStep(cfg, w, CloseStart);
    assert a.closing.looping == w.closing.looping + 1;
    ClosingReached(cfg, w);
    var b := ShutStep(cfg, a, CloseDrained);
    u := ShutStep(cfg, b, CloseEnd);
  }

  lemma ClosingReached(cfg: Config, w: World)
    requires Reachable(cfg, w)
    ensures ClosingKept(w)
  {
    var n: nat, now: int, es: seq<Event> :|
      n <= (if cfg.pooled then cfg.minConn else 0) && w == Run(cfg, Warm(n, now), es);
    ClosingRun(cfg, Warm(n, now), es);
  }

  lemma ShutStep(cfg: Config, w: World, e: CloseEvent) returns (v: World)
    requires Reachable(cfg, w) && CloseEnabled(w, e)
    ensures v == CloseStep(w, e) && Reachable(cfg, v)
  {
    v := CloseStep(w, e);
    ReachableStep(cfg, w, Close(e));
  }

  // ----- The validation time -----

  /** No parked connection remembers a validation: what a check notes goes with the handle. */
  ghost predicate Unvalidated(idle: seq<Idle>) { forall x | x in idle :: x.lastValidated == 0 }

  /** The health check parks what it took. */
  ghost predicate ParksUnvalidated(e: Event) { e.Keeper? && e.k.HealthEnd? ==> e.k.item.lastValidated == 0 }

  lemma TurnUnvalidated(cfg: Config, w: World, zeroTimeout: bool)
    requires Unvalidated(w.p.idle)
    ensures Unvalidated(TurnStep(cfg, w, zeroTimeout).p.idle)
  {
  }

  lemma SyncUnvalidated(cfg: Config, w: World, e: SyncEvent)
    requires Unvalidated(w.p.idle)
    ensures Unvalidated(SyncStep(cfg, w, e).p.idle)
  {
    match e
    case Start(_) =>
    case WaitEnd(timedOut) =>
      if !timedOut {
        TurnUnvalidated(cfg, w.(p := w.p.(waiting := w.p.waiting - 1)), false);
      }
    case CheckEnd(conn, alive, expired, zeroTimeout) =>
      if !alive {
        TurnUnvalidated(cfg, DiscardStep(w, conn, expired), zeroTimeout);
      }
    case CreateEnd(_) =>
    case UnpooledEnd(_) =>
  }

  lemma EnterUnvalidated(cfg: Config, w: World, request: int, now: int, timeout: int)
    requires Unvalidated(w.p.idle)
    ensures Unvalidated(EnterStep(cfg, w, request, now, timeout).p.idle)
  {
    StartAsyncMeans(cfg, w.p, request, now, timeout);
  }

  lemma AsyncUnvalidated(cfg: Config, w: World, e: AsyncEvent)
    requires Unvalidated(w.p.idle)
    ensures Unvalidated(AsyncStep(cfg, w, e).p.idle)
  {
    match e
    case Request(now, timeout) => EnterUnvalidated(cfg, w, w.nextRequest, now, timeout);
    case Again(request, now, timeout) =>
      EnterUnvalidated(cfg, w.(posted := Take(w.posted, request)), request, now, timeout);
    case _ =>
  }

  lemma ReturnUnvalidated(cfg: Config, w: World, conn: int, createdAt: int, reusable: bool, now: int)
    requires Unvalidated(w.p.idle)
    ensures Unvalidated(ReturnStep(cfg, w, conn, createdAt, reusable, now).p.idle)
  {
  }

  lemma KeeperUnvalidated(cfg: Config, w: World, e: KeeperEvent)
    requires Unvalidated(w.p.idle) && KeeperEnabled(cfg, w, e) && ParksUnvalidated(Keeper(e))
    ensures Unvalidated(KeeperStep(cfg, w, e).p.idle)
  {
  }

  lemma StepUnvalidated(cfg: Config, w: World, e: Event)
    requires Unvalidated(w.p.idle) && Enabled(cfg, w, e) && ParksUnvalidated(e)
    ensures Unvalidated(Step(cfg, w, e).p.idle)
  {
    match e
    case Sync(s) => SyncUnvalidated(cfg, w, s);
    case Async(a) => AsyncUnvalidated(cfg, w, a);
    case GiveBack(conn, createdAt, reusable, now) => ReturnUnvalidated(cfg, w, conn, createdAt, reusable, now);
    case Keeper(k) => KeeperUnvalidated(cfg, w, k);
    case Close(_) =>
  }

  lemma {:induction false} RunUnvalidated(cfg: Config, w: World, es: seq<Event>)
    requires Unvalidated(w.p.idle) && forall e | e in es :: ParksUnvalidated(e)
    ensures Unvalidated(Run(cfg, w, es).p.idle)
    decreases |es|
  {
    if es != [] {
      assert es[0] in es;
      if Enabled(cfg, w, es[0]) {
        StepUnvalidated(cfg, w, es[0]);
      }
      RunUnvalidated(cfg, Go(cfg, w, es[0]), es[1..]);
    }
  }

  /** From a new pool, after any run, an asynchronous borrow lends a parked connection without a
      ping exactly if it is young enough and the clock itself reads less than the interval. */
  lemma IntervalFromZero(cfg: Config, n: nat, start: int, es: seq<Event>, request: int, now: int, timeout: int)
    requires forall e | e in es :: ParksUnvalidated(e)
    ensures var p := Run(cfg, Warm(n, start), es).p;
            !p.closed && cfg.pooled && p.idle != [] ==>
              (StartAsync(cfg, p, request, now, timeout).1.AsyncLent?
               <==> !Expired(cfg, p.idle[0].createdAt, now) && 0 < cfg.validationInterval && now < cfg.validationInterval)
  {
    RunUnvalidated(cfg, Warm(n, start), es);
    var p := Run(cfg, Warm(n, start), es).p;
    AsyncAnswers(cfg, p, request, now, timeout);
    if p.idle != [] {
      assert p.idle[0] in p.idle;
    }
  }
}
