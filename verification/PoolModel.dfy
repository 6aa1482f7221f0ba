/** The critical sections of the connection pool, one function for each region that runs
    under the pool's mutex.  Connecting, pinging and closing a connection happen between
    these regions; their outcomes are parameters.  Times are readings of a steady clock. */
module PoolModel {
  import opened Wrappers

  /** A connection parked in the pool.  `conn` names the physical connection. */
  datatype Idle = Idle(conn: int, createdAt: int, returnedAt: int, lastValidated: int)

  /** An asynchronous borrower that queued because the pool was exhausted.
      `ticket` is the position at which it was pushed. */
  datatype Waiter = Waiter(request: int, ticket: nat, enqueuedAt: int, deadline: int)

  /** Settings after the constructor's clamping. */
  datatype Config = Config(minConn: int, maxConn: int, idleTimeout: int, maxLifetime: int,
                           validationInterval: int, metrics: bool, pooled: bool)
  {
    predicate Normal() {
      0 <= minConn <= maxConn && 1 <= maxConn
    }
  }

  function Max(a: int, b: int): int { if a < b then b else a }

  function Min(a: int, b: int): int { if b < a then b else a }

  /** A negative duration counts as none. */
  predicate NotNegative(given: int, kept: int) { kept == given >= 0 || (given < 0 && kept == 0) }

  /** The settings the constructor stores for arbitrary arguments. */
  function Normalize(minConn: int, maxConn: int, idleTimeout: int, maxLifetime: int,
                     validationInterval: int, metrics: bool, pooled: bool): (c: Config)
    ensures c.Normal() && c.metrics == metrics && c.pooled == pooled
    ensures c.maxConn == maxConn || (maxConn < 1 && c.maxConn == 1)
    ensures c.minConn == minConn || (minConn < 0 && c.minConn == 0) || (minConn > c.maxConn && c.minConn == c.maxConn)
    ensures NotNegative(idleTimeout, c.idleTimeout) && NotNegative(maxLifetime, c.maxLifetime)
    ensures NotNegative(validationInterval, c.validationInterval)
  {
    var hi := Max(maxConn, 1);
    Config(Min(Max(minConn, 0), hi), hi, Max(idleTimeout, 0), Max(maxLifetime, 0),
           Max(validationInterval, 0), metrics, pooled)
  }

  datatype Counters = Counters(created: int, closed: int,
                               requests: int, successes: int, timeouts: int,
                               createFailures: int, validationFailures: int,
                               lifetimeEvictions: int, idleEvictions: int, invalidated: int,
                               maxBorrowed: int)

  const ZeroCounters := Counters(0, 0, 0, 0, 0, 0, 0, 0, 0, 0, 0)

  /** The fields of `ConnectionPool::State` that the critical sections read and write. */
  datatype Pool = Pool(total: int, borrowed: int, waiting: int, closed: bool,
                       idle: seq<Idle>, waiters: seq<Waiter>, nextTicket: nat, c: Counters)

  const EmptyPool := Pool(0, 0, 0, false, [], [], 0, ZeroCounters)

  function Tick(b: bool): int { if b then 1 else 0 }

  function Clamp(n: int): int { if n < 0 then 0 else n }

  function Expired(cfg: Config, createdAt: int, now: int): bool {
    cfg.maxLifetime > 0 && now - createdAt >= cfg.maxLifetime
  }

  function NeedsPing(cfg: Config, item: Idle, now: int): bool {
    cfg.validationInterval <= 0 || now - item.lastValidated >= cfg.validationInterval
  }

  /** `count` connections made at one moment, numbered from `first`. */
  function Made(first: int, count: nat, now: int): seq<Idle> {
    seq(count, i requires 0 <= i < count => Idle(first + i, now, now, 0))
  }

  // ----- Waiters -----

  function Live(ws: seq<Waiter>, now: int): seq<Waiter> {
    if ws == [] then []
    else if ws[0].deadline <= now then Live(ws[1..], now)
    else [ws[0]] + Live(ws[1..], now)
  }

  function Late(ws: seq<Waiter>, now: int): seq<Waiter> {
    if ws == [] then []
    else if ws[0].deadline <= now then [ws[0]] + Late(ws[1..], now)
    else Late(ws[1..], now)
  }

  /** `expireWaiters`: completes every waiter whose deadline has passed. */
  function ExpireWaiters(cfg: Config, p: Pool, now: int): (Pool, seq<Waiter>) {
    var late := Late(p.waiters, now);
    (p.(waiters := Live(p.waiters, now),
        c := p.c.(timeouts := p.c.timeouts + if cfg.metrics then |late| else 0)),
     late)
  }

  // ----- Lending and dropping -----

  function Succeed(cfg: Config, p: Pool): Pool {
    p.(c := p.c.(successes := p.c.successes + Tick(cfg.metrics),
                 maxBorrowed := if cfg.metrics then Max(p.c.maxBorrowed, p.borrowed)
                                else p.c.maxBorrowed))
  }

  /** One more handle is outstanding. */
  function Lend(cfg: Config, p: Pool): Pool {
    Succeed(cfg, p.(borrowed := p.borrowed + 1))
  }

  function DropExpired(p: Pool): Pool {
    p.(total := Clamp(p.total - 1),
       c := p.c.(closed := p.c.closed + 1, lifetimeEvictions := p.c.lifetimeEvictions + 1))
  }

  function DropInvalid(p: Pool): Pool {
    p.(total := Clamp(p.total - 1),
       c := p.c.(closed := p.c.closed + 1, validationFailures := p.c.validationFailures + 1))
  }

  // ----- Synchronous borrow -----

  /** What one turn of the borrow loop decides while it holds the lock. */
  datatype Poll = PollClosed | PollCheck(item: Idle) | PollCreate | PollExhausted | PollWait

  function CountRequest(cfg: Config, p: Pool): Pool {
    p.(c := p.c.(requests := p.c.requests + Tick(cfg.metrics)))
  }

  function TurnBorrow(cfg: Config, p: Pool, zeroTimeout: bool): (Pool, Poll) {
    if p.closed then (p, PollClosed)
    else if p.idle != [] then (p.(idle := p.idle[1..]), PollCheck(p.idle[0]))
    else if p.total < cfg.maxConn then (p.(total := p.total + 1), PollCreate)
    else if zeroTimeout then
      (p.(c := p.c.(timeouts := p.c.timeouts + Tick(cfg.metrics))), PollExhausted)
    else (p.(waiting := p.waiting + 1), PollWait)
  }

  function StartBorrow(cfg: Config, p: Pool, zeroTimeout: bool): (Pool, Poll) {
    var q := CountRequest(cfg, p);
    if cfg.pooled then TurnBorrow(cfg, q, zeroTimeout)
    else if q.closed then (q, PollClosed)
    else (q, PollCreate)
  }

  function EndWait(cfg: Config, p: Pool, timedOut: bool): (Pool, Poll) {
    var q := p.(waiting := p.waiting - 1);
    if timedOut then
      (q.(c := q.c.(timeouts := q.c.timeouts + Tick(cfg.metrics))), PollExhausted)
    else TurnBorrow(cfg, q, false)
  }

  /** Back under the lock after validating the popped connection: `Some(true)` lends it,
      `Some(false)` reports a closed pool, and `None` drops it so that the loop turns again. */
  function FinishCheck(cfg: Config, p: Pool, alive: bool, expired: bool): (Pool, Option<bool>) {
    if alive then
      if p.closed then (p, Some(false)) else (Lend(cfg, p), Some(true))
    else if expired then (DropExpired(p), None)
    else (DropInvalid(p), None)
  }

  /** Back under the lock after connecting on a reserved slot; true when lent. */
  function FinishCreate(cfg: Config, p: Pool, connected: bool): (Pool, bool) {
    if connected then
      if p.closed then (p.(total := p.total - 1), false)
      else (Succeed(cfg, p.(borrowed := p.borrowed + 1, c := p.c.(created := p.c.created + 1))), true)
    else
      (p.(total := Clamp(p.total - 1), c := p.c.(createFailures := p.c.createFailures + 1)), false)
  }

  /** Back under the lock after connecting without pooling, where no slot was reserved. */
  function FinishUnpooled(cfg: Config, p: Pool, connected: bool): (Pool, bool) {
    if !connected then (p.(c := p.c.(createFailures := p.c.createFailures + 1)), false)
    else if p.closed then (p, false)
    else
      (Succeed(cfg, p.(total := p.total + 1, borrowed := p.borrowed + 1,
                       c := p.c.(created := p.c.created + 1))), true)
  }

  // ----- Asynchronous borrow -----

  datatype AsyncPoll =
    | AsyncClosed
    | AsyncUnpooled
    | AsyncRetry(dropped: Idle)
    | AsyncLent(item: Idle)
    | AsyncCheck(item: Idle)
    | AsyncCreate
    | AsyncExhausted
    | AsyncQueued

  function StartAsync(cfg: Config, p: Pool, request: int, now: int, timeout: int): (Pool, AsyncPoll) {
    var q := CountRequest(cfg, p);
    if q.closed then (q, AsyncClosed)
    else if !cfg.pooled then (q, AsyncUnpooled)
    else if q.idle != [] then
      var item := q.idle[0];
      var r := q.(idle := q.idle[1..]);
      if Expired(cfg, item.createdAt, now) then (DropExpired(r), AsyncRetry(item))
      else if !NeedsPing(cfg, item, now) then (Lend(cfg, r), AsyncLent(item))
      else (r, AsyncCheck(item))
    else if q.total < cfg.maxConn then (q.(total := q.total + 1), AsyncCreate)
    else if timeout == 0 then
      (q.(c := q.c.(timeouts := q.c.timeouts + Tick(cfg.metrics))), AsyncExhausted)
    else
      (q.(waiters := q.waiters + [Waiter(request, q.nextTicket, now, now + timeout)],
          nextTicket := q.nextTicket + 1), AsyncQueued)
  }

  /** First section of the posted validation: `Some(true)` lends, `Some(false)` reports a
      closed pool, `None` leaves the dead connection to `DropInvalid` and a retry. */
  function FinishAsyncCheck(cfg: Config, p: Pool, alive: bool): (Pool, Option<bool>) {
    if p.closed then (p, Some(false))
    else if alive then (Lend(cfg, p), Some(true))
    else (p, None)
  }

  /** The posted creation task; true when it lends. */
  function FinishAsyncCreate(cfg: Config, p: Pool, connected: bool, reserved: bool): (Pool, bool) {
    if p.closed then
      (p.(total := p.total - Tick(reserved && p.total > 0)), false)
    else if !connected then
      (p.(total := if reserved then Clamp(p.total - 1) else p.total,
          c := p.c.(createFailures := p.c.createFailures + 1)), false)
    else
      (Succeed(cfg, p.(total := p.total + Tick(!reserved), borrowed := p.borrowed + 1,
                       c := p.c.(created := p.c.created + 1))), true)
  }

  // ----- Return -----

  datatype Returned =
    | Retired
    | HandedOff(to: Waiter, lost: seq<Waiter>)
    | Parked(expired: seq<Waiter>)

  /** `returnConn`.  A hand-off returns early, so the waiters it purged are never completed. */
  function Return(cfg: Config, p: Pool, conn: int, createdAt: int, reusable: bool, now: int): (Pool, Returned) {
    var q := p.(borrowed := p.borrowed - Tick(p.borrowed > 0));
    var expired := Expired(cfg, createdAt, now);
    if q.closed || expired || !reusable || !cfg.pooled then
      (q.(total := q.total - Tick(q.total > 0),
          c := q.c.(closed := q.c.closed + 1,
                    invalidated := q.c.invalidated + Tick(!reusable),
                    lifetimeEvictions := q.c.lifetimeEvictions + Tick(reusable && expired))),
       Retired)
    else
      var (r, late) := ExpireWaiters(cfg, q, now);
      if r.waiters != [] then
        (Lend(cfg, r.(waiters := r.waiters[1..])), HandedOff(r.waiters[0], late))
      else
        (r.(idle := r.idle + [Idle(conn, createdAt, now, 0)]), Parked(late))
  }

  // ----- Health check -----

  /** Takes the oldest idle connection for validation, with the idle-timeout verdict. */
  function TakeForHealth(cfg: Config, p: Pool, now: int): (Pool, Option<(Idle, bool)>) {
    if p.closed || p.idle == [] then (p, None)
    else
      var item := p.idle[0];
      var retire := cfg.idleTimeout > 0 && now - item.returnedAt >= cfg.idleTimeout
                    && p.total > cfg.minConn;
      (p.(idle := p.idle[1..]), Some((item, retire)))
  }

  /** Puts a live connection back, true, or drops it, false. */
  function FinishHealth(p: Pool, item: Idle, alive: bool, retire: bool, expired: bool): (Pool, bool) {
    if alive && !p.closed then (p.(idle := p.idle + [item]), true)
    else
      (p.(total := Clamp(p.total - 1),
          c := p.c.(closed := p.c.closed + 1,
                    idleEvictions := p.c.idleEvictions + Tick(retire),
                    lifetimeEvictions := p.c.lifetimeEvictions + Tick(!retire && expired),
                    validationFailures := p.c.validationFailures + Tick(!retire && !expired))),
       false)
  }

  function RefillNeed(cfg: Config, p: Pool): int {
    Min(Max(cfg.minConn - p.total, 0), Max(cfg.maxConn - p.total, 0))
  }

  function ReserveRefill(cfg: Config, p: Pool): Pool {
    if p.closed then p else p.(total := p.total + RefillNeed(cfg, p))
  }

  /** Adopts the fresh connections of a refill that had reserved `need` slots. */
  function FinishRefill(p: Pool, need: int, made: seq<Idle>): Pool {
    p.(total := Clamp(p.total - (need - |made|)),
       c := p.c.(created := p.c.created + |made|),
       idle := if p.closed then p.idle else p.idle + made)
  }

  // ----- Shutdown -----

  function BeginShutdown(p: Pool): (Pool, seq<Waiter>) {
    (p.(closed := true, waiters := []), p.waiters)
  }

  function DrainPop(p: Pool): Pool
    requires p.idle != []
  {
    p.(idle := p.idle[1..])
  }

  function DrainCount(p: Pool): Pool {
    p.(c := p.c.(closed := p.c.closed + 1))
  }

  function EndShutdown(p: Pool): Pool {
    p.(total := p.borrowed)
  }

  // ----- What each outcome means -----

  /** The queue of parked connections lost its oldest member, `item`. */
  ghost predicate Popped(p: Pool, q: Pool, item: Idle) {
    p.idle != [] && item == p.idle[0] && q.idle == p.idle[1..] && q.waiters == p.waiters
  }

  ghost predicate QueuesKept(p: Pool, q: Pool) {
    q.idle == p.idle && q.waiters == p.waiters
  }

  /** Counters other than the request tallies, and the slot tallies, are as before. */
  ghost predicate TalliesKept(p: Pool, q: Pool) {
    && q.total == p.total && q.borrowed == p.borrowed
    && q.c.created == p.c.created && q.c.closed == p.c.closed
    && q.c.validationFailures == p.c.validationFailures
    && q.c.lifetimeEvictions == p.c.lifetimeEvictions
    && q.c.idleEvictions == p.c.idleEvictions && q.c.invalidated == p.c.invalidated
  }

  ghost predicate RequestTallies(cfg: Config, p: Pool, q: Pool, requests: int, successes: int, timeouts: int) {
    cfg.metrics ==>
      && q.c.requests == p.c.requests + requests
      && q.c.successes == p.c.successes + successes
      && q.c.timeouts == p.c.timeouts + timeouts
      && q.c.maxBorrowed == if successes > 0 then Max(p.c.maxBorrowed, q.borrowed) else p.c.maxBorrowed
  }

  /** The effect of a turn of the borrow loop, outcome by outcome. */
  ghost predicate PollMeans(cfg: Config, p: Pool, q: Pool, poll: Poll, requests: int) {
    && q.closed == p.closed && q.nextTicket == p.nextTicket
    && (cfg.pooled || poll.PollClosed? || poll.PollCreate?)
    && q.waiting == p.waiting + Tick(poll.PollWait?)
    && RequestTallies(cfg, p, q, requests, 0, Tick(poll.PollExhausted?))
    && (match poll
        case PollCheck(item) => !p.closed && Popped(p, q, item) && TalliesKept(p, q)
        case PollCreate =>
          && !p.closed && QueuesKept(p, q)
          && (if cfg.pooled then p.total < cfg.maxConn && TalliesKept(p, q.(total := p.total))
                                 && q.total == p.total + 1 && p.idle == []
              else TalliesKept(p, q))
        case PollClosed => p.closed && QueuesKept(p, q) && TalliesKept(p, q)
        case _ => !p.closed && p.idle == [] && p.total >= cfg.maxConn && QueuesKept(p, q) && TalliesKept(p, q))
  }

  lemma StartBorrowMeans(cfg: Config, p: Pool, zeroTimeout: bool)
    ensures var (q, poll) := StartBorrow(cfg, p, zeroTimeout); PollMeans(cfg, p, q, poll, 1)
  {
  }

  lemma TurnBorrowMeans(cfg: Config, p: Pool, zeroTimeout: bool)
    requires cfg.pooled
    ensures var (q, poll) := TurnBorrow(cfg, p, zeroTimeout); PollMeans(cfg, p, q, poll, 0)
  {
  }

  /** The effect of one entry of an asynchronous borrow, outcome by outcome. */
  ghost predicate AsyncMeans(cfg: Config, p: Pool, request: int, now: int, timeout: int, q: Pool, poll: AsyncPoll) {
    && q.closed == p.closed && q.waiting == p.waiting
    && (cfg.pooled || poll.AsyncClosed? || poll.AsyncUnpooled?)
    && (poll.AsyncClosed? <==> p.closed)
    && (poll.AsyncUnpooled? ==> !cfg.pooled)
    && (!poll.AsyncQueued? ==> q.nextTicket == p.nextTicket)
    && RequestTallies(cfg, p, q, 1, Tick(poll.AsyncLent?), Tick(poll.AsyncExhausted?))
    && (match poll
        case AsyncRetry(item) =>
          && Popped(p, q, item) && Expired(cfg, item.createdAt, now)
          && q.total == Clamp(p.total - 1) && q.borrowed == p.borrowed
          && q.c.created == p.c.created && q.c.closed == p.c.closed + 1
          && q.c.validationFailures == p.c.validationFailures
          && q.c.lifetimeEvictions == p.c.lifetimeEvictions + 1
          && q.c.idleEvictions == p.c.idleEvictions && q.c.invalidated == p.c.invalidated
        case AsyncLent(item) =>
          && Popped(p, q, item) && !Expired(cfg, item.createdAt, now) && !NeedsPing(cfg, item, now)
          && q.borrowed == p.borrowed + 1 && TalliesKept(p, q.(borrowed := p.borrowed))
        case AsyncCheck(item) => Popped(p, q, item) && TalliesKept(p, q)
        case AsyncCreate =>
          && QueuesKept(p, q) && p.total < cfg.maxConn && p.idle == []
          && q.total == p.total + 1 && TalliesKept(p, q.(total := p.total))
        case AsyncQueued =>
          && p.idle == [] && p.total >= cfg.maxConn
          && q.idle == p.idle && q.nextTicket == p.nextTicket + 1 && TalliesKept(p, q)
          && |q.waiters| == |p.waiters| + 1 && q.waiters[..|p.waiters|] == p.waiters
          && q.waiters[|p.waiters|] == Waiter(request, p.nextTicket, now, now + timeout)
        case _ => QueuesKept(p, q) && TalliesKept(p, q))
  }

  lemma StartAsyncMeans(cfg: Config, p: Pool, request: int, now: int, timeout: int)
    ensures var (q, poll) := StartAsync(cfg, p, request, now, timeout);
            AsyncMeans(cfg, p, request, now, timeout, q, poll)
  {
  }

  // ----- What the waiter queue guarantees -----

  ghost predicate TicketsOrdered(ws: seq<Waiter>, bound: nat) {
    (forall i, j | 0 <= i < j < |ws| :: ws[i].ticket < ws[j].ticket)
    && forall i | 0 <= i < |ws| :: ws[i].ticket < bound
  }

  lemma {:induction false} LiveSelects(ws: seq<Waiter>, now: int)
    ensures forall w :: w in Live(ws, now) <==> w in ws && now < w.deadline
    ensures forall w :: w in Late(ws, now) <==> w in ws && w.deadline <= now
  {
    if ws != [] {
      LiveSelects(ws[1..], now);
      assert ws == [ws[0]] + ws[1..];
    }
  }

  lemma OrderedTail(ws: seq<Waiter>, bound: nat)
    requires ws != [] && TicketsOrdered(ws, bound)
    ensures TicketsOrdered(ws[1..], bound) && forall x | x in ws[1..] :: ws[0].ticket < x.ticket
  {
    assert forall i | 0 <= i < |ws[1..]| :: ws[1..][i] == ws[i + 1];
  }

  lemma OrderedCons(w: Waiter, ws: seq<Waiter>, bound: nat)
    requires TicketsOrdered(ws, bound) && w.ticket < bound && forall x | x in ws :: w.ticket < x.ticket
    ensures TicketsOrdered([w] + ws, bound)
  {
    assert forall i | 0 < i < |[w] + ws| :: ([w] + ws)[i] == ws[i - 1] && ws[i - 1] in ws;
  }

  lemma {:induction false} LiveOrdered(ws: seq<Waiter>, now: int, bound: nat)
    requires TicketsOrdered(ws, bound)
    ensures TicketsOrdered(Live(ws, now), bound)
  {
    if ws != [] {
      OrderedTail(ws, bound);
      LiveOrdered(ws[1..], now, bound);
      LiveSelects(ws[1..], now);
      if ws[0].deadline > now {
        OrderedCons(ws[0], Live(ws[1..], now), bound);
      }
    }
  }

  /** A return hands off exactly when it keeps the connection and someone still waits. */
  lemma HandOffWhen(cfg: Config, p: Pool, conn: int, createdAt: int, reusable: bool, now: int)
    ensures var keep := !p.closed && reusable && cfg.pooled && !Expired(cfg, createdAt, now);
            var r := Return(cfg, p, conn, createdAt, reusable, now).1;
            && (r.HandedOff? <==> keep && Live(p.waiters, now) != [])
            && (r.HandedOff? ==> r.to == Live(p.waiters, now)[0] && r.lost == Late(p.waiters, now))
            && (r.Parked? <==> keep && Live(p.waiters, now) == [])
  {
  }

  /** A hand-off goes to the waiter that has queued longest among those whose deadline is
      still ahead, and it happens whenever such a waiter exists on a connection worth keeping. */
  lemma HandOffIsFair(cfg: Config, p: Pool, conn: int, createdAt: int, reusable: bool, now: int)
    requires TicketsOrdered(p.waiters, p.nextTicket)
    ensures var keep := !p.closed && reusable && cfg.pooled && !Expired(cfg, createdAt, now);
            var r := Return(cfg, p, conn, createdAt, reusable, now).1;
            && (r.HandedOff? <==> keep && exists w :: w in p.waiters && now < w.deadline)
            && (r.HandedOff? ==>
                  && r.to in p.waiters && now < r.to.deadline
                  && (forall w | w in p.waiters && now < w.deadline && w != r.to :: r.to.ticket < w.ticket)
                  && (forall w :: w in r.lost <==> w in p.waiters && w.deadline <= now))
            && (r.Parked? <==> keep && forall w | w in p.waiters :: w.deadline <= now)
  {
    LiveSelects(p.waiters, now);
    LiveOrdered(p.waiters, now, p.nextTicket);
    HandOffWhen(cfg, p, conn, createdAt, reusable, now);
    var live := Live(p.waiters, now);
    if live != [] {
      assert live[0] in live;
    }
  }
}
