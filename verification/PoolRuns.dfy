/** Every interleaving of the pool's critical sections.  A `World` is the shared pool plus the
    work that is under way outside the lock; an `Event` is one critical section of one thread,
    with the outcome of the driver call that preceded it.  The events over-approximate the
    threads: a section may pair any connection under validation with any posted request. */
module PoolRuns {
  import opened Wrappers
  import opened PoolModel

  datatype World = World(
    p: Pool,
    lent: multiset<int>,       // connections owned by a handle
    checking: multiset<int>,   // connections popped for validation
    dead: multiset<int>,       // connections closed for good
    nextConn: int,
    minted: int,               // handles ever created
    creating: int,             // slots reserved for a connection being made
    refilling: int,            // slots reserved by health checks
    borrowing: int,            // synchronous borrows that have not returned
    posted: multiset<int>,     // asynchronous requests with a task in flight
    completed: multiset<int>,  // asynchronous requests whose completion was called
    lost: multiset<int>,       // asynchronous requests dropped without completion
    nextRequest: int,
    closing: Closing)

  /** Where the calls of shutdown are: at the head of the drain loop, closing a connection they
      popped, or past the loop. */
  datatype Closing = Closing(looping: int, popped: int, drained: int)

  datatype SyncEvent =
    | Start(zeroTimeout: bool)
    | WaitEnd(timedOut: bool)
    | CheckEnd(conn: int, alive: bool, expired: bool, zeroTimeout: bool)
    | CreateEnd(connected: bool)
    | UnpooledEnd(connected: bool)

  datatype AsyncEvent =
    | Expire(now: int)
    | Request(now: int, timeout: int)
    | Again(request: int, now: int, timeout: int)
    | Checked(request: int, conn: int, alive: bool)
    | Dropped(conn: int)
    | Created(request: int, connected: bool, reserved: bool)

  datatype KeeperEvent =
    | HealthTake(now: int)
    | HealthEnd(item: Idle, alive: bool, retire: bool, expired: bool)
    | RefillStart
    | RefillEnd(need: nat, count: nat, now: int)

  datatype CloseEvent = CloseStart | CloseDrain | CloseCount | CloseDrained | CloseEnd

  datatype Event =
    | Sync(s: SyncEvent)
    | Async(a: AsyncEvent)
    | GiveBack(conn: int, createdAt: int, reusable: bool, now: int)
    | Keeper(k: KeeperEvent)
    | Close(c: CloseEvent)

  // ----- Multiset views -----

  function ConnSeq(xs: seq<Idle>): seq<int> {
    seq(|xs|, i requires 0 <= i < |xs| => xs[i].conn)
  }

  function RequestSeq(ws: seq<Waiter>): seq<int> {
    seq(|ws|, i requires 0 <= i < |ws| => ws[i].request)
  }

  function Conns(xs: seq<Idle>): multiset<int> { multiset(ConnSeq(xs)) }

  function Requests(ws: seq<Waiter>): multiset<int> { multiset(RequestSeq(ws)) }

  lemma ConnsAppend(xs: seq<Idle>, ys: seq<Idle>, k: int)
    ensures Conns(xs + ys)[k] == Conns(xs)[k] + Conns(ys)[k]
  {
    assert ConnSeq(xs + ys) == ConnSeq(xs) + ConnSeq(ys);
  }

  lemma ConnsPush(xs: seq<Idle>, x: Idle, k: int)
    ensures Conns(xs + [x])[k] == Conns(xs)[k] + Tick(x.conn == k)
  {
    assert ConnSeq(xs + [x]) == ConnSeq(xs) + [x.conn];
  }

  lemma ConnsPop(xs: seq<Idle>, k: int)
    ensures xs != [] ==> Conns(xs)[k] == Tick(xs[0].conn == k) + Conns(xs[1..])[k]
  {
    if xs != [] {
      assert ConnSeq(xs) == [xs[0].conn] + ConnSeq(xs[1..]);
    }
  }

  lemma RequestsPop(ws: seq<Waiter>, k: int)
    ensures ws != [] ==> Requests(ws)[k] == Tick(ws[0].request == k) + Requests(ws[1..])[k]
    ensures Requests([])[k] == 0
  {
    assert RequestSeq([]) == [];
    if ws != [] {
      assert RequestSeq(ws) == [ws[0].request] + RequestSeq(ws[1..]);
    }
  }

  lemma RequestsLast(ws: seq<Waiter>, k: int)
    requires ws != []
    ensures Requests(ws)[k] == Requests(ws[..|ws| - 1])[k] + Tick(ws[|ws| - 1].request == k)
  {
    assert RequestSeq(ws) == RequestSeq(ws[..|ws| - 1]) + [ws[|ws| - 1].request];
  }

  lemma {:induction false} RequestsSplit(ws: seq<Waiter>, now: int, k: int)
    ensures Requests(ws)[k] == Requests(Live(ws, now))[k] + Requests(Late(ws, now))[k]
    ensures |ws| == |Live(ws, now)| + |Late(ws, now)|
  {
    RequestsPop(ws, k);
    if ws != [] {
      RequestsSplit(ws[1..], now, k);
      if ws[0].deadline <= now {
        RequestsPop(Late(ws, now), k);
        assert Late(ws, now)[1..] == Late(ws[1..], now);
      } else {
        RequestsPop(Live(ws, now), k);
        assert Live(ws, now)[1..] == Live(ws[1..], now);
      }
    }
  }

  lemma {:induction false} MadeCounts(first: int, count: nat, now: int, k: int)
    ensures Conns(Made(first, count, now))[k] == Tick(first <= k < first + count)
  {
    if count > 0 {
      MadeCounts(first, count - 1, now, k);
      assert Made(first, count, now)
             == Made(first, count - 1, now) + [Idle(first + count - 1, now, now, 0)];
      ConnsPush(Made(first, count - 1, now), Idle(first + count - 1, now, now, 0), k);
    }
  }

  // ----- The transition system -----

  const Initial := World(EmptyPool, multiset{}, multiset{}, multiset{}, 0, 0, 0, 0, 0,
                         multiset{}, multiset{}, multiset{}, 0, Closing(0, 0, 0))

  function Take(m: multiset<int>, x: int): multiset<int> { m - multiset{x} }

  predicate SyncEnabled(cfg: Config, w: World, e: SyncEvent) {
    match e
    case Start(_) => true
    case WaitEnd(_) => w.p.waiting > 0
    case CheckEnd(conn, _, _, _) => conn in w.checking && w.borrowing > w.p.waiting
    case CreateEnd(_) => cfg.pooled && w.creating > 0 && w.borrowing > w.p.waiting
    case UnpooledEnd(_) => !cfg.pooled && w.borrowing > w.p.waiting
  }

  predicate AsyncEnabled(cfg: Config, w: World, e: AsyncEvent) {
    match e
    case Expire(_) => true
    case Request(_, timeout) => timeout >= 0
    case Again(request, _, timeout) => request in w.posted && timeout >= 0
    case Checked(request, conn, _) => request in w.posted && conn in w.checking
    case Dropped(conn) => conn in w.checking
    case Created(request, _, reserved) =>
      request in w.posted && reserved == cfg.pooled && (reserved ==> w.creating > 0)
  }

  predicate KeeperEnabled(cfg: Config, w: World, e: KeeperEvent) {
    match e
    case HealthEnd(item, alive, retire, expired) =>
      item.conn in w.checking && (alive ==> !retire && !expired)
    case RefillEnd(need, count, _) => count <= need <= w.refilling
    case _ => cfg.pooled
  }

  predicate CloseEnabled(w: World, e: CloseEvent) {
    match e
    case CloseStart => true
    case CloseDrain => w.p.closed && w.p.idle != [] && w.closing.looping > 0
    case CloseCount => w.p.closed && w.closing.popped > 0
    case CloseDrained => w.p.closed && w.p.idle == [] && w.closing.looping > 0
    case CloseEnd => w.p.closed && w.closing.drained > 0
  }

  predicate Enabled(cfg: Config, w: World, e: Event) {
    match e
    case Sync(s) => SyncEnabled(cfg, w, s)
    case Async(a) => AsyncEnabled(cfg, w, a)
    case GiveBack(conn, _, _, _) => conn in w.lent
    case Keeper(k) => KeeperEnabled(cfg, w, k)
    case Close(c) => CloseEnabled(w, c)
  }

  /** A synchronous borrow goes on as its turn of the loop decided. */
  function AfterTurn(cfg: Config, w: World, p: Pool, poll: Poll): World {
    match poll
    case PollClosed => w.(p := p, borrowing := w.borrowing - 1)
    case PollCheck(item) => w.(p := p, checking := w.checking + multiset{item.conn})
    case PollCreate => w.(p := p, creating := w.creating + Tick(cfg.pooled))
    case PollExhausted => w.(p := p, borrowing := w.borrowing - 1)
    case PollWait => w.(p := p)
  }

  /** A synchronous borrow returns, with a new handle on the new connection if `lends`. */
  function AfterCreate(w: World, p: Pool, lends: bool, slot: int): World {
    w.(p := p, borrowing := w.borrowing - 1, creating := w.creating - slot,
       nextConn := w.nextConn + Tick(lends), minted := w.minted + Tick(lends),
       lent := if lends then w.lent + multiset{w.nextConn} else w.lent)
  }

  function StartStep(cfg: Config, w: World, zeroTimeout: bool): World {
    var (p, poll) := StartBorrow(cfg, w.p, zeroTimeout);
    AfterTurn(cfg, w.(borrowing := w.borrowing + 1), p, poll)
  }

  /** After a failed validation the loop turns again, and gives up if it may not wait. */
  function TurnStep(cfg: Config, w: World, zeroTimeout: bool): World {
    var (p, poll) := TurnBorrow(cfg, w.p, zeroTimeout);
    AfterTurn(cfg, w, p, poll)
  }

  function WaitStep(cfg: Config, w: World, timedOut: bool): World {
    var (p, poll) := EndWait(cfg, w.p, timedOut);
    AfterTurn(cfg, w, p, poll)
  }

  function CheckStep(cfg: Config, w: World, conn: int, alive: bool, expired: bool, zeroTimeout: bool): World {
    var (p, done) := FinishCheck(cfg, w.p, alive, expired);
    match done
    case Some(true) =>
      w.(p := p, checking := Take(w.checking, conn), borrowing := w.borrowing - 1,
         lent := w.lent + multiset{conn}, minted := w.minted + 1)
    case Some(false) =>
      w.(p := p, checking := Take(w.checking, conn), borrowing := w.borrowing - 1,
         dead := w.dead + multiset{conn})
    case None =>
      TurnStep(cfg, w.(p := p, checking := Take(w.checking, conn), dead := w.dead + multiset{conn}), zeroTimeout)
  }

  function CreateStep(cfg: Config, w: World, connected: bool): World {
    var (p, lends) := FinishCreate(cfg, w.p, connected);
    AfterCreate(w, p, lends, 1)
  }

  function UnpooledStep(cfg: Config, w: World, connected: bool): World {
    var (p, lends) := FinishUnpooled(cfg, w.p, connected);
    AfterCreate(w, p, lends, 0)
  }

  function SyncStep(cfg: Config, w: World, e: SyncEvent): World {
    match e
    case Start(zeroTimeout) => StartStep(cfg, w, zeroTimeout)
    case WaitEnd(timedOut) => WaitStep(cfg, w, timedOut)
    case CheckEnd(conn, alive, expired, zeroTimeout) => CheckStep(cfg, w, conn, alive, expired, zeroTimeout)
    case CreateEnd(connected) => CreateStep(cfg, w, connected)
    case UnpooledEnd(connected) => UnpooledStep(cfg, w, connected)
  }

  function AfterAsyncTurn(w: World, request: int, p: Pool, poll: AsyncPoll): World {
    match poll
    case AsyncClosed => w.(p := p, completed := w.completed + multiset{request})
    case AsyncUnpooled => w.(p := p, posted := w.posted + multiset{request})
    case AsyncRetry(item) =>
      w.(p := p, posted := w.posted + multiset{request}, dead := w.dead + multiset{item.conn})
    case AsyncLent(item) =>
      w.(p := p, completed := w.completed + multiset{request},
         lent := w.lent + multiset{item.conn}, minted := w.minted + 1)
    case AsyncCheck(item) =>
      w.(p := p, posted := w.posted + multiset{request}, checking := w.checking + multiset{item.conn})
    case AsyncCreate => w.(p := p, posted := w.posted + multiset{request}, creating := w.creating + 1)
    case AsyncExhausted => w.(p := p, completed := w.completed + multiset{request})
    case AsyncQueued => w.(p := p)
  }

  function EnterStep(cfg: Config, w: World, request: int, now: int, timeout: int): World {
    var (p, poll) := StartAsync(cfg, w.p, request, now, timeout);
    AfterAsyncTurn(w, request, p, poll)
  }

  function CheckedStep(cfg: Config, w: World, request: int, conn: int, alive: bool): World {
    var (p, done) := FinishAsyncCheck(cfg, w.p, alive);
    match done
    case Some(true) =>
      w.(p := p, posted := Take(w.posted, request), completed := w.completed + multiset{request},
         checking := Take(w.checking, conn), lent := w.lent + multiset{conn}, minted := w.minted + 1)
    case Some(false) =>
      w.(p := p, posted := Take(w.posted, request), completed := w.completed + multiset{request},
         checking := Take(w.checking, conn), dead := w.dead + multiset{conn})
    case None => w.(p := p)
  }

  function CreatedStep(cfg: Config, w: World, request: int, connected: bool, reserved: bool): World {
    var (p, lends) := FinishAsyncCreate(cfg, w.p, connected, reserved);
    w.(p := p, creating := w.creating - Tick(reserved),
       posted := Take(w.posted, request), completed := w.completed + multiset{request},
       nextConn := w.nextConn + Tick(lends), minted := w.minted + Tick(lends),
       lent := if lends then w.lent + multiset{w.nextConn} else w.lent)
  }

  function ExpireStep(cfg: Config, w: World, now: int): World {
    var (p, late) := ExpireWaiters(cfg, w.p, now);
    w.(p := p, completed := w.completed + Requests(late))
  }

  function RequestStep(cfg: Config, w: World, now: int, timeout: int): World {
    EnterStep(cfg, w, w.nextRequest, now, timeout).(nextRequest := w.nextRequest + 1)
  }

  function AgainStep(cfg: Config, w: World, request: int, now: int, timeout: int): World {
    EnterStep(cfg, w.(posted := Take(w.posted, request)), request, now, timeout)
  }

  /** A connection that failed validation is closed and its slot given up. */
  function DiscardStep(w: World, conn: int, expired: bool): World {
    w.(p := if expired then DropExpired(w.p) else DropInvalid(w.p),
       checking := Take(w.checking, conn), dead := w.dead + multiset{conn})
  }

  function AsyncStep(cfg: Config, w: World, e: AsyncEvent): World {
    match e
    case Expire(now) => ExpireStep(cfg, w, now)
    case Request(now, timeout) => RequestStep(cfg, w, now, timeout)
    case Again(request, now, timeout) => AgainStep(cfg, w, request, now, timeout)
    case Checked(request, conn, alive) => CheckedStep(cfg, w, request, conn, alive)
    case Dropped(conn) => DiscardStep(w, conn, false)
    case Created(request, connected, reserved) => CreatedStep(cfg, w, request, connected, reserved)
  }

  function ReturnStep(cfg: Config, w: World, conn: int, createdAt: int, reusable: bool, now: int): World {
    var (p, r) := Return(cfg, w.p, conn, createdAt, reusable, now);
    match r
    case Retired => w.(p := p, lent := Take(w.lent, conn), dead := w.dead + multiset{conn})
    case HandedOff(to, late) =>
      w.(p := p, minted := w.minted + 1,
         completed := w.completed + multiset{to.request}, lost := w.lost + Requests(late))
    case Parked(late) =>
      w.(p := p, lent := Take(w.lent, conn), completed := w.completed + Requests(late))
  }

  function KeeperStep(cfg: Config, w: World, e: KeeperEvent): World
    requires KeeperEnabled(cfg, w, e)
  {
    match e
    case HealthTake(now) =>
      var (p, taken) := TakeForHealth(cfg, w.p, now);
      (match taken
       case Some(pair) => w.(p := p, checking := w.checking + multiset{pair.0.conn})
       case None => w)
    case HealthEnd(item, alive, retire, expired) =>
      var (p, kept) := FinishHealth(w.p, item, alive, retire, expired);
      w.(p := p, checking := Take(w.checking, item.conn),
         dead := if kept then w.dead else w.dead + multiset{item.conn})
    case RefillStart =>
      w.(p := ReserveRefill(cfg, w.p),
         refilling := w.refilling + if w.p.closed then 0 else RefillNeed(cfg, w.p))
    case RefillEnd(need, count, now) =>
      var made := Made(w.nextConn, count, now);
      w.(p := FinishRefill(w.p, need, made), refilling := w.refilling - need,
         nextConn := w.nextConn + count,
         dead := if w.p.closed then w.dead + Conns(made) else w.dead)
  }

  function CloseStep(w: World, e: CloseEvent): World
    requires CloseEnabled(w, e)
  {
    match e
    case CloseStart =>
      var (p, ws) := BeginShutdown(w.p);
      w.(p := p, completed := w.completed + Requests(ws), closing := Moved(w.closing, 1, 0, 0))
    case CloseDrain =>
      w.(p := DrainPop(w.p), dead := w.dead + multiset{w.p.idle[0].conn}, closing := Moved(w.closing, -1, 1, 0))
    case CloseCount => w.(p := DrainCount(w.p), closing := Moved(w.closing, 1, -1, 0))
    case CloseDrained => w.(closing := Moved(w.closing, -1, 0, 1))
    case CloseEnd => w.(p := EndShutdown(w.p), closing := Moved(w.closing, 0, 0, -1))
  }

  function Moved(c: Closing, looping: int, popped: int, drained: int): Closing {
    Closing(c.looping + looping, c.popped + popped, c.drained + drained)
  }

  function Step(cfg: Config, w: World, e: Event): World
    requires Enabled(cfg, w, e)
  {
    match e
    case Sync(s) => SyncStep(cfg, w, s)
    case Async(a) => AsyncStep(cfg, w, a)
    case GiveBack(conn, createdAt, reusable, now) => ReturnStep(cfg, w, conn, createdAt, reusable, now)
    case Keeper(k) => KeeperStep(cfg, w, k)
    case Close(c) => CloseStep(w, c)
  }

  function Go(cfg: Config, w: World, e: Event): World {
    if Enabled(cfg, w, e) then Step(cfg, w, e) else w
  }

  /** The world after the events in order; a section that no thread is at is skipped. */
  function Run(cfg: Config, w: World, es: seq<Event>): World
    decreases |es|
  {
    if es == [] then w else Run(cfg, Go(cfg, w, es[0]), es[1..])
  }

  // ----- Invariant -----

  /** In how many places connection `k` is: parked, lent, being validated, closed. */
  function ConnPlaces(w: World, k: int): int {
    Conns(w.p.idle)[k] + w.lent[k] + w.checking[k] + w.dead[k]
  }

  /** In how many places request `k` is: queued, in a posted task, completed, lost. */
  function RequestPlaces(w: World, k: int): int {
    Requests(w.p.waiters)[k] + w.posted[k] + w.completed[k] + w.lost[k]
  }

  /** Each connection is in exactly one place, and so is each asynchronous request. */
  ghost predicate Placed(w: World) {
    && 0 <= w.nextConn && 0 <= w.nextRequest
    && (forall k :: ConnPlaces(w, k) == Tick(0 <= k < w.nextConn))
    && (forall k :: RequestPlaces(w, k) == Tick(0 <= k < w.nextRequest))
  }

  /** While the pool is open every slot is accounted for. */
  ghost predicate Slots(cfg: Config, w: World) {
    && w.p.borrowed == |w.lent|
    && 0 <= w.creating && 0 <= w.refilling
    && (!w.p.closed ==>
          && w.p.total == |w.p.idle| + |w.lent| + |w.checking| + w.creating + w.refilling
          && (cfg.pooled ==> w.p.total <= cfg.maxConn)
          && w.p.c.created - w.p.c.closed == |w.p.idle| + |w.lent| + |w.checking|)
    && (!cfg.pooled ==> w.p.idle == [] && w.checking == multiset{} && w.creating == 0
                        && w.refilling == 0 && w.p.waiters == [] && w.p.waiting == 0)
  }

  /** The published counters agree with each other. */
  ghost predicate Counted(cfg: Config, w: World) {
    && 0 <= w.p.waiting <= w.borrowing
    && (!w.p.closed && cfg.pooled ==>
          w.p.c.closed == w.p.c.validationFailures + w.p.c.lifetimeEvictions
                          + w.p.c.idleEvictions + w.p.c.invalidated)
    && (cfg.metrics ==>
          && w.p.c.successes + w.p.c.timeouts + w.borrowing + |w.p.waiters| + |w.posted|
             <= w.p.c.requests
          && w.p.c.successes == w.minted
          && w.p.borrowed <= w.p.c.maxBorrowed
          && (cfg.pooled ==> w.p.c.maxBorrowed <= cfg.maxConn))
  }

  ghost predicate Inv(cfg: Config, w: World) {
    && cfg.Normal() && Placed(w) && TicketsOrdered(w.p.waiters, w.p.nextTicket)
    && Slots(cfg, w) && Counted(cfg, w)
  }

  // ----- Places: what one step does to connection or request `k` -----

  /** `v` has the connections of `w` and the newly adopted ones: connection `k` is in as many
      places as before, and in one more exactly if it is new.  Likewise for requests. */
  ghost predicate PlacesKept(w: World, v: World, k: int) {
    && w.nextConn <= v.nextConn && w.nextRequest <= v.nextRequest
    && ConnPlaces(v, k) == ConnPlaces(w, k) + Tick(w.nextConn <= k < v.nextConn)
    && RequestPlaces(v, k) == RequestPlaces(w, k) + Tick(w.nextRequest <= k < v.nextRequest)
  }

  lemma TurnPlaces(cfg: Config, w: World, p: Pool, poll: Poll, requests: int, k: int)
    requires PollMeans(cfg, w.p, p, poll, requests)
    ensures PlacesKept(w, AfterTurn(cfg, w, p, poll), k)
  {
    ConnsPop(w.p.idle, k);
  }

  lemma StartPlaces(cfg: Config, w: World, zeroTimeout: bool, k: int)
    ensures PlacesKept(w, StartStep(cfg, w, zeroTimeout), k)
  {
    var (p, poll) := StartBorrow(cfg, w.p, zeroTimeout);
    StartBorrowMeans(cfg, w.p, zeroTimeout);
    TurnPlaces(cfg, w.(borrowing := w.borrowing + 1), p, poll, 1, k);
  }

  lemma AgainPlaces(cfg: Config, w: World, zeroTimeout: bool, k: int)
    ensures PlacesKept(w, TurnStep(cfg, w, zeroTimeout), k)
  {
    ConnsPop(w.p.idle, k);
  }

  /** A wait that did not time out ends in a further turn. */
  lemma WaitTurns(cfg: Config, w: World)
    ensures WaitStep(cfg, w, false) == TurnStep(cfg, w.(p := w.p.(waiting := w.p.waiting - 1)), false)
  {
  }

  lemma GiveUpPlaces(cfg: Config, w: World, k: int)
    ensures PlacesKept(w, WaitStep(cfg, w, true), k)
  {
  }

  lemma WaitPlaces(cfg: Config, w: World, timedOut: bool, k: int)
    ensures PlacesKept(w, WaitStep(cfg, w, timedOut), k)
  {
    if timedOut {
      GiveUpPlaces(cfg, w, k);
    } else {
      var u := w.(p := w.p.(waiting := w.p.waiting - 1));
      WaitTurns(cfg, w);
      AgainPlaces(cfg, u, false, k);
      assert ConnPlaces(u, k) == ConnPlaces(w, k) && RequestPlaces(u, k) == RequestPlaces(w, k);
    }
  }

  lemma DiscardPlaces(w: World, conn: int, expired: bool, k: int)
    requires conn in w.checking
    ensures PlacesKept(w, DiscardStep(w, conn, expired), k)
  {
  }

  lemma CheckDeadPlaces(cfg: Config, w: World, conn: int, expired: bool, zeroTimeout: bool, k: int)
    requires conn in w.checking
    ensures PlacesKept(w, CheckStep(cfg, w, conn, false, expired, zeroTimeout), k)
  {
    var u := DiscardStep(w, conn, expired);
    DiscardPlaces(w, conn, expired, k);
    AgainPlaces(cfg, u, zeroTimeout, k);
    assert CheckStep(cfg, w, conn, false, expired, zeroTimeout) == TurnStep(cfg, u, zeroTimeout);
  }

  lemma CheckAlivePlaces(cfg: Config, w: World, conn: int, expired: bool, zeroTimeout: bool, k: int)
    requires conn in w.checking
    ensures PlacesKept(w, CheckStep(cfg, w, conn, true, expired, zeroTimeout), k)
  {
  }

  lemma CreatePlaces(cfg: Config, w: World, connected: bool, k: int)
    ensures PlacesKept(w, CreateStep(cfg, w, connected), k)
  {
  }

  lemma UnpooledPlaces(cfg: Config, w: World, connected: bool, k: int)
    ensures PlacesKept(w, UnpooledStep(cfg, w, connected), k)
  {
  }

  lemma SyncPlaces(cfg: Config, w: World, e: SyncEvent, k: int)
    requires SyncEnabled(cfg, w, e)
    ensures PlacesKept(w, SyncStep(cfg, w, e), k)
  {
    match e
    case Start(zeroTimeout) => StartPlaces(cfg, w, zeroTimeout, k);
    case WaitEnd(timedOut) => WaitPlaces(cfg, w, timedOut, k);
    case CheckEnd(conn, alive, expired, zeroTimeout) =>
      if alive {
        CheckAlivePlaces(cfg, w, conn, expired, zeroTimeout, k);
      } else {
        CheckDeadPlaces(cfg, w, conn, expired, zeroTimeout, k);
      }
    case CreateEnd(connected) => CreatePlaces(cfg, w, connected, k);
    case UnpooledEnd(connected) => UnpooledPlaces(cfg, w, connected, k);
  }

  lemma AsyncTurnPlaces(cfg: Config, w: World, request: int, now: int, timeout: int, p: Pool, poll: AsyncPoll, k: int)
    requires AsyncMeans(cfg, w.p, request, now, timeout, p, poll)
    ensures var v := AfterAsyncTurn(w, request, p, poll);
            && v.nextConn == w.nextConn && v.nextRequest == w.nextRequest
            && ConnPlaces(v, k) == ConnPlaces(w, k)
            && RequestPlaces(v, k) == RequestPlaces(w, k) + Tick(k == request)
  {
    AsyncTurnConns(cfg, w, request, now, timeout, p, poll, k);
    AsyncTurnRequests(cfg, w, request, now, timeout, p, poll, k);
  }

  lemma AsyncTurnConns(cfg: Config, w: World, request: int, now: int, timeout: int, p: Pool, poll: AsyncPoll, k: int)
    requires AsyncMeans(cfg, w.p, request, now, timeout, p, poll)
    ensures ConnPlaces(AfterAsyncTurn(w, request, p, poll), k) == ConnPlaces(w, k)
  {
    ConnsPop(w.p.idle, k);
  }

  lemma AsyncTurnRequests(cfg: Config, w: World, request: int, now: int, timeout: int, p: Pool, poll: AsyncPoll, k: int)
    requires AsyncMeans(cfg, w.p, request, now, timeout, p, poll)
    ensures RequestPlaces(AfterAsyncTurn(w, request, p, poll), k) == RequestPlaces(w, k) + Tick(k == request)
  {
    if poll.AsyncQueued? {
      RequestsLast(p.waiters, k);
    }
  }

  lemma EnterPlaces(cfg: Config, w: World, request: int, now: int, timeout: int, k: int)
    ensures var v := EnterStep(cfg, w, request, now, timeout);
            && v.nextConn == w.nextConn && v.nextRequest == w.nextRequest
            && ConnPlaces(v, k) == ConnPlaces(w, k)
            && RequestPlaces(v, k) == RequestPlaces(w, k) + Tick(k == request)
  {
    var (p, poll) := StartAsync(cfg, w.p, request, now, timeout);
    StartAsyncMeans(cfg, w.p, request, now, timeout);
    AsyncTurnPlaces(cfg, w, request, now, timeout, p, poll, k);
  }

  lemma ExpirePlaces(cfg: Config, w: World, now: int, k: int)
    ensures PlacesKept(w, ExpireStep(cfg, w, now), k)
  {
    RequestsSplit(w.p.waiters, now, k);
  }

  lemma RequestStepPlaces(cfg: Config, w: World, now: int, timeout: int, k: int)
    ensures PlacesKept(w, RequestStep(cfg, w, now, timeout), k)
  {
    EnterPlaces(cfg, w, w.nextRequest, now, timeout, k);
  }

  lemma AgainStepPlaces(cfg: Config, w: World, request: int, now: int, timeout: int, k: int)
    requires request in w.posted
    ensures PlacesKept(w, AgainStep(cfg, w, request, now, timeout), k)
  {
    EnterPlaces(cfg, w.(posted := Take(w.posted, request)), request, now, timeout, k);
  }

  lemma CheckedPlaces(cfg: Config, w: World, request: int, conn: int, alive: bool, k: int)
    requires request in w.posted && conn in w.checking
    ensures PlacesKept(w, CheckedStep(cfg, w, request, conn, alive), k)
  {
  }

  lemma CreatedConns(cfg: Config, w: World, request: int, connected: bool, reserved: bool, k: int)
    ensures var v := CreatedStep(cfg, w, request, connected, reserved);
            && w.nextConn <= v.nextConn && v.nextRequest == w.nextRequest
            && ConnPlaces(v, k) == ConnPlaces(w, k) + Tick(w.nextConn <= k < v.nextConn)
  {
  }

  lemma CreatedRequests(cfg: Config, w: World, request: int, connected: bool, reserved: bool, k: int)
    requires request in w.posted
    ensures RequestPlaces(CreatedStep(cfg, w, request, connected, reserved), k) == RequestPlaces(w, k)
  {
  }

  lemma CreatedPlaces(cfg: Config, w: World, request: int, connected: bool, reserved: bool, k: int)
    requires request in w.posted
    ensures PlacesKept(w, CreatedStep(cfg, w, request, connected, reserved), k)
  {
    CreatedConns(cfg, w, request, connected, reserved, k);
    CreatedRequests(cfg, w, request, connected, reserved, k);
  }

  lemma AsyncPlaces(cfg: Config, w: World, e: AsyncEvent, k: int)
    requires AsyncEnabled(cfg, w, e)
    ensures PlacesKept(w, AsyncStep(cfg, w, e), k)
  {
    match e
    case Expire(now) => ExpirePlaces(cfg, w, now, k);
    case Request(now, timeout) => RequestStepPlaces(cfg, w, now, timeout, k);
    case Again(request, now, timeout) => AgainStepPlaces(cfg, w, request, now, timeout, k);
    case Checked(request, conn, alive) => CheckedPlaces(cfg, w, request, conn, alive, k);
    case Dropped(_) =>
    case Created(request, connected, reserved) => CreatedPlaces(cfg, w, request, connected, reserved, k);
  }

  lemma ReturnPlaces(cfg: Config, w: World, conn: int, createdAt: int, reusable: bool, now: int, k: int)
    requires conn in w.lent
    ensures PlacesKept(w, ReturnStep(cfg, w, conn, createdAt, reusable, now), k)
  {
    RequestsSplit(w.p.waiters, now, k);
    RequestsPop(Live(w.p.waiters, now), k);
    ConnsPush(w.p.idle, Idle(conn, createdAt, now, 0), k);
  }

  lemma HealthEndPlaces(cfg: Config, w: World, e: KeeperEvent, k: int)
    requires e.HealthEnd? && KeeperEnabled(cfg, w, e)
    ensures PlacesKept(w, KeeperStep(cfg, w, e), k)
  {
    ConnsPush(w.p.idle, e.item, k);
  }

  lemma RefillEndPlaces(cfg: Config, w: World, e: KeeperEvent, k: int)
    requires e.RefillEnd? && KeeperEnabled(cfg, w, e)
    ensures PlacesKept(w, KeeperStep(cfg, w, e), k)
  {
    MadeCounts(w.nextConn, e.count, e.now, k);
    ConnsAppend(w.p.idle, Made(w.nextConn, e.count, e.now), k);
  }

  lemma KeeperPlaces(cfg: Config, w: World, e: KeeperEvent, k: int)
    requires KeeperEnabled(cfg, w, e)
    ensures PlacesKept(w, KeeperStep(cfg, w, e), k)
  {
    match e
    case HealthTake(_) => ConnsPop(w.p.idle, k);
    case HealthEnd(_, _, _, _) => HealthEndPlaces(cfg, w, e, k);
    case RefillStart =>
    case RefillEnd(_, _, _) => RefillEndPlaces(cfg, w, e, k);
  }

  lemma ClosePlaces(w: World, e: CloseEvent, k: int)
    requires CloseEnabled(w, e)
    ensures PlacesKept(w, CloseStep(w, e), k)
  {
    ConnsPop(w.p.idle, k);
    RequestsPop(w.p.waiters, k);
  }

  lemma StepPlaces(cfg: Config, w: World, e: Event, k: int)
    requires Enabled(cfg, w, e)
    ensures PlacesKept(w, Step(cfg, w, e), k)
  {
    match e
    case Sync(s) => SyncPlaces(cfg, w, s, k);
    case Async(a) => AsyncPlaces(cfg, w, a, k);
    case GiveBack(conn, createdAt, reusable, now) =>
      ReturnPlaces(cfg, w, conn, createdAt, reusable, now, k);
    case Keeper(s) => KeeperPlaces(cfg, w, s, k);
    case Close(c) => ClosePlaces(w, c, k);
  }

  lemma PlacedStep(cfg: Config, w: World, e: Event)
    requires Placed(w) && Enabled(cfg, w, e)
    ensures Placed(Step(cfg, w, e))
  {
    var v := Step(cfg, w, e);
    StepPlaces(cfg, w, e, 0);
    forall k ensures ConnPlaces(v, k) == Tick(0 <= k < v.nextConn)
                  && RequestPlaces(v, k) == Tick(0 <= k < v.nextRequest) {
      StepPlaces(cfg, w, e, k);
      assert ConnPlaces(w, k) == Tick(0 <= k < w.nextConn);
      assert RequestPlaces(w, k) == Tick(0 <= k < w.nextRequest);
    }
  }

  // ----- Tallies: the slot and counter equations -----

  ghost predicate Tallied(cfg: Config, w: World) {
    Slots(cfg, w) && Counted(cfg, w)
  }

  lemma TurnTallies(cfg: Config, w: World, p: Pool, poll: Poll, requests: int)
    requires Tallied(cfg, w) && PollMeans(cfg, w.p, p, poll, requests) && 0 <= requests <= 1
    requires requests == 0 ==> w.p.waiting < w.borrowing
    ensures Tallied(cfg, AfterTurn(cfg, w.(borrowing := w.borrowing + requests), p, poll))
  {
  }

  lemma StartTallies(cfg: Config, w: World, zeroTimeout: bool)
    requires Tallied(cfg, w)
    ensures Tallied(cfg, StartStep(cfg, w, zeroTimeout))
  {
    var (p, poll) := StartBorrow(cfg, w.p, zeroTimeout);
    StartBorrowMeans(cfg, w.p, zeroTimeout);
    TurnTallies(cfg, w, p, poll, 1);
  }

  lemma AgainTallies(cfg: Config, w: World, zeroTimeout: bool)
    requires cfg.pooled && w.p.waiting < w.borrowing && Tallied(cfg, w)
    ensures Tallied(cfg, TurnStep(cfg, w, zeroTimeout))
  {
    var (p, poll) := TurnBorrow(cfg, w.p, zeroTimeout);
    TurnBorrowMeans(cfg, w.p, zeroTimeout);
    TurnTallies(cfg, w, p, poll, 0);
  }

  lemma CheckTallies(cfg: Config, w: World, conn: int, alive: bool, expired: bool, zeroTimeout: bool)
    requires Tallied(cfg, w) && conn in w.checking && w.borrowing > w.p.waiting
    ensures Tallied(cfg, CheckStep(cfg, w, conn, alive, expired, zeroTimeout))
  {
    if !alive {
      assert Tallied(cfg, DiscardStep(w, conn, expired));
      AgainTallies(cfg, DiscardStep(w, conn, expired), zeroTimeout);
    }
  }

  lemma WaitTallies(cfg: Config, w: World, timedOut: bool)
    requires w.p.waiting > 0 && Tallied(cfg, w)
    ensures Tallied(cfg, WaitStep(cfg, w, timedOut))
  {
    if !timedOut {
      AgainTallies(cfg, w.(p := w.p.(waiting := w.p.waiting - 1)), false);
    }
  }

  lemma CreateTallies(cfg: Config, w: World, connected: bool)
    requires SyncEnabled(cfg, w, CreateEnd(connected)) && Tallied(cfg, w)
    ensures Tallied(cfg, CreateStep(cfg, w, connected))
  {
  }

  lemma UnpooledTallies(cfg: Config, w: World, connected: bool)
    requires SyncEnabled(cfg, w, UnpooledEnd(connected)) && Tallied(cfg, w)
    ensures Tallied(cfg, UnpooledStep(cfg, w, connected))
  {
  }

  lemma SyncTallies(cfg: Config, w: World, e: SyncEvent)
    requires SyncEnabled(cfg, w, e) && Tallied(cfg, w)
    ensures Tallied(cfg, SyncStep(cfg, w, e))
  {
    match e
    case Start(zeroTimeout) => StartTallies(cfg, w, zeroTimeout);
    case WaitEnd(timedOut) => WaitTallies(cfg, w, timedOut);
    case CheckEnd(conn, alive, expired, zeroTimeout) => CheckTallies(cfg, w, conn, alive, expired, zeroTimeout);
    case CreateEnd(connected) => CreateTallies(cfg, w, connected);
    case UnpooledEnd(connected) => UnpooledTallies(cfg, w, connected);
  }

  lemma AsyncTurnTallies(cfg: Config, w: World, request: int, now: int, timeout: int, p: Pool, poll: AsyncPoll)
    requires AsyncMeans(cfg, w.p, request, now, timeout, p, poll) && Tallied(cfg, w)
    ensures Tallied(cfg, AfterAsyncTurn(w, request, p, poll))
  {
  }

  lemma EnterTallies(cfg: Config, w: World, request: int, now: int, timeout: int)
    requires Tallied(cfg, w)
    ensures Tallied(cfg, EnterStep(cfg, w, request, now, timeout))
  {
    var (p, poll) := StartAsync(cfg, w.p, request, now, timeout);
    StartAsyncMeans(cfg, w.p, request, now, timeout);
    AsyncTurnTallies(cfg, w, request, now, timeout, p, poll);
  }

  lemma CheckedTallies(cfg: Config, w: World, request: int, conn: int, alive: bool)
    requires Tallied(cfg, w) && request in w.posted && conn in w.checking
    ensures Tallied(cfg, CheckedStep(cfg, w, request, conn, alive))
  {
  }

  lemma CreatedTallies(cfg: Config, w: World, request: int, connected: bool, reserved: bool)
    requires Tallied(cfg, w) && AsyncEnabled(cfg, w, Created(request, connected, reserved))
    ensures Tallied(cfg, CreatedStep(cfg, w, request, connected, reserved))
  {
  }

  lemma ExpireTallies(cfg: Config, w: World, now: int)
    requires Tallied(cfg, w)
    ensures Tallied(cfg, ExpireStep(cfg, w, now))
  {
    RequestsSplit(w.p.waiters, now, 0);
  }

  lemma RequestStepTallies(cfg: Config, w: World, now: int, timeout: int)
    requires Tallied(cfg, w)
    ensures Tallied(cfg, RequestStep(cfg, w, now, timeout))
  {
    EnterTallies(cfg, w, w.nextRequest, now, timeout);
  }

  lemma AgainStepTallies(cfg: Config, w: World, request: int, now: int, timeout: int)
    requires Tallied(cfg, w) && request in w.posted
    ensures Tallied(cfg, AgainStep(cfg, w, request, now, timeout))
  {
    EnterTallies(cfg, w.(posted := Take(w.posted, request)), request, now, timeout);
  }

  lemma AsyncTallies(cfg: Config, w: World, e: AsyncEvent)
    requires AsyncEnabled(cfg, w, e) && Tallied(cfg, w)
    ensures Tallied(cfg, AsyncStep(cfg, w, e))
  {
    match e
    case Expire(now) => ExpireTallies(cfg, w, now);
    case Request(now, timeout) => RequestStepTallies(cfg, w, now, timeout);
    case Again(request, now, timeout) => AgainStepTallies(cfg, w, request, now, timeout);
    case Checked(request, conn, alive) => CheckedTallies(cfg, w, request, conn, alive);
    case Dropped(_) =>
    case Created(request, connected, reserved) => CreatedTallies(cfg, w, request, connected, reserved);
  }

  lemma ReturnTallies(cfg: Config, w: World, conn: int, createdAt: int, reusable: bool, now: int)
    requires conn in w.lent && Tallied(cfg, w)
    ensures Tallied(cfg, ReturnStep(cfg, w, conn, createdAt, reusable, now))
  {
    ReturnSlots(cfg, w, conn, createdAt, reusable, now);
    ReturnCounted(cfg, w, conn, createdAt, reusable, now);
  }

  lemma ReturnSlots(cfg: Config, w: World, conn: int, createdAt: int, reusable: bool, now: int)
    requires conn in w.lent && Slots(cfg, w)
    ensures Slots(cfg, ReturnStep(cfg, w, conn, createdAt, reusable, now))
  {
  }

  predicate Retires(cfg: Config, p: Pool, createdAt: int, reusable: bool, now: int) {
    p.closed || Expired(cfg, createdAt, now) || !reusable || !cfg.pooled
  }

  lemma ReturnCounted(cfg: Config, w: World, conn: int, createdAt: int, reusable: bool, now: int)
    requires conn in w.lent && Tallied(cfg, w)
    ensures Counted(cfg, ReturnStep(cfg, w, conn, createdAt, reusable, now))
  {
    if Retires(cfg, w.p, createdAt, reusable, now) {
      RetireCounted(cfg, w, conn, createdAt, reusable, now);
    } else {
      ReuseCounted(cfg, w, conn, createdAt, now);
    }
  }

  lemma RetireCounted(cfg: Config, w: World, conn: int, createdAt: int, reusable: bool, now: int)
    requires conn in w.lent && Tallied(cfg, w) && Retires(cfg, w.p, createdAt, reusable, now)
    ensures Counted(cfg, ReturnStep(cfg, w, conn, createdAt, reusable, now))
  {
  }

  lemma ReuseCounted(cfg: Config, w: World, conn: int, createdAt: int, now: int)
    requires conn in w.lent && Tallied(cfg, w) && !Retires(cfg, w.p, createdAt, true, now)
    ensures Counted(cfg, ReturnStep(cfg, w, conn, createdAt, true, now))
  {
    RequestsSplit(w.p.waiters, now, 0);
  }

  lemma KeeperTallies(cfg: Config, w: World, e: KeeperEvent)
    requires cfg.Normal() && KeeperEnabled(cfg, w, e) && Tallied(cfg, w)
    ensures Tallied(cfg, KeeperStep(cfg, w, e))
  {
  }

  lemma CloseTallies(cfg: Config, w: World, e: CloseEvent)
    requires CloseEnabled(w, e) && Tallied(cfg, w)
    ensures Tallied(cfg, CloseStep(w, e))
  {
  }

  lemma TalliedStep(cfg: Config, w: World, e: Event)
    requires cfg.Normal() && Enabled(cfg, w, e) && Tallied(cfg, w)
    ensures Tallied(cfg, Step(cfg, w, e))
  {
    match e
    case Sync(s) => SyncTallies(cfg, w, s);
    case Async(a) => AsyncTallies(cfg, w, a);
    case GiveBack(conn, createdAt, reusable, now) =>
      ReturnTallies(cfg, w, conn, createdAt, reusable, now);
    case Keeper(s) => KeeperTallies(cfg, w, s);
    case Close(c) => CloseTallies(cfg, w, c);
  }

  // ----- Whole runs -----

  /** Nothing but a return loses a request, the waiter queue stays in order, and a closed
      pool stays closed, makes no handle and parks nothing. */
  ghost predicate Framed(w: World, v: World) {
    && v.lost == w.lost
    && (TicketsOrdered(w.p.waiters, w.p.nextTicket) ==> TicketsOrdered(v.p.waiters, v.p.nextTicket))
    && Wound(w, v)
  }

  ghost predicate Wound(w: World, v: World) {
    && v.closing == w.closing
    && (w.p.closed ==> v.p.closed && v.minted == w.minted && v.p.idle == w.p.idle)
  }

  /** A step that leaves the waiter queue alone. */
  ghost predicate QueueUntouched(w: World, v: World) {
    && v.lost == w.lost && v.p.waiters == w.p.waiters && v.p.nextTicket == w.p.nextTicket
    && Wound(w, v)
  }

  lemma TurnFramed(cfg: Config, w: World, zeroTimeout: bool)
    ensures QueueUntouched(w, TurnStep(cfg, w, zeroTimeout))
  {
  }

  lemma StartFramed(cfg: Config, w: World, zeroTimeout: bool)
    ensures QueueUntouched(w, StartStep(cfg, w, zeroTimeout))
  {
  }

  lemma WaitFramed(cfg: Config, w: World, timedOut: bool)
    ensures QueueUntouched(w, WaitStep(cfg, w, timedOut))
  {
    if !timedOut {
      TurnFramed(cfg, w.(p := w.p.(waiting := w.p.waiting - 1)), false);
    }
  }

  lemma CheckFramed(cfg: Config, w: World, conn: int, alive: bool, expired: bool, zeroTimeout: bool)
    ensures QueueUntouched(w, CheckStep(cfg, w, conn, alive, expired, zeroTimeout))
  {
    if !alive {
      TurnFramed(cfg, DiscardStep(w, conn, expired), zeroTimeout);
    }
  }

  lemma CreateFramed(cfg: Config, w: World, connected: bool)
    ensures QueueUntouched(w, CreateStep(cfg, w, connected))
    ensures QueueUntouched(w, UnpooledStep(cfg, w, connected))
  {
  }

  lemma SyncFramed(cfg: Config, w: World, e: SyncEvent)
    ensures QueueUntouched(w, SyncStep(cfg, w, e))
  {
    match e
    case Start(zeroTimeout) => StartFramed(cfg, w, zeroTimeout);
    case WaitEnd(timedOut) => WaitFramed(cfg, w, timedOut);
    case CheckEnd(conn, alive, expired, zeroTimeout) => CheckFramed(cfg, w, conn, alive, expired, zeroTimeout);
    case CreateEnd(connected) => CreateFramed(cfg, w, connected);
    case UnpooledEnd(connected) => CreateFramed(cfg, w, connected);
  }

  lemma EnterFramed(cfg: Config, w: World, request: int, now: int, timeout: int)
    ensures Framed(w, EnterStep(cfg, w, request, now, timeout))
  {
    StartAsyncMeans(cfg, w.p, request, now, timeout);
  }

  lemma AsyncFramed(cfg: Config, w: World, e: AsyncEvent)
    ensures Framed(w, AsyncStep(cfg, w, e))
  {
    match e
    case Expire(now) =>
      if TicketsOrdered(w.p.waiters, w.p.nextTicket) {
        LiveOrdered(w.p.waiters, now, w.p.nextTicket);
      }
    case Request(now, timeout) => EnterFramed(cfg, w, w.nextRequest, now, timeout);
    case Again(request, now, timeout) =>
      EnterFramed(cfg, w.(posted := Take(w.posted, request)), request, now, timeout);
    case _ =>
  }

  lemma ReturnTickets(cfg: Config, w: World, conn: int, createdAt: int, reusable: bool, now: int)
    requires TicketsOrdered(w.p.waiters, w.p.nextTicket)
    ensures var v := ReturnStep(cfg, w, conn, createdAt, reusable, now);
            TicketsOrdered(v.p.waiters, v.p.nextTicket)
  {
    LiveOrdered(w.p.waiters, now, w.p.nextTicket);
  }

  lemma KeeperFramed(cfg: Config, w: World, e: KeeperEvent)
    requires KeeperEnabled(cfg, w, e)
    ensures QueueUntouched(w, KeeperStep(cfg, w, e))
  {
  }

  lemma TicketsStep(cfg: Config, w: World, e: Event)
    requires TicketsOrdered(w.p.waiters, w.p.nextTicket) && Enabled(cfg, w, e)
    ensures TicketsOrdered(Step(cfg, w, e).p.waiters, Step(cfg, w, e).p.nextTicket)
  {
    match e
    case Sync(s) => SyncFramed(cfg, w, s);
    case Async(a) => AsyncFramed(cfg, w, a);
    case GiveBack(conn, createdAt, reusable, now) =>
      ReturnTickets(cfg, w, conn, createdAt, reusable, now);
    case Keeper(s) => KeeperFramed(cfg, w, s);
    case Close(_) =>
  }

  /** Every critical section keeps the invariant, whatever the other threads are doing. */
  lemma StepKeepsInv(cfg: Config, w: World, e: Event)
    requires Inv(cfg, w) && Enabled(cfg, w, e)
    ensures Inv(cfg, Step(cfg, w, e))
  {
    PlacedStep(cfg, w, e);
    TicketsStep(cfg, w, e);
    TalliedStep(cfg, w, e);
  }

  lemma {:induction false} RunKeepsInv(cfg: Config, w: World, es: seq<Event>)
    requires Inv(cfg, w)
    ensures Inv(cfg, Run(cfg, w, es))
    decreases |es|
  {
    if es != [] {
      if Enabled(cfg, w, es[0]) {
        StepKeepsInv(cfg, w, es[0]);
        RunKeepsInv(cfg, Step(cfg, w, es[0]), es[1..]);
      } else {
        RunKeepsInv(cfg, w, es[1..]);
      }
    }
  }

  /** The world right after a constructor whose warm-up connected `n` times. */
  function Warm(n: nat, now: int): World {
    Initial.(p := EmptyPool.(idle := Made(0, n, now), total := n, c := ZeroCounters.(created := n)),
             nextConn := n)
  }

  lemma WarmInv(cfg: Config, n: nat, now: int)
    requires cfg.Normal() && n <= if cfg.pooled then cfg.minConn else 0
    ensures Inv(cfg, Warm(n, now))
  {
    var w := Warm(n, now);
    forall k ensures ConnPlaces(w, k) == Tick(0 <= k < n) && RequestPlaces(w, k) == 0 {
      MadeCounts(0, n, now, k);
      RequestsPop([], k);
    }
  }

  /** The worlds a pool can reach from its constructor, under any schedule of its threads. */
  ghost predicate Reachable(cfg: Config, w: World) {
    exists n: nat, now: int, es: seq<Event> ::
      n <= (if cfg.pooled then cfg.minConn else 0) && w == Run(cfg, Warm(n, now), es)
  }

  lemma ReachableInv(cfg: Config, w: World)
    requires cfg.Normal() && Reachable(cfg, w)
    ensures Inv(cfg, w)
  {
    var n: nat, now: int, es: seq<Event> :|
      n <= (if cfg.pooled then cfg.minConn else 0) && w == Run(cfg, Warm(n, now), es);
    WarmInv(cfg, n, now);
    RunKeepsInv(cfg, Warm(n, now), es);
  }

  /** Slot conservation: an open pool's `total` is exactly the parked, lent and validating
      connections plus the reserved slots, never over the limit, and the lifetime counters
      differ by the connections that are still open.  So no decrement of `total` or
      `borrowed` in an open pool ever meets zero. */
  lemma SlotsConserved(cfg: Config, w: World)
    requires cfg.Normal() && Reachable(cfg, w) && !w.p.closed
    ensures w.p.total == |w.p.idle| + w.p.borrowed + |w.checking| + w.creating + w.refilling
    ensures cfg.pooled ==> w.p.total <= cfg.maxConn
    ensures w.p.c.created - w.p.c.closed == |w.p.idle| + w.p.borrowed + |w.checking|
    ensures cfg.pooled ==> w.p.c.closed == w.p.c.validationFailures + w.p.c.lifetimeEvictions
                                           + w.p.c.idleEvictions + w.p.c.invalidated
    ensures w.lent != multiset{} ==> w.p.borrowed > 0 && w.p.total > 0
    ensures w.checking != multiset{} || w.creating > 0 ==> w.p.total > 0
    ensures w.p.total >= w.refilling
  {
    ReachableInv(cfg, w);
  }

  /** No connection is ever lent twice at once, or lent while parked, validating or closed. */
  lemma LentExclusively(cfg: Config, w: World, conn: int)
    requires cfg.Normal() && Reachable(cfg, w) && conn in w.lent
    ensures w.lent[conn] == 1
    ensures conn !in Conns(w.p.idle) && conn !in w.checking && conn !in w.dead
  {
    ReachableInv(cfg, w);
    assert ConnPlaces(w, conn) <= 1;
  }

  /** Each asynchronous request is in exactly one place, so its completion is called at most
      once, and a request that is neither queued, posted nor lost has been completed. */
  lemma CompletedAtMostOnce(cfg: Config, w: World, request: int)
    requires cfg.Normal() && Reachable(cfg, w)
    ensures w.completed[request] <= 1
    ensures 0 <= request < w.nextRequest ==>
              (w.completed[request] == 1 <==>
                 request !in Requests(w.p.waiters) && request !in w.posted && request !in w.lost)
    ensures cfg.metrics ==>
              w.p.c.successes + w.p.c.timeouts + w.borrowing + |w.p.waiters| + |w.posted|
              <= w.p.c.requests
  {
    ReachableInv(cfg, w);
    assert RequestPlaces(w, request) == Tick(0 <= request < w.nextRequest);
  }

  /** A step loses a request only if one return both purges expired waiters and hands off;
      then it loses exactly the purged ones, and every other step loses none. */
  lemma LostOnlyByHandOff(cfg: Config, w: World, e: Event)
    requires Enabled(cfg, w, e)
    ensures Step(cfg, w, e).lost != w.lost <==>
              && e.GiveBack? && !w.p.closed && e.reusable && cfg.pooled
              && !Expired(cfg, e.createdAt, e.now)
              && (exists x :: x in w.p.waiters && x.deadline <= e.now)
              && (exists x :: x in w.p.waiters && e.now < x.deadline)
    ensures Step(cfg, w, e).lost != w.lost ==>
              Step(cfg, w, e).lost == w.lost + Requests(Late(w.p.waiters, e.now))
  {
    match e
    case GiveBack(conn, createdAt, reusable, now) => LostByReturn(cfg, w, conn, createdAt, reusable, now);
    case Sync(s) => SyncFramed(cfg, w, s);
    case Async(a) => AsyncFramed(cfg, w, a);
    case Keeper(s) => KeeperFramed(cfg, w, s);
    case Close(_) =>
  }

  lemma LostByReturn(cfg: Config, w: World, conn: int, createdAt: int, reusable: bool, now: int)
    ensures var v := ReturnStep(cfg, w, conn, createdAt, reusable, now);
            && (v.lost != w.lost <==>
                  && !w.p.closed && reusable && cfg.pooled && !Expired(cfg, createdAt, now)
                  && (exists x :: x in w.p.waiters && x.deadline <= now)
                  && (exists x :: x in w.p.waiters && now < x.deadline))
            && (v.lost != w.lost ==> v.lost == w.lost + Requests(Late(w.p.waiters, now)))
  {
    var late, live := Late(w.p.waiters, now), Live(w.p.waiters, now);
    HandOffWhen(cfg, w.p, conn, createdAt, reusable, now);
    NonEmptyWhen(w.p.waiters, now);
    assert |w.lost + Requests(late)| == |w.lost| + |late|;
  }

  lemma NonEmptyWhen(ws: seq<Waiter>, now: int)
    ensures Late(ws, now) != [] <==> exists x :: x in ws && x.deadline <= now
    ensures Live(ws, now) != [] <==> exists x :: x in ws && now < x.deadline
  {
    LiveSelects(ws, now);
    assert Late(ws, now) != [] ==> Late(ws, now)[0] in Late(ws, now);
    assert Live(ws, now) != [] ==> Live(ws, now)[0] in Live(ws, now);
  }

  /** The smallest run that loses a request: a borrower takes the only slot, two requests queue,
      one of them times out, and the return that serves the other drops it. */
  lemma LostWaiterExample()
    ensures exists cfg: Config, w: World, e: Event ::
              cfg.Normal() && Reachable(cfg, w) && Enabled(cfg, w, e) && Step(cfg, w, e).lost == multiset{0}
  {
    var cfg := Config(0, 1, 0, 0, 0, true, true);
    assert Warm(0, 0) == Run(cfg, Warm(0, 0), []);
    assert Reachable(cfg, Warm(0, 0));
    var w1 := Taken(cfg);
    var w2 := Queued(cfg, w1, 0, 1);
    var w3 := Queued(cfg, w2, 1, 9);
    LostPair(cfg, w3);
  }

  lemma {:induction false} RunSnoc(cfg: Config, w: World, es: seq<Event>, e: Event)
    ensures Run(cfg, w, es + [e]) == Go(cfg, Run(cfg, w, es), e)
    decreases |es|
  {
    if es == [] {
      assert Run(cfg, w, [e]) == Run(cfg, Go(cfg, w, e), [e][1..]);
    } else {
      assert (es + [e])[1..] == es[1..] + [e];
      RunSnoc(cfg, Go(cfg, w, es[0]), es[1..], e);
    }
  }

  lemma ReachableStep(cfg: Config, w: World, e: Event)
    requires Reachable(cfg, w) && Enabled(cfg, w, e)
    ensures Reachable(cfg, Step(cfg, w, e))
  {
    var n: nat, now: int, es: seq<Event> :|
      n <= (if cfg.pooled then cfg.minConn else 0) && w == Run(cfg, Warm(n, now), es);
    RunSnoc(cfg, Warm(n, now), es, e);
    assert Step(cfg, w, e) == Run(cfg, Warm(n, now), es + [e]);
  }

  /** A full pool of one connection, with nobody waiting yet. */
  ghost predicate Full(w: World) {
    && !w.p.closed && w.p.idle == [] && w.p.total == 1 && 0 in w.lent && w.lost == multiset{}
  }

  lemma Claimed(cfg: Config) returns (w: World)
    requires cfg == Config(0, 1, 0, 0, 0, true, true) && Reachable(cfg, Warm(0, 0))
    ensures Reachable(cfg, w) && w.creating == 1 && w.borrowing == 1 && w.nextConn == 0
    ensures w.p == EmptyPool.(total := 1, c := ZeroCounters.(requests := 1))
    ensures w.lost == multiset{} && w.nextRequest == 0
  {
    w := StartStep(cfg, Warm(0, 0), false);
    ReachableStep(cfg, Warm(0, 0), Sync(Start(false)));
  }

  lemma Taken(cfg: Config) returns (w: World)
    requires cfg == Config(0, 1, 0, 0, 0, true, true) && Reachable(cfg, Warm(0, 0))
    ensures Reachable(cfg, w) && Full(w)
    ensures w.p.waiters == [] && w.nextRequest == 0 && w.p.nextTicket == 0
  {
    var u := Claimed(cfg);
    w := CreateStep(cfg, u, true);
    ReachableStep(cfg, u, Sync(CreateEnd(true)));
  }

  lemma Queued(cfg: Config, w: World, n: nat, timeout: nat) returns (v: World)
    requires cfg == Config(0, 1, 0, 0, 0, true, true) && Reachable(cfg, w) && Full(w)
    requires w.nextRequest == n && w.p.nextTicket == n && timeout > 0
    ensures Reachable(cfg, v) && Full(v) && v.nextRequest == n + 1 && v.p.nextTicket == n + 1
    ensures v.p.waiters == w.p.waiters + [Waiter(n, n, 0, timeout)]
  {
    v := RequestStep(cfg, w, 0, timeout);
    ReachableStep(cfg, w, Async(Request(0, timeout)));
  }

  lemma LostPair(cfg: Config, w: World)
    requires cfg.pooled && cfg.maxLifetime == 0 && !w.p.closed && 0 in w.lent && w.lost == multiset{}
    requires w.p.waiters == [Waiter(0, 0, 0, 1), Waiter(1, 1, 0, 9)]
    ensures Step(cfg, w, GiveBack(0, 0, true, 5)).lost == multiset{0}
  {
    assert Late(w.p.waiters[1..], 5) == [];
    assert Late(w.p.waiters, 5) == [Waiter(0, 0, 0, 1)];
    assert RequestSeq(Late(w.p.waiters, 5)) == [0];
    assert w.p.waiters[1] in w.p.waiters && w.p.waiters[0] in w.p.waiters;
    LostOnlyByHandOff(cfg, w, GiveBack(0, 0, true, 5));
  }

  // ----- Closing -----

  lemma ReturnWound(cfg: Config, w: World, conn: int, createdAt: int, reusable: bool, now: int)
    ensures Wound(w, ReturnStep(cfg, w, conn, createdAt, reusable, now))
  {
  }

  /** After the close no step mints a handle or parks a connection; only draining changes the
      parked ones, by taking the oldest. */
  lemma CloseIsFinalStep(cfg: Config, w: World, e: Event)
    requires w.p.closed && Enabled(cfg, w, e)
    ensures var v := Step(cfg, w, e);
            && v.p.closed && v.minted == w.minted
            && v.p.idle == if e == Close(CloseDrain) then w.p.idle[1..] else w.p.idle
  {
    match e
    case Sync(s) => SyncFramed(cfg, w, s);
    case Async(a) => AsyncFramed(cfg, w, a);
    case GiveBack(conn, createdAt, reusable, now) =>
      ReturnWound(cfg, w, conn, createdAt, reusable, now);
    case Keeper(s) => KeeperFramed(cfg, w, s);
    case Close(_) =>
  }

  /** Closing is final over whole runs: no handle is ever minted again, what stays parked was
      parked before the close, and once drained the pool stays empty. */
  lemma {:induction false} CloseIsFinal(cfg: Config, w: World, es: seq<Event>)
    requires w.p.closed
    ensures var v := Run(cfg, w, es);
            && v.p.closed && v.minted == w.minted
            && |v.p.idle| <= |w.p.idle| && v.p.idle == w.p.idle[|w.p.idle| - |v.p.idle|..]
    decreases |es|
  {
    if es != [] {
      var u := Go(cfg, w, es[0]);
      if Enabled(cfg, w, es[0]) {
        CloseIsFinalStep(cfg, w, es[0]);
      }
      CloseIsFinal(cfg, u, es[1..]);
    }
  }

  /** Whoever is inside shutdown has closed the pool, and whoever is past the drain loop has
      emptied it. */
  ghost predicate ClosingKept(w: World) {
    && 0 <= w.closing.looping && 0 <= w.closing.popped && 0 <= w.closing.drained
    && (w.closing != Closing(0, 0, 0) ==> w.p.closed)
    && (w.closing.drained > 0 ==> w.p.idle == [])
  }

  lemma ClosingStep(cfg: Config, w: World, e: Event)
    requires ClosingKept(w) && Enabled(cfg, w, e)
    ensures ClosingKept(Step(cfg, w, e))
  {
    match e
    case Sync(s) => SyncFramed(cfg, w, s);
    case Async(a) => AsyncFramed(cfg, w, a);
    case GiveBack(conn, createdAt, reusable, now) =>
      ReturnWound(cfg, w, conn, createdAt, reusable, now);
    case Keeper(s) => KeeperFramed(cfg, w, s);
    case Close(_) =>
  }

  lemma {:induction false} ClosingRun(cfg: Config, w: World, es: seq<Event>)
    requires ClosingKept(w)
    ensures ClosingKept(Run(cfg, w, es))
    decreases |es|
  {
    if es != [] {
      if Enabled(cfg, w, es[0]) {
        ClosingStep(cfg, w, es[0]);
      }
      ClosingRun(cfg, Go(cfg, w, es[0]), es[1..]);
    }
  }

  /** From the end of a drain loop onward, through the end of that shutdown and whatever follows,
      no connection is parked and no handle is minted. */
  lemma DrainedForGood(cfg: Config, w: World, es: seq<Event>)
    requires Reachable(cfg, w) && w.closing.drained > 0
    ensures var v := Run(cfg, w, es); v.p.closed && v.p.idle == [] && v.minted == w.minted
  {
    var n: nat, now: int, before: seq<Event> :|
      n <= (if cfg.pooled then cfg.minConn else 0) && w == Run(cfg, Warm(n, now), before);
    ClosingRun(cfg, Warm(n, now), before);
    CloseIsFinal(cfg, w, es);
  }
}
