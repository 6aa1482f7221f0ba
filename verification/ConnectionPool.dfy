/** The pool's shared state, updated in place by its critical sections.  Each method is one
    region that holds the mutex, and is proved to be the function of the same purpose in
    `PoolModel`, so the results of `PoolRuns` are about these methods. */
module ConnectionPool {
  import opened Wrappers
  import opened PoolModel
  import opened Text

  class State {
    const cfg: Config
    var total: int
    var borrowed: int
    var waiting: int
    var closed: bool
    var idle: seq<Idle>
    var asyncWaiters: seq<Waiter>
    var nextTicket: nat
    var connectionsCreated: int
    var connectionsClosed: int
    var borrowRequests: int
    var borrowSuccesses: int
    var borrowTimeouts: int
    var connectionCreateFailures: int
    var validationFailures: int
    var lifetimeEvictions: int
    var idleEvictions: int
    var invalidatedConnections: int
    var maxBorrowed: int

    function View(): Pool
      reads this
    {
      Pool(total, borrowed, waiting, closed, idle, asyncWaiters, nextTicket,
           Counters(connectionsCreated, connectionsClosed, borrowRequests, borrowSuccesses,
                    borrowTimeouts, connectionCreateFailures, validationFailures,
                    lifetimeEvictions, idleEvictions, invalidatedConnections, maxBorrowed))
    }

    /** Warms the pool up: connects until `minConn` connections are parked or one attempt
        fails.  `connects(i)` is the outcome of the i-th attempt. */
    constructor (minConn: int, maxConn: int, idleTimeout: int, maxLifetime: int,
                 validationInterval: int, metrics: bool, pooled: bool,
                 connects: nat -> bool, now: int)
      ensures cfg == Normalize(minConn, maxConn, idleTimeout, maxLifetime, validationInterval, metrics, pooled)
      ensures |idle| <= if pooled then cfg.minConn else 0
      ensures View() == EmptyPool.(
                total := |idle|, idle := Made(0, |idle|, now),
                c := ZeroCounters.(created := |idle|, createFailures := Tick(pooled && |idle| < cfg.minConn)))
      ensures (forall i | 0 <= i < |idle| :: connects(i))
      ensures pooled && |idle| < cfg.minConn ==> !connects(|idle|)
    {
      var c := Normalize(minConn, maxConn, idleTimeout, maxLifetime, validationInterval, metrics, pooled);
      cfg := c;
      total, borrowed, waiting, closed := 0, 0, 0, false;
      idle, asyncWaiters, nextTicket := [], [], 0;
      connectionsCreated, connectionsClosed := 0, 0;
      borrowRequests, borrowSuccesses, borrowTimeouts := 0, 0, 0;
      connectionCreateFailures, validationFailures := 0, 0;
      lifetimeEvictions, idleEvictions, invalidatedConnections, maxBorrowed := 0, 0, 0, 0;
      new;
      var i := 0;
      while pooled && i < cfg.minConn
        invariant 0 <= i == |idle| == total == connectionsCreated
        invariant i <= if pooled then cfg.minConn else 0
        invariant idle == Made(0, i, now)
        invariant forall j | 0 <= j < i :: connects(j)
        invariant View() == EmptyPool.(total := i, idle := idle, c := ZeroCounters.(created := i))
      {
        if !connects(i) {
          connectionCreateFailures := connectionCreateFailures + 1;
          break;
        }
        idle := idle + [Idle(i, now, now, 0)];
        total := total + 1;
        connectionsCreated := connectionsCreated + 1;
        i := i + 1;
      }
    }

    /** `recordSuccess` and its copies. */
    method RecordSuccess()
      modifies this
      ensures View() == Succeed(cfg, old(View()))
    {
      if cfg.metrics {
        borrowSuccesses := borrowSuccesses + 1;
        maxBorrowed := Max(maxBorrowed, borrowed);
      }
    }

    /** Completes the waiters whose deadline has passed and keeps the others in order. */
    method PurgeWaiters(now: int) returns (expired: seq<Waiter>)
      modifies this`asyncWaiters, this`borrowTimeouts
      ensures (View(), expired) == ExpireWaiters(cfg, old(View()), now)
    {
      expired := EraseLate(now);
    }

    method EraseLate(now: int) returns (expired: seq<Waiter>)
      modifies this`asyncWaiters, this`borrowTimeouts
      ensures asyncWaiters == Live(old(asyncWaiters), now) && expired == Late(old(asyncWaiters), now)
      ensures borrowTimeouts == old(borrowTimeouts) + if cfg.metrics then |expired| else 0
    {
      expired := [];
      var i := 0;
      ghost var was, rest := asyncWaiters, asyncWaiters;
      while i < |asyncWaiters|
        invariant i + |rest| == |asyncWaiters| && asyncWaiters[i..] == rest
        invariant Live(was, now) == asyncWaiters[..i] + Live(rest, now)
        invariant Late(was, now) == expired + Late(rest, now)
        invariant borrowTimeouts == old(borrowTimeouts) + if cfg.metrics then |expired| else 0
        decreases |rest|
      {
        var w := asyncWaiters[i];
        ghost var kept := asyncWaiters[..i];
        PurgeStep(asyncWaiters, i, rest, now);
        if w.deadline <= now {
          if cfg.metrics {
            borrowTimeouts := borrowTimeouts + 1;
          }
          Assoc(expired, [w], Late(rest[1..], now));
          expired := expired + [w];
          asyncWaiters := asyncWaiters[..i] + asyncWaiters[i + 1..];
        } else {
          Assoc(kept, [w], Live(rest[1..], now));
          i := i + 1;
        }
        rest := rest[1..];
      }
      assert asyncWaiters[..i] == asyncWaiters;
      assert expired + Late(rest, now) == expired && asyncWaiters + Live(rest, now) == asyncWaiters;
    }

    method Turn(zeroTimeout: bool) returns (poll: Poll)
      modifies this
      ensures (View(), poll) == TurnBorrow(cfg, old(View()), zeroTimeout)
    {
      if closed {
        poll := PollClosed;
      } else if idle != [] {
        poll := PollCheck(idle[0]);
        idle := idle[1..];
      } else if total < cfg.maxConn {
        total := total + 1;
        poll := PollCreate;
      } else if zeroTimeout {
        if cfg.metrics {
          borrowTimeouts := borrowTimeouts + 1;
        }
        poll := PollExhausted;
      } else {
        waiting := waiting + 1;
        poll := PollWait;
      }
    }

    method Borrow(zeroTimeout: bool) returns (poll: Poll)
      modifies this
      ensures (View(), poll) == StartBorrow(cfg, old(View()), zeroTimeout)
    {
      if cfg.metrics {
        borrowRequests := borrowRequests + 1;
      }
      if cfg.pooled {
        poll := Turn(zeroTimeout);
      } else if closed {
        poll := PollClosed;
      } else {
        poll := PollCreate;
      }
    }

    method WakeUp(timedOut: bool) returns (poll: Poll)
      modifies this
      ensures (View(), poll) == EndWait(cfg, old(View()), timedOut)
    {
      waiting := waiting - 1;
      if timedOut {
        if cfg.metrics {
          borrowTimeouts := borrowTimeouts + 1;
        }
        poll := PollExhausted;
      } else {
        poll := Turn(false);
      }
    }

    method Validated(alive: bool, expired: bool) returns (done: Option<bool>)
      modifies this
      ensures (View(), done) == FinishCheck(cfg, old(View()), alive, expired)
    {
      if alive {
        if closed {
          done := Some(false);
        } else {
          borrowed := borrowed + 1;
          RecordSuccess();
          done := Some(true);
        }
      } else {
        total := total - 1;
        connectionsClosed := connectionsClosed + 1;
        if expired {
          lifetimeEvictions := lifetimeEvictions + 1;
        } else {
          validationFailures := validationFailures + 1;
        }
        if total < 0 {
          total := 0;
        }
        done := None;
      }
    }

    method Connected(connected: bool) returns (lends: bool)
      modifies this
      ensures (View(), lends) == FinishCreate(cfg, old(View()), connected)
    {
      lends := connected && !closed;
      if lends {
        borrowed := borrowed + 1;
        connectionsCreated := connectionsCreated + 1;
        RecordSuccess();
      } else {
        total := total - 1;
        if !connected {
          connectionCreateFailures := connectionCreateFailures + 1;
          if total < 0 {
            total := 0;
          }
        }
      }
    }

    method ConnectedUnpooled(connected: bool) returns (lends: bool)
      modifies this
      ensures (View(), lends) == FinishUnpooled(cfg, old(View()), connected)
    {
      lends := connected && !closed;
      if !connected {
        connectionCreateFailures := connectionCreateFailures + 1;
      } else if !closed {
        total := total + 1;
        borrowed := borrowed + 1;
        connectionsCreated := connectionsCreated + 1;
        RecordSuccess();
      }
    }

    /** The asynchronous borrow's look at the oldest idle connection. */
    method TakeIdle(now: int) returns (poll: AsyncPoll)
      requires idle != []
      modifies this
      ensures var item := old(idle)[0];
              var r := old(View()).(idle := old(idle)[1..]);
              (View(), poll) ==
                if Expired(cfg, item.createdAt, now) then (DropExpired(r), AsyncRetry(item))
                else if !NeedsPing(cfg, item, now) then (Lend(cfg, r), AsyncLent(item))
                else (r, AsyncCheck(item))
    {
      var item := idle[0];
      idle := idle[1..];
      if Expired(cfg, item.createdAt, now) {
        total := total - 1;
        connectionsClosed := connectionsClosed + 1;
        lifetimeEvictions := lifetimeEvictions + 1;
        if total < 0 {
          total := 0;
        }
        poll := AsyncRetry(item);
      } else if !NeedsPing(cfg, item, now) {
        borrowed := borrowed + 1;
        RecordSuccess();
        poll := AsyncLent(item);
      } else {
        poll := AsyncCheck(item);
      }
    }

    method BorrowAsync(request: int, now: int, timeout: int) returns (poll: AsyncPoll)
      modifies this
      ensures (View(), poll) == StartAsync(cfg, old(View()), request, now, timeout)
    {
      if cfg.metrics {
        borrowRequests := borrowRequests + 1;
      }
      if closed {
        poll := AsyncClosed;
      } else if !cfg.pooled {
        poll := AsyncUnpooled;
      } else if idle != [] {
        poll := TakeIdle(now);
      } else if total < cfg.maxConn {
        total := total + 1;
        poll := AsyncCreate;
      } else if timeout == 0 {
        if cfg.metrics {
          borrowTimeouts := borrowTimeouts + 1;
        }
        poll := AsyncExhausted;
      } else {
        asyncWaiters := asyncWaiters + [Waiter(request, nextTicket, now, now + timeout)];
        nextTicket := nextTicket + 1;
        poll := AsyncQueued;
      }
    }

    method ValidatedAsync(alive: bool) returns (done: Option<bool>)
      modifies this
      ensures (View(), done) == FinishAsyncCheck(cfg, old(View()), alive)
    {
      done := None;
      if closed {
        done := Some(false);
      } else if alive {
        borrowed := borrowed + 1;
        RecordSuccess();
        done := Some(true);
      }
    }

    method DropAfterValidation()
      modifies this
      ensures View() == DropInvalid(old(View()))
    {
      total := total - 1;
      connectionsClosed := connectionsClosed + 1;
      validationFailures := validationFailures + 1;
      if total < 0 {
        total := 0;
      }
    }

    method ConnectedAsync(connected: bool, slotReserved: bool) returns (lends: bool)
      modifies this
      ensures (View(), lends) == FinishAsyncCreate(cfg, old(View()), connected, slotReserved)
    {
      lends := false;
      if closed {
        if slotReserved && total > 0 {
          total := total - 1;
        }
      } else if !connected {
        if slotReserved {
          total := total - 1;
          if total < 0 {
            total := 0;
          }
        }
        connectionCreateFailures := connectionCreateFailures + 1;
      } else {
        if !slotReserved {
          total := total + 1;
        }
        borrowed := borrowed + 1;
        connectionsCreated := connectionsCreated + 1;
        RecordSuccess();
        lends := true;
      }
    }

    /** A handle gives its connection back: to the longest-queued live waiter, to the idle
        queue, or to be closed. */
    method ReturnConn(conn: int, createdAt: int, reusable: bool, now: int) returns (r: Returned)
      modifies this
      ensures (View(), r) == Return(cfg, old(View()), conn, createdAt, reusable, now)
    {
      if borrowed > 0 {
        borrowed := borrowed - 1;
      }
      var expired := Expired(cfg, createdAt, now);
      if closed || expired || !reusable || !cfg.pooled {
        connectionsClosed := connectionsClosed + 1;
        if !reusable {
          invalidatedConnections := invalidatedConnections + 1;
        } else if expired {
          lifetimeEvictions := lifetimeEvictions + 1;
        }
        if total > 0 {
          total := total - 1;
        }
        r := Retired;
      } else {
        r := Reuse(conn, createdAt, now);
      }
    }

    /** Hands a good connection over or parks it. */
    method Reuse(conn: int, createdAt: int, now: int) returns (r: Returned)
      modifies this
      ensures var (p, late) := ExpireWaiters(cfg, old(View()), now);
              (View(), r) ==
                if p.waiters != [] then
                  (Lend(cfg, p.(waiters := p.waiters[1..])), HandedOff(p.waiters[0], late))
                else (p.(idle := p.idle + [Idle(conn, createdAt, now, 0)]), Parked(late))
    {
      var late := PurgeWaiters(now);
      if asyncWaiters != [] {
        r := HandedOff(asyncWaiters[0], late);
        asyncWaiters := asyncWaiters[1..];
        borrowed := borrowed + 1;
        RecordSuccess();
      } else {
        idle := idle + [Idle(conn, createdAt, now, 0)];
        r := Parked(late);
      }
    }

    method HealthPop(now: int) returns (taken: Option<(Idle, bool)>)
      modifies this
      ensures (View(), taken) == TakeForHealth(cfg, old(View()), now)
    {
      taken := None;
      if !closed && idle != [] {
        var item := idle[0];
        idle := idle[1..];
        taken := Some((item, cfg.idleTimeout > 0 && now - item.returnedAt >= cfg.idleTimeout
                             && total > cfg.minConn));
      }
    }

    method HealthPush(item: Idle, alive: bool, retire: bool, expired: bool) returns (kept: bool)
      modifies this
      ensures (View(), kept) == FinishHealth(old(View()), item, alive, retire, expired)
    {
      kept := alive && !closed;
      if kept {
        idle := idle + [item];
      } else {
        total := total - 1;
        connectionsClosed := connectionsClosed + 1;
        if retire {
          idleEvictions := idleEvictions + 1;
        } else if expired {
          lifetimeEvictions := lifetimeEvictions + 1;
        } else {
          validationFailures := validationFailures + 1;
        }
        if total < 0 {
          total := 0;
        }
      }
    }

    method RefillReserve() returns (need: int)
      modifies this
      ensures View() == ReserveRefill(cfg, old(View()))
      ensures need == if closed then 0 else RefillNeed(cfg, old(View()))
    {
      need := 0;
      if !closed {
        var want := cfg.minConn - total;
        var room := cfg.maxConn - total;
        need := Min(Max(want, 0), Max(room, 0));
        total := total + need;
      }
    }

    method RefillAdopt(need: nat, made: seq<Idle>)
      modifies this
      ensures View() == FinishRefill(old(View()), need, made)
    {
      total := total - (need - |made|);
      connectionsCreated := connectionsCreated + |made|;
      if total < 0 {
        total := 0;
      }
      var i := 0;
      while i < |made|
        invariant 0 <= i <= |made|
        invariant idle == if closed then old(idle) else old(idle) + made[..i]
        invariant View() == FinishRefill(old(View()), need, made).(idle := idle)
      {
        if !closed {
          idle := idle + [made[i]];
        }
        i := i + 1;
      }
      assert made[..i] == made;
    }

    method CloseSection() returns (waiters: seq<Waiter>)
      modifies this
      ensures (View(), waiters) == BeginShutdown(old(View()))
    {
      closed := true;
      waiters := asyncWaiters;
      asyncWaiters := [];
    }

    method DrainSection() returns (item: Idle)
      requires idle != []
      modifies this
      ensures View() == DrainPop(old(View())) && item == old(idle)[0]
    {
      item := idle[0];
      idle := idle[1..];
    }

    method DrainedSection()
      modifies this
      ensures View() == DrainCount(old(View()))
    {
      connectionsClosed := connectionsClosed + 1;
    }

    method FinishSection()
      modifies this
      ensures View() == EndShutdown(old(View()))
    {
      total := borrowed;
    }

    /** The whole shutdown when no other thread runs: every idle connection is drained, in
        order, and counted, and every waiter is handed back to be told. */
    method Shutdown() returns (waiters: seq<Waiter>, drained: seq<Idle>)
      modifies this
      ensures closed && idle == [] && asyncWaiters == [] && total == borrowed == old(borrowed)
      ensures waiters == old(asyncWaiters) && drained == old(idle)
      ensures connectionsClosed == old(connectionsClosed) + |drained|
    {
      waiters := CloseSection();
      drained := [];
      while idle != []
        invariant closed && asyncWaiters == [] && borrowed == old(borrowed)
        invariant drained + idle == old(idle)
        invariant connectionsClosed == old(connectionsClosed) + |drained|
        decreases |idle|
      {
        var item := DrainSection();
        drained := drained + [item];
        DrainedSection();
      }
      FinishSection();
    }
  }

  /** Erasing or passing the waiter at position `i`. */
  lemma PurgeStep(ws: seq<Waiter>, i: nat, rest: seq<Waiter>, now: int)
    requires i < |ws| && ws[i..] == rest
    ensures rest[0] == ws[i] && ws[i + 1..] == rest[1..] && ws[..i + 1] == ws[..i] + [ws[i]]
    ensures var erased := ws[..i] + ws[i + 1..]; erased[i..] == rest[1..] && erased[..i] == ws[..i]
  {
  }
}
