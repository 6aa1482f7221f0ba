/** Write dispatch over an ordered list of candidate primaries: on how many databases can one
    write be executed? */
module Failover {
  import opened Text

  datatype Code =
    | Ok | ConfigError | ConnectionFailed | QueryError | QueryTimeout | Cancelled
    | ConstraintViolation | Deadlock | PingFailed | TxError | PoolExhausted | PoolClosed
    | CircuitOpen | NotConnected | DriverDisabled | UnknownDriver | NotSupported | RateLimited
    | SqlBlocked | Buffered | Unknown

  datatype Status = Status(code: Code, sqlState: string, retryable: bool, broken: bool)

  function Plain(code: Code): Status { Status(code, "", false, false) }

  // ----- Statuses -----

  predicate InClass(sqlState: string, class_: string)
    requires |class_| == 2
  {
    |sqlState| >= 2 && sqlState[..2] == class_
  }

  /** The classification of a database error; `timeout` says that its message mentions one. */
  function DatabaseError(fallback: Code, timeout: bool, sqlState: string): Status {
    var status := Status(fallback, sqlState, false, false);
    if sqlState == "HYT00" || sqlState == "HYT01" then status.(code := QueryTimeout, retryable := true)
    else if sqlState == "57014" then
      if timeout then status.(code := QueryTimeout, retryable := true) else status.(code := Cancelled)
    else if sqlState == "HY008" then status.(code := Cancelled)
    else if InClass(sqlState, "40") then status.(code := Deadlock, retryable := true)
    else if InClass(sqlState, "23") then status.(code := ConstraintViolation)
    else if InClass(sqlState, "08") then
      Status(if fallback == QueryError || fallback == TxError then ConnectionFailed else fallback, sqlState, true, true)
    else status
  }

  predicate SafeToFailover(s: Status) {
    match s.code
    case ConnectionFailed => !s.broken && s.sqlState == ""
    case PoolExhausted => true
    case PoolClosed => true
    case CircuitOpen => true
    case DriverDisabled => true
    case _ => false
  }

  /** What a connected driver's execute can return: success, a classified database error, or a
      refusal of its own that reached no server state worth repeating elsewhere. */
  predicate FromDriver(s: Status) {
    || s.code == Ok
    || (exists fallback, timeout | fallback in {QueryError, TxError} :: s == DatabaseError(fallback, timeout, s.sqlState))
    || s.code in {QueryError, TxError, NotConnected, NotSupported, ConfigError, Cancelled}
  }

  /** Which states make a database error retryable, and which mark the connection as broken; the
      state is kept. */
  lemma DatabaseErrorWhen(fallback: Code, timeout: bool, sqlState: string)
    ensures var s := DatabaseError(fallback, timeout, sqlState);
            var timedOut := sqlState == "HYT00" || sqlState == "HYT01" || (sqlState == "57014" && timeout);
            var lost := InClass(sqlState, "08");
            && s.sqlState == sqlState && (s.broken <==> lost)
            && (s.retryable <==> timedOut || InClass(sqlState, "40") || lost)
            && (fallback == QueryError || fallback == TxError ==>
                && (s.code == QueryTimeout <==> timedOut)
                && (s.code == Cancelled <==> sqlState == "HY008" || (sqlState == "57014" && !timeout))
                && (s.code == Deadlock <==> InClass(sqlState, "40"))
                && (s.code == ConstraintViolation <==> InClass(sqlState, "23"))
                && (s.code == ConnectionFailed <==> lost)
                && (s.code == fallback <==> !timedOut && !lost && sqlState !in {"HY008", "57014"}
                                            && !InClass(sqlState, "40") && !InClass(sqlState, "23")))
  {
    ClassStart(sqlState, "08");
    ClassStart(sqlState, "23");
    ClassStart(sqlState, "40");
    assert "HYT00"[0] == "HYT01"[0] == "HY008"[0] == 'H' && "57014"[0] == '5';
  }

  /** A state belongs to the class that it starts with. */
  lemma InClassMeans(sqlState: string, class_: string)
    requires |class_| == 2
    ensures InClass(sqlState, class_) <==> class_ <= sqlState
  {
  }

  lemma ClassStart(sqlState: string, class_: string)
    requires |class_| == 2
    ensures InClass(sqlState, class_) ==> sqlState[0] == class_[0]
  {
    if InClass(sqlState, class_) {
      assert sqlState[..2][0] == sqlState[0];
    }
  }

  /** No failure of a driver allows another target. */
  lemma DriverFailuresStay(s: Status)
    requires FromDriver(s)
    ensures !SafeToFailover(s)
  {
  }

  /** What the pool reports when it lends nothing; a failed connect counts as a broken connection. */
  function BorrowFailure(code: Code): Status {
    if code == ConnectionFailed then Status(ConnectionFailed, "", true, true) else Plain(code)
  }

  /** Only a failed connect is reported as worth retrying, on a broken connection; no refusal of the
      pool or the gate carries a state. */
  lemma BorrowFailureWhen(code: Code)
    ensures var s := BorrowFailure(code);
            && s.code == code && s.sqlState == "" && (s.retryable <==> code == ConnectionFailed)
            && (s.broken <==> code == ConnectionFailed)
    ensures Outcome(GateClosed) == Status(CircuitOpen, "", false, false)
  {
  }

  // ----- One target -----

  /** What one attempt on a target meets. */
  datatype Attempt =
    | GateClosed
    | NotLent(code: Code)
    | Refused(refusal: Status)
    | Entered(answer: Status)

  function Outcome(a: Attempt): Status {
    match a
    case GateClosed => Plain(CircuitOpen)
    case NotLent(code) => BorrowFailure(code)
    case Refused(refusal) => refusal
    case Entered(answer) => answer
  }

  /** Attempts that the code can meet: the pool names a failure, and a session that refuses a
      statement does so with a status that is not about connections. */
  predicate Possible(a: Attempt) {
    match a
    case GateClosed => true
    case NotLent(code) => code != Ok
    case Refused(refusal) => refusal.code != Ok && !SafeToFailover(refusal)
    case Entered(answer) => FromDriver(answer)
  }

  datatype Idempotency = Unspecified | NonIdempotent | Idempotent

  datatype Retry = Retry(maxAttempts: int, retryWrites: bool)

  function ResolveWriteAttempts(idem: Idempotency, retry: Retry): (n: nat)
    ensures n >= 1
    ensures n == 1 <==> idem == NonIdempotent || retry.maxAttempts <= 1 || (idem == Unspecified && !retry.retryWrites)
    ensures n > 1 ==> n == retry.maxAttempts
  {
    var many := if retry.maxAttempts > 1 then retry.maxAttempts else 1;
    match idem
    case NonIdempotent => 1
    case Idempotent => many
    case Unspecified => if retry.retryWrites then many else 1
  }

  /** A plain data source: its retry settings, and what its attempts on a write meet, one after
      the other; after those its gate stays closed. */
  datatype Target = Target(retry: Retry, meets: seq<Attempt>) {
    function Meets(attempt: nat): Attempt { if attempt < |meets| then meets[attempt] else GateClosed }
  }

  predicate Sane(t: Target) { forall k | 0 <= k < |t.meets| :: Possible(t.meets[k]) }

  /** The status of a write and how often a driver's execute was entered for it. */
  datatype Tried = Tried(status: Status, entered: nat)

  function Count(a: Attempt): nat { if a.Entered? then 1 else 0 }

  /** A closed gate ends the attempts at once; other failures end them unless they can be retried. */
  predicate Ends(a: Attempt, attempt: nat, attempts: nat) {
    a.GateClosed? || Outcome(a).code == Ok || !Outcome(a).retryable || attempt + 1 == attempts
  }

  function TryFrom(t: Target, attempts: nat, attempt: nat): Tried
    requires attempt < attempts
    decreases attempts - attempt
  {
    var a := t.Meets(attempt);
    if Ends(a, attempt, attempts) then Tried(Outcome(a), Count(a))
    else
      var rest := TryFrom(t, attempts, attempt + 1);
      Tried(rest.status, Count(a) + rest.entered)
  }

  function Try(idem: Idempotency, t: Target): Tried {
    TryFrom(t, ResolveWriteAttempts(idem, t.retry), 0)
  }

  /** The attempt loop of a plain data source. */
  method ExecuteUngated(idem: Idempotency, t: Target) returns (r: Tried)
    ensures r == Try(idem, t)
  {
    var attempts := ResolveWriteAttempts(idem, t.retry);
    var entered := 0;
    var attempt := 0;
    while attempt < attempts
      invariant attempt < attempts
      invariant Try(idem, t) == Tried(TryFrom(t, attempts, attempt).status, entered + TryFrom(t, attempts, attempt).entered)
      decreases attempts - attempt
    {
      var a := t.Meets(attempt);
      if a.GateClosed? {
        return Tried(Plain(CircuitOpen), entered);
      }
      var status := Outcome(a);
      if a.Entered? {
        entered := entered + 1;
      }
      if status.code == Ok {
        return Tried(status, entered);
      }
      if !status.retryable || attempt + 1 == attempts {
        return Tried(status, entered);
      }
      attempt := attempt + 1;
    }
  }

  // ----- Dispatch -----

  /** A listed failover candidate: missing, circuit open, pool gone, or usable. */
  datatype Candidate = Candidate(missing: bool, circuitOpen: bool, poolGone: bool, target: Target)

  predicate Usable(c: Candidate, requireHealthy: bool) {
    !c.missing && !c.circuitOpen && !(requireHealthy && c.poolGone)
  }

  function UsableTargets(cs: seq<Candidate>, requireHealthy: bool): seq<Target> {
    if cs == [] then []
    else (if Usable(cs[0], requireHealthy) then [cs[0].target] else []) + UsableTargets(cs[1..], requireHealthy)
  }

  /** The usable candidates, in their order. */
  lemma {:induction false} UsableInOrder(a: seq<Candidate>, b: seq<Candidate>, requireHealthy: bool)
    ensures UsableTargets(a + b, requireHealthy) == UsableTargets(a, requireHealthy) + UsableTargets(b, requireHealthy)
    ensures forall c: Candidate :: UsableTargets([c], requireHealthy)
              == if c.missing || c.circuitOpen || (requireHealthy && c.poolGone) then [] else [c.target]
  {
    if a == [] {
      assert a + b == b;
    } else {
      assert (a + b)[1..] == a[1..] + b;
      UsableInOrder(a[1..], b, requireHealthy);
      Assoc(if Usable(a[0], requireHealthy) then [a[0].target] else [], UsableTargets(a[1..], requireHealthy),
            UsableTargets(b, requireHealthy));
    }
  }

  function WriteTargets(primary: Target, cs: seq<Candidate>, requireHealthy: bool): seq<Target> {
    if cs == [] then [primary] else UsableTargets(cs, requireHealthy)
  }

  /** Without failover candidates the primary is the only target.  With some, the targets are the usable
      ones, and if none is, the primary is not tried either. */
  lemma TargetsWhen(primary: Target, cs: seq<Candidate>, requireHealthy: bool)
    ensures cs == [] ==> WriteTargets(primary, cs, requireHealthy) == [primary]
    ensures cs != [] ==> forall t :: t in WriteTargets(primary, cs, requireHealthy) <==>
              exists c :: c in cs && Usable(c, requireHealthy) && c.target == t
  {
    UsableExactly(cs, requireHealthy);
  }

  lemma {:induction false} UsableExactly(cs: seq<Candidate>, requireHealthy: bool)
    ensures forall t :: t in UsableTargets(cs, requireHealthy) <==>
              exists c :: c in cs && Usable(c, requireHealthy) && c.target == t
  {
    if cs != [] {
      UsableExactly(cs[1..], requireHealthy);
      assert cs == [cs[0]] + cs[1..];
    }
  }

  method CollectTargets(primary: Target, cs: seq<Candidate>, requireHealthy: bool) returns (targets: seq<Target>)
    ensures targets == WriteTargets(primary, cs, requireHealthy)
  {
    if cs == [] {
      return [primary];
    }
    targets := [];
    for i := 0 to |cs|
      invariant targets + UsableTargets(cs[i..], requireHealthy) == UsableTargets(cs, requireHealthy)
    {
      assert cs[i..][1..] == cs[i + 1..];
      Assoc(targets, if Usable(cs[i], requireHealthy) then [cs[i].target] else [], UsableTargets(cs[i + 1..], requireHealthy));
      assert targets + [] == targets;
      if cs[i].missing {
        continue;
      }
      if cs[i].circuitOpen {
        continue;
      }
      if requireHealthy && cs[i].poolGone {
        continue;
      }
      targets := targets + [cs[i].target];
    }
  }

  /** How a write ended: its status, the positions of the targets whose driver was entered, and
      whether it went into the buffer. */
  datatype Dispatched = Dispatched(status: Status, reached: seq<nat>, buffered: bool)

  /** When the candidates are used up, the last status stands unless the buffer takes the write. */
  function Exhausted(last: Status, reached: seq<nat>, bufferTakes: bool): Dispatched {
    if bufferTakes then Dispatched(Plain(Buffered), reached, true) else Dispatched(last, reached, false)
  }

  function Reached(r: Tried, i: nat): seq<nat> { if r.entered > 0 then [i] else [] }

  function DispatchFrom(idem: Idempotency, targets: seq<Target>, i: nat, last: Status, reached: seq<nat>,
                        bufferTakes: bool): Dispatched
    requires i <= |targets|
    decreases |targets| - i
  {
    if i == |targets| then Exhausted(last, reached, bufferTakes)
    else
      var r := Try(idem, targets[i]);
      if r.status.code == Ok || !SafeToFailover(r.status) then Dispatched(r.status, reached + Reached(r, i), false)
      else DispatchFrom(idem, targets, i + 1, r.status, reached + Reached(r, i), bufferTakes)
  }

  const NoPrimary := Status(CircuitOpen, "", true, false)

  function Dispatch(idem: Idempotency, targets: seq<Target>, bufferTakes: bool): Dispatched {
    DispatchFrom(idem, targets, 0, NoPrimary, [], bufferTakes)
  }

  /** The loop over the targets. */
  method DispatchWrite(idem: Idempotency, targets: seq<Target>, bufferTakes: bool) returns (d: Dispatched)
    ensures d == Dispatch(idem, targets, bufferTakes)
  {
    var status := NoPrimary;
    var reached: seq<nat> := [];
    for i := 0 to |targets|
      invariant DispatchFrom(idem, targets, i, status, reached, bufferTakes) == Dispatch(idem, targets, bufferTakes)
    {
      var r := ExecuteUngated(idem, targets[i]);
      status := r.status;
      reached := reached + Reached(r, i);
      if status.code == Ok {
        return Dispatched(status, reached, false);
      }
      if !SafeToFailover(status) {
        return Dispatched(status, reached, false);
      }
    }
    if bufferTakes {
      return Dispatched(Plain(Buffered), reached, true);
    }
    return Dispatched(status, reached, false);
  }

  // ----- Where the attempts and the dispatch end -----

  /** An attempt after which another one is made: it failed in a way that can be retried, and the
      gate let it through. */
  predicate Retries(a: Attempt) { !a.GateClosed? && Outcome(a).code != Ok && Outcome(a).retryable }

  /** How often these attempts enter the driver. */
  function EnteredIn(t: Target, first: nat, count: nat): nat
    decreases count
  {
    if count == 0 then 0 else Count(t.Meets(first)) + EnteredIn(t, first + 1, count - 1)
  }

  lemma {:induction false} TriesFrom(t: Target, attempts: nat, attempt: nat, last: nat)
    requires attempt <= last < attempts && (Retries(t.Meets(last)) ==> last + 1 == attempts)
    requires forall k | attempt <= k < last :: Retries(t.Meets(k))
    ensures TryFrom(t, attempts, attempt) == Tried(Outcome(t.Meets(last)), EnteredIn(t, attempt, last + 1 - attempt))
    decreases last - attempt
  {
    if attempt < last {
      assert Retries(t.Meets(attempt));
      TriesFrom(t, attempts, attempt + 1, last);
    } else {
      assert EnteredIn(t, last + 1, 0) == 0;
    }
  }

  function LastAttempt(t: Target, attempts: nat, attempt: nat): (last: nat)
    requires attempt < attempts
    ensures attempt <= last < attempts && (Retries(t.Meets(last)) ==> last + 1 == attempts)
    ensures forall k | attempt <= k < last :: Retries(t.Meets(k))
    decreases attempts - attempt
  {
    if attempt + 1 == attempts || !Retries(t.Meets(attempt)) then attempt else LastAttempt(t, attempts, attempt + 1)
  }

  /** The attempts on a target end at the first one that succeeds, meets a closed gate or cannot be
      retried, or with the last one allowed; its status is the target's, and the driver was entered
      as often as an attempt up to there entered it. */
  lemma AttemptsEnd(idem: Idempotency, t: Target, last: nat)
    requires var attempts := ResolveWriteAttempts(idem, t.retry);
             last < attempts && (Retries(t.Meets(last)) ==> last + 1 == attempts)
    requires forall k | 0 <= k < last :: Retries(t.Meets(k))
    ensures Try(idem, t) == Tried(Outcome(t.Meets(last)), EnteredIn(t, 0, last + 1))
  {
    TriesFrom(t, ResolveWriteAttempts(idem, t.retry), 0, last);
  }

  /** There always is such an attempt. */
  lemma AttemptsEndSomewhere(idem: Idempotency, t: Target) returns (last: nat)
    ensures var attempts := ResolveWriteAttempts(idem, t.retry);
            last < attempts && (Retries(t.Meets(last)) ==> last + 1 == attempts)
    ensures forall k | 0 <= k < last :: Retries(t.Meets(k))
  {
    last := LastAttempt(t, ResolveWriteAttempts(idem, t.retry), 0);
  }

  /** The target refused the write in a way that lets it go on to the next. */
  predicate Refuses(idem: Idempotency, t: Target) {
    Try(idem, t).status.code != Ok && SafeToFailover(Try(idem, t).status)
  }

  function LastStatus(idem: Idempotency, targets: seq<Target>): Status {
    if targets == [] then NoPrimary else Try(idem, targets[|targets| - 1]).status
  }

  lemma {:induction false} EndsFrom(idem: Idempotency, targets: seq<Target>, i: nat, k: nat, last: Status,
                                    reached: seq<nat>, bufferTakes: bool)
    requires i <= k <= |targets| && (forall j | i <= j < k :: Refuses(idem, targets[j]))
    requires k < |targets| ==> !Refuses(idem, targets[k])
    requires last == if i == 0 then NoPrimary else Try(idem, targets[i - 1]).status
    ensures var d := DispatchFrom(idem, targets, i, last, reached, bufferTakes);
            && d.status == (if k < |targets| then Try(idem, targets[k]).status
                            else if bufferTakes then Plain(Buffered) else LastStatus(idem, targets))
            && d.buffered == (k == |targets| && bufferTakes)
    decreases k - i
  {
    if i < k {
      var r := Try(idem, targets[i]);
      EndsFrom(idem, targets, i + 1, k, r.status, reached + Reached(r, i), bufferTakes);
    }
  }

  lemma {:induction false} ReachesFrom(idem: Idempotency, targets: seq<Target>, i: nat, k: nat, last: Status,
                                       reached: seq<nat>, bufferTakes: bool, j: nat)
    requires i <= k <= |targets| && (forall j | i <= j < k :: Refuses(idem, targets[j]))
    requires k < |targets| ==> !Refuses(idem, targets[k])
    ensures j in DispatchFrom(idem, targets, i, last, reached, bufferTakes).reached
            <==> j in reached || (i <= j <= k && j < |targets| && Try(idem, targets[j]).entered > 0)
    decreases k - i
  {
    if i < k {
      var r := Try(idem, targets[i]);
      ReachesFrom(idem, targets, i + 1, k, r.status, reached + Reached(r, i), bufferTakes, j);
    }
  }

  /** A dispatch ends at the first target that does not refuse, with that target's answer; if all
      refuse, in the buffer or with the last refusal, or that there is none.  The databases reached
      are those of the targets up to there whose driver was entered. */
  lemma DispatchEnds(idem: Idempotency, targets: seq<Target>, k: nat, bufferTakes: bool)
    requires k <= |targets| && (forall j | 0 <= j < k :: Refuses(idem, targets[j]))
    requires k < |targets| ==> !Refuses(idem, targets[k])
    ensures var d := Dispatch(idem, targets, bufferTakes);
            && d.status == (if k < |targets| then Try(idem, targets[k]).status
                            else if bufferTakes then Plain(Buffered) else LastStatus(idem, targets))
            && d.buffered == (k == |targets| && bufferTakes)
            && forall j: nat :: j in d.reached <==> j <= k && j < |targets| && Try(idem, targets[j]).entered > 0
  {
    EndsFrom(idem, targets, 0, k, NoPrimary, [], bufferTakes);
    forall j: nat {
      ReachesFrom(idem, targets, 0, k, NoPrimary, [], bufferTakes, j);
    }
  }

  function FirstAnswer(idem: Idempotency, targets: seq<Target>, i: nat): (k: nat)
    requires i <= |targets|
    ensures i <= k <= |targets| && (k < |targets| ==> !Refuses(idem, targets[k]))
    ensures forall j | i <= j < k :: Refuses(idem, targets[j])
    decreases |targets| - i
  {
    if i == |targets| || !Refuses(idem, targets[i]) then i else FirstAnswer(idem, targets, i + 1)
  }

  /** A write succeeds exactly if some target accepts it and every earlier one refuses; it is
      buffered exactly if every target refuses and the buffer takes it. */
  lemma SucceedsWhen(idem: Idempotency, targets: seq<Target>, bufferTakes: bool)
    ensures var d := Dispatch(idem, targets, bufferTakes);
            && (d.status.code == Ok <==>
                  exists k :: 0 <= k < |targets| && Try(idem, targets[k]).status.code == Ok
                              && forall j | 0 <= j < k :: Refuses(idem, targets[j]))
            && (d.buffered <==> bufferTakes && forall t | t in targets :: Refuses(idem, t))
  {
    var k := FirstAnswer(idem, targets, 0);
    DispatchEnds(idem, targets, k, bufferTakes);
    if k < |targets| {
      assert targets[k] in targets;
    } else {
      assert forall t | t in targets :: Refuses(idem, t);
      assert targets != [] ==> Refuses(idem, targets[|targets| - 1]);
    }
    forall m | 0 <= m < |targets| && Try(idem, targets[m]).status.code == Ok && (forall j | 0 <= j < m :: Refuses(idem, targets[j]))
      ensures m == k
    {
      assert !Refuses(idem, targets[m]);
    }
  }

  // ----- Once -----

  /** At most one database's driver is entered, the caller gets that driver's answer, and the
      write is buffered only if none was entered. */
  ghost predicate AtMostOnce(idem: Idempotency, targets: seq<Target>, bufferTakes: bool) {
    var d := Dispatch(idem, targets, bufferTakes);
    && |d.reached| <= 1 && (d.buffered ==> d.reached == [])
    && (d.reached != [] ==> d.reached[0] < |targets| && d.status == Try(idem, targets[d.reached[0]]).status)
  }

  /** With one attempt, a target that was entered keeps the write. */
  lemma EnteredKeeps(idem: Idempotency, t: Target)
    requires Sane(t) && ResolveWriteAttempts(idem, t.retry) == 1
    ensures Try(idem, t).entered <= 1
    ensures Try(idem, t).entered == 1 ==> !SafeToFailover(Try(idem, t).status)
  {
    var a := t.Meets(0);
    if a.Entered? {
      assert Possible(t.meets[0]);
      DriverFailuresStay(a.answer);
    }
  }

  lemma {:induction false} ReachesOneFrom(idem: Idempotency, targets: seq<Target>, i: nat, last: Status, bufferTakes: bool)
    requires i <= |targets|
    requires forall t | t in targets :: Sane(t) && ResolveWriteAttempts(idem, t.retry) == 1
    ensures var d := DispatchFrom(idem, targets, i, last, [], bufferTakes);
            && |d.reached| <= 1 && (d.buffered ==> d.reached == [])
            && (d.reached != [] ==> d.reached[0] < |targets| && d.status == Try(idem, targets[d.reached[0]]).status)
    decreases |targets| - i
  {
    if i < |targets| {
      EnteredKeeps(idem, targets[i]);
      var r := Try(idem, targets[i]);
      assert [] + Reached(r, i) == Reached(r, i);
      if r.entered == 0 {
        ReachesOneFrom(idem, targets, i + 1, r.status, bufferTakes);
      }
    }
  }

  /** One attempt for every candidate is enough. */
  lemma ReachesAtMostOne(idem: Idempotency, targets: seq<Target>, bufferTakes: bool)
    requires forall t | t in targets :: Sane(t) && ResolveWriteAttempts(idem, t.retry) == 1
    ensures AtMostOnce(idem, targets, bufferTakes)
  {
    ReachesOneFrom(idem, targets, 0, NoPrimary, bufferTakes);
  }

  lemma {:induction false} UsableAmong(cs: seq<Candidate>, requireHealthy: bool)
    requires forall c | c in cs :: Sane(c.target)
    ensures forall t | t in UsableTargets(cs, requireHealthy) :: Sane(t)
  {
    if cs != [] {
      UsableAmong(cs[1..], requireHealthy);
      assert cs[0] in cs;
    }
  }

  /** A write declared not idempotent is never executed on two databases, whatever the retry
      settings of the candidates and however many of them are listed. */
  lemma NonIdempotentOnce(primary: Target, cs: seq<Candidate>, requireHealthy: bool, bufferTakes: bool)
    requires Sane(primary) && forall c | c in cs :: Sane(c.target)
    ensures AtMostOnce(NonIdempotent, WriteTargets(primary, cs, requireHealthy), bufferTakes)
  {
    UsableAmong(cs, requireHealthy);
    ReachesAtMostOne(NonIdempotent, WriteTargets(primary, cs, requireHealthy), bufferTakes);
  }

  // ----- More than once -----

  /** A deadlock is retried. */
  const Deadlocked := Status(Deadlock, "40001", true, false)

  lemma DeadlockedFromDriver()
    ensures FromDriver(Deadlocked) && Deadlocked.retryable && !SafeToFailover(Deadlocked)
  {
    assert Deadlocked == DatabaseError(QueryError, false, "40001");
  }

  /** A gate that closes between two attempts hides that the first one was entered. */
  function Hidden(retry: Retry): Target { Target(retry, [Entered(Deadlocked)]) }

  function Closed(retry: Retry): Target { Target(retry, []) }

  lemma HiddenTried(idem: Idempotency, retry: Retry)
    requires ResolveWriteAttempts(idem, retry) > 1
    ensures Sane(Hidden(retry)) && Try(idem, Hidden(retry)) == Tried(Plain(CircuitOpen), 1)
  {
    DeadlockedFromDriver();
    var t, n := Hidden(retry), ResolveWriteAttempts(idem, retry);
    assert t.Meets(0) == Entered(Deadlocked) && t.Meets(1) == GateClosed;
    assert TryFrom(t, n, 1) == Tried(Plain(CircuitOpen), 0);
  }

  function HiddenAt(retries: seq<Retry>, i: nat): seq<Target>
    requires i < |retries|
  {
    seq(|retries|, k requires 0 <= k < |retries| => if k == i then Hidden(retries[k]) else Closed(retries[k]))
  }

  /** What the target at position `k` reports. */
  lemma HiddenTurn(idem: Idempotency, retries: seq<Retry>, i: nat, k: nat)
    requires i < |retries| && ResolveWriteAttempts(idem, retries[i]) > 1 && k < |retries|
    ensures Try(idem, HiddenAt(retries, i)[k]) == Tried(Plain(CircuitOpen), if k == i then 1 else 0)
  {
    if k == i {
      HiddenTried(idem, retries[i]);
    }
  }

  function ReachedBefore(i: nat, k: nat): seq<nat> { if k <= i then [] else [i] }

  /** A target that lets the write move on. */
  lemma MovesOn(idem: Idempotency, targets: seq<Target>, k: nat, last: Status, reached: seq<nat>, bufferTakes: bool, r: Tried)
    requires k < |targets| && r == Try(idem, targets[k]) && r.status.code != Ok && SafeToFailover(r.status)
    ensures DispatchFrom(idem, targets, k, last, reached, bufferTakes)
            == DispatchFrom(idem, targets, k + 1, r.status, reached + Reached(r, k), bufferTakes)
  {
  }

  /** Every target's gate ends closed, and only the driver of target `i` was entered. */
  ghost predicate Hides(idem: Idempotency, targets: seq<Target>, i: nat) {
    i < |targets| && forall k | 0 <= k < |targets| :: Try(idem, targets[k]) == Tried(Plain(CircuitOpen), if k == i then 1 else 0)
  }

  lemma {:induction false} HiddenDispatch(idem: Idempotency, targets: seq<Target>, i: nat, k: nat, last: Status)
    requires Hides(idem, targets, i) && k <= |targets|
    ensures DispatchFrom(idem, targets, k, last, ReachedBefore(i, k), true) == Dispatched(Plain(Buffered), [i], true)
    decreases |targets| - k
  {
    if k < |targets| {
      var r := Tried(Plain(CircuitOpen), if k == i then 1 else 0);
      MovesOn(idem, targets, k, last, ReachedBefore(i, k), true, r);
      assert ReachedBefore(i, k) + Reached(r, k) == ReachedBefore(i, k + 1);
      HiddenDispatch(idem, targets, i, k + 1, r.status);
    }
  }

  /** What the candidates' settings must be: the guarantee holds for everything that can happen
      exactly if each candidate's attempts resolve to one. */
  lemma OnceExactly(idem: Idempotency, retries: seq<Retry>)
    ensures (forall targets, bufferTakes | Configured(targets, retries) :: AtMostOnce(idem, targets, bufferTakes))
            <==> forall i | 0 <= i < |retries| :: ResolveWriteAttempts(idem, retries[i]) == 1
  {
    if forall i | 0 <= i < |retries| :: ResolveWriteAttempts(idem, retries[i]) == 1 {
      forall targets, bufferTakes | Configured(targets, retries) ensures AtMostOnce(idem, targets, bufferTakes) {
        ReachesAtMostOne(idem, targets, bufferTakes);
      }
    } else {
      var i :| 0 <= i < |retries| && ResolveWriteAttempts(idem, retries[i]) != 1;
      var targets := HiddenAt(retries, i);
      HiddenTried(idem, retries[i]);
      forall k | 0 <= k < |targets| ensures Try(idem, targets[k]) == Tried(Plain(CircuitOpen), if k == i then 1 else 0) {
        HiddenTurn(idem, retries, i, k);
      }
      HiddenDispatch(idem, targets, i, 0, NoPrimary);
      assert Configured(targets, retries) && !AtMostOnce(idem, targets, true);
    }
  }

  ghost predicate Configured(targets: seq<Target>, retries: seq<Retry>) {
    |targets| == |retries| && forall i | 0 <= i < |targets| :: Sane(targets[i]) && targets[i].retry == retries[i]
  }

  /** With more attempts the write can even succeed on a second database after a first one
      executed it. */
  lemma TwoDatabases(idem: Idempotency, first: Retry, second: Retry)
    requires ResolveWriteAttempts(idem, first) > 1
    ensures Sane(Hidden(first)) && Sane(Accepting(second))
    ensures Dispatch(idem, [Hidden(first), Accepting(second)], true) == Dispatched(Plain(Ok), [0, 1], false)
  {
    var targets := [Hidden(first), Accepting(second)];
    HiddenTried(idem, first);
    AcceptingTried(idem, second);
    MovesOn(idem, targets, 0, NoPrimary, [], true, Tried(Plain(CircuitOpen), 1));
    assert [] + Reached(Tried(Plain(CircuitOpen), 1), 0) == [0] && [0] + [1] == [0, 1];
  }

  function Accepting(retry: Retry): Target { Target(retry, [Entered(Plain(Ok))]) }

  lemma AcceptingTried(idem: Idempotency, retry: Retry)
    ensures Sane(Accepting(retry)) && Try(idem, Accepting(retry)) == Tried(Plain(Ok), 1)
  {
    assert Accepting(retry).Meets(0) == Entered(Plain(Ok));
  }

  /** A pool that lends nothing, whatever the number of attempts: no driver is entered. */
  lemma {:induction false} NothingLent(t: Target, attempts: nat, attempt: nat, code: Code)
    requires attempt < attempts && code != Ok
    requires forall k | attempt <= k < attempts :: t.Meets(k) == NotLent(code)
    ensures TryFrom(t, attempts, attempt) == Tried(BorrowFailure(code), 0)
    decreases attempts - attempt
  {
    assert t.Meets(attempt) == NotLent(code);
    if !Ends(NotLent(code), attempt, attempts) {
      NothingLent(t, attempts, attempt + 1, code);
    }
  }

  ghost predicate LendsNothing(idem: Idempotency, t: Target, code: Code) {
    forall k | 0 <= k < ResolveWriteAttempts(idem, t.retry) :: t.Meets(k) == NotLent(code)
  }

  /** The failures of a pool that move a write on. */
  predicate Moves(code: Code) { code in {PoolExhausted, PoolClosed, CircuitOpen, DriverDisabled} }

  /** Where the pool of a target lends nothing, the write goes on to the next target exactly for
      these failures.  For any other the caller gets the failure, although later targets and the
      buffer may be available. */
  lemma WhereItGoes(idem: Idempotency, t: Target, code: Code, others: seq<Target>, bufferTakes: bool)
    requires LendsNothing(idem, t, code) && code != Ok
    ensures var d := Dispatch(idem, [t] + others, bufferTakes);
            d == if Moves(code) then DispatchFrom(idem, [t] + others, 1, Plain(code), [], bufferTakes)
                 else Dispatched(BorrowFailure(code), [], false)
  {
    NothingLent(t, ResolveWriteAttempts(idem, t.retry), 0, code);
    assert ([t] + others)[0] == t;
    assert [] + Reached(Tried(BorrowFailure(code), 0), 0) == [];
  }

  /** A failed connect counts as a broken connection, so it does not move the write on. */
  lemma FailedConnectStays(idem: Idempotency, t: Target, others: seq<Target>, bufferTakes: bool)
    requires LendsNothing(idem, t, ConnectionFailed)
    ensures Dispatch(idem, [t] + others, bufferTakes) == Dispatched(BorrowFailure(ConnectionFailed), [], false)
  {
    WhereItGoes(idem, t, ConnectionFailed, others, bufferTakes);
  }

  /** With a next target that can execute the write, it succeeds exactly for an exhausted or
      closed pool, an open circuit and a disabled driver. */
  lemma UnavailableMovesOn(idem: Idempotency, t: Target, code: Code, next: Target, others: seq<Target>, bufferTakes: bool)
    requires LendsNothing(idem, t, code) && code != Ok && Try(idem, next).status.code == Ok
    ensures Dispatch(idem, [t, next] + others, bufferTakes).status.code == Ok
            <==> Moves(code)
  {
    var targets := [t] + ([next] + others);
    assert targets == [t, next] + others && targets[1] == next;
    WhereItGoes(idem, t, code, [next] + others, bufferTakes);
  }
}
