/** The thread-pool executor and the futures of the asynchronous client calls.  Posting, picking
    a task, running it, and the bookkeeping afterwards are separate events, so that any number
    of callers and workers interleave. */
module Executor {

  /** What a future is resolved with. */
  datatype Answer = Ran | TimedOut | Threw | Overloaded | NotRunning | Disabled

  /** A worker waits, runs a request's job, or has left its loop. */
  datatype Worker = Idle | Busy(task: nat, resolved: bool) | Exited

  /** `next` numbers the requests; `accepted` and `begun` record the accepted requests and those
      a worker has picked, in order. */
  datatype Pool = Pool(threads: nat, limit: nat, queue: seq<nat>, workers: seq<Worker>, started: bool,
                       stopping: bool, active: int, submitted: nat, completed: nat, rejected: nat,
                       next: nat, accepted: seq<nat>, begun: seq<nat>, futures: map<nat, Answer>)

  /** `hardware` is the host's thread count, which may be unknown (zero). */
  function New(threads: int, hardware: nat, queueSize: nat): Pool {
    var count := if threads > 0 then threads else hardware;
    Pool(if count == 0 then 1 else count, if queueSize > 0 then queueSize else 1,
         [], [], false, false, 0, 0, 0, 0, 0, [], [], map[])
  }

  // ----- The steps -----

  function EnsureStarted(p: Pool): Pool {
    if p.started then p else p.(started := true, workers := seq(p.threads, _ => Idle))
  }

  predicate TakesTask(p: Pool) { !p.stopping && |p.queue| < p.limit }

  function Enqueued(p: Pool): Pool {
    p.(queue := p.queue + [p.next], submitted := p.submitted + 1, accepted := p.accepted + [p.next])
  }

  function Rejected(p: Pool): Pool { if p.stopping then p else p.(rejected := p.rejected + 1) }

  /** `tryPost` for the next request. */
  function Post(p: Pool): Pool {
    if TakesTask(p) then Enqueued(EnsureStarted(p)) else Rejected(EnsureStarted(p))
  }

  /** A request whose source cannot be resolved, or that finds no executor, is answered at once. */
  function Refuse(p: Pool, answer: Answer): Pool {
    p.(futures := p.futures[p.next := answer], next := p.next + 1)
  }

  /** A request is posted, and answered at once if the executor does not take it. */
  function Submit(p: Pool): Pool {
    if TakesTask(p) then Advance(Post(p)) else Refuse(Post(p), Overloaded)
  }

  function Advance(p: Pool): Pool { p.(next := p.next + 1) }

  function Pick(p: Pool, w: nat): Pool
    requires w < |p.workers| && p.queue != []
  {
    p.(queue := p.queue[1..], workers := p.workers[w := Busy(p.queue[0], false)], active := p.active + 1,
       begun := p.begun + [p.queue[0]])
  }

  /** A job runs to its end, whatever its function does, and answers its request. */
  function Answered(p: Pool, w: nat, answer: Answer): Pool
    requires w < |p.workers| && p.workers[w].Busy?
  {
    var task := p.workers[w].task;
    p.(workers := p.workers[w := Busy(task, true)], futures := p.futures[task := answer])
  }

  function Complete(p: Pool, w: nat): Pool
    requires w < |p.workers|
  {
    p.(workers := p.workers[w := Idle], active := p.active - 1, completed := p.completed + 1)
  }

  function Leave(p: Pool, w: nat): Pool
    requires w < |p.workers|
  {
    p.(workers := p.workers[w := Exited])
  }

  function Stop(p: Pool): Pool { p.(stopping := true) }

  datatype Event =
    | Refused(answer: Answer)
    | Submitted
    | Picked(w: nat)
    | Running(w: nat, answer: Answer)
    | Completed(w: nat)
    | Left(w: nat)
    | Stopped

  predicate Enabled(p: Pool, e: Event) {
    match e
    case Refused(_) => true
    case Submitted => true
    case Picked(w) => w < |p.workers| && p.workers[w].Idle? && p.queue != []
    case Running(w, _) => w < |p.workers| && p.workers[w].Busy? && !p.workers[w].resolved
    case Completed(w) => w < |p.workers| && p.workers[w].Busy? && p.workers[w].resolved
    case Left(w) => w < |p.workers| && p.workers[w].Idle? && p.queue == [] && p.stopping
    case Stopped => true
  }

  function Step(p: Pool, e: Event): Pool
    requires Enabled(p, e)
  {
    match e
    case Refused(answer) => Refuse(p, answer)
    case Submitted => Submit(p)
    case Picked(w) => Pick(p, w)
    case Running(w, answer) => Answered(p, w, answer)
    case Completed(w) => Complete(p, w)
    case Left(w) => Leave(p, w)
    case Stopped => Stop(p)
  }

  // ----- The invariant -----

  function Weight(w: Worker): int { if w.Busy? then 1 else 0 }

  function BusyCount(ws: seq<Worker>): int { if ws == [] then 0 else Weight(ws[0]) + BusyCount(ws[1..]) }

  ghost predicate Ascending(xs: seq<nat>) { forall i, j | 0 <= i < j < |xs| :: xs[i] < xs[j] }

  /** The counters say what has happened to the accepted tasks. */
  ghost predicate Counted(p: Pool) {
    && p.threads > 0 && |p.queue| <= p.limit
    && p.accepted == p.begun + p.queue && p.submitted == |p.accepted|
    && p.active == BusyCount(p.workers) && |p.begun| == p.completed + p.active
  }

  /** Workers exist once started, and leave only when nothing is queued and nothing will be. */
  ghost predicate Staffed(p: Pool) {
    && (p.started ==> |p.workers| == p.threads)
    && (!p.started ==> p.workers == [] && p.queue == [])
    && (forall w | 0 <= w < |p.workers| && p.workers[w].Exited? :: p.stopping && p.queue == [])
  }

  ghost predicate Held(p: Pool, r: nat) {
    exists w :: 0 <= w < |p.workers| && p.workers[w] == Busy(r, false)
  }

  /** Every request is answered, or its task is queued or being run, and only one of these. */
  ghost predicate Promised(p: Pool) {
    && Ascending(p.accepted) && (forall r | r in p.accepted :: r < p.next)
    && (forall w | 0 <= w < |p.workers| && p.workers[w].Busy? :: p.workers[w].task in p.begun)
    && (forall v, w | 0 <= v < w < |p.workers| && p.workers[v].Busy? && p.workers[w].Busy? ::
          p.workers[v].task != p.workers[w].task)
    && (forall r: nat :: r in p.futures ==> r < p.next && r !in p.queue && !Held(p, r))
    && (forall r: nat :: r < p.next ==> r in p.futures || r in p.queue || Held(p, r))
  }

  ghost predicate Inv(p: Pool) { Counted(p) && Staffed(p) && Promised(p) }

  lemma {:induction false} BusyUpdate(ws: seq<Worker>, w: nat, x: Worker)
    requires w < |ws|
    ensures BusyCount(ws[w := x]) == BusyCount(ws) - Weight(ws[w]) + Weight(x)
  {
    var us := ws[w := x];
    if w > 0 {
      BusyUpdate(ws[1..], w - 1, x);
      assert us[1..] == ws[1..][w - 1 := x];
    } else {
      assert us[1..] == ws[1..];
    }
  }

  lemma {:induction false} IdleCount(n: nat)
    ensures BusyCount(seq(n, _ => Idle)) == 0
  {
    if n > 0 {
      IdleCount(n - 1);
      assert seq(n, _ => Idle)[1..] == seq(n - 1, _ => Idle);
    }
  }

  lemma EnsureStartedInv(p: Pool)
    requires Inv(p)
    ensures Inv(EnsureStarted(p)) && EnsureStarted(p).started
  {
    if !p.started {
      IdleCount(p.threads);
      assert forall r :: !Held(p, r) && !Held(EnsureStarted(p), r);
    }
  }

  lemma RefuseInv(p: Pool, answer: Answer)
    requires Inv(p)
    ensures Inv(Refuse(p, answer))
  {
    var q := Refuse(p, answer);
    assert forall r :: Held(p, r) ==> r in p.begun && r in p.accepted;
    assert forall r :: Held(q, r) <==> Held(p, r);
    assert forall r | r in p.queue :: r in p.accepted;
  }

  /** A started pool takes the next request into its queue. */
  lemma TakeInv(p: Pool)
    requires Inv(p) && p.started && TakesTask(p)
    ensures Inv(Advance(Enqueued(p)))
  {
    var q := Advance(Enqueued(p));
    assert q.accepted == q.begun + q.queue;
    assert forall r :: Held(q, r) <==> Held(p, r);
    assert forall r :: Held(p, r) ==> r in p.begun && r in p.accepted;
    assert forall r :: r in q.queue <==> r in p.queue || r == p.next;
    assert forall i | 0 <= i < |p.accepted| :: p.accepted[i] in p.accepted;
  }

  lemma RejectedInv(p: Pool)
    requires Inv(p)
    ensures Inv(Rejected(p))
  {
    assert forall r :: Held(Rejected(p), r) <==> Held(p, r);
  }

  lemma SubmitInv(p: Pool)
    requires Inv(p)
    ensures Inv(Submit(p))
  {
    EnsureStartedInv(p);
    if TakesTask(p) {
      TakeInv(EnsureStarted(p));
    } else {
      RejectedInv(EnsureStarted(p));
      RefuseInv(Post(p), Overloaded);
    }
  }

  /** Whom a worker's change concerns. */
  lemma HeldUpdate(p: Pool, q: Pool, w: nat, r: nat)
    requires w < |p.workers| && |q.workers| == |p.workers| && q.workers == p.workers[w := q.workers[w]]
    ensures Held(q, r) <==> q.workers[w] == Busy(r, false) || exists v :: 0 <= v < |p.workers| && v != w && p.workers[v] == Busy(r, false)
    ensures Held(p, r) <==> p.workers[w] == Busy(r, false) || exists v :: 0 <= v < |p.workers| && v != w && p.workers[v] == Busy(r, false)
  {
    if Held(q, r) {
      var v :| 0 <= v < |q.workers| && q.workers[v] == Busy(r, false);
      assert v == w || p.workers[v] == Busy(r, false);
    }
    if v :| 0 <= v < |p.workers| && v != w && p.workers[v] == Busy(r, false) {
      assert q.workers[v] == Busy(r, false);
    }
  }

  lemma PickCounted(p: Pool, w: nat)
    requires Inv(p) && Enabled(p, Picked(w))
    ensures Counted(Pick(p, w)) && Staffed(Pick(p, w))
  {
    var q := Pick(p, w);
    assert p.queue == [p.queue[0]] + p.queue[1..];
    assert q.begun + q.queue == p.begun + p.queue;
    BusyUpdate(p.workers, w, Busy(p.queue[0], false));
  }

  lemma PickPromised(p: Pool, w: nat)
    requires Inv(p) && Enabled(p, Picked(w))
    ensures Promised(Pick(p, w))
  {
    var q, task := Pick(p, w), p.queue[0];
    assert p.queue == [task] + p.queue[1..];
    assert task !in p.begun && task !in q.queue by {
      Separate(p.begun, p.queue);
    }
    assert forall r :: r in p.queue <==> r == task || r in q.queue;
    forall r: nat ensures Held(q, r) <==> r == task || Held(p, r) {
      HeldUpdate(p, q, w, r);
    }
  }

  lemma Separate(a: seq<nat>, b: seq<nat>)
    requires Ascending(a + b) && b != []
    ensures b[0] !in a && b[0] !in b[1..]
  {
    var s := a + b;
    assert s[|a|] == b[0];
    assert forall i | 0 <= i < |a| :: s[i] == a[i];
    assert forall i | 1 <= i < |b| :: s[|a| + i] == b[i];
  }

  lemma AnsweredInv(p: Pool, w: nat, answer: Answer)
    requires Inv(p) && Enabled(p, Running(w, answer))
    ensures Inv(Answered(p, w, answer))
    ensures p.workers[w].task !in p.futures
  {
    var q, task := Answered(p, w, answer), p.workers[w].task;
    BusyUpdate(p.workers, w, Busy(task, true));
    assert Held(p, task);
    assert task in p.accepted;
    forall r: nat ensures Held(q, r) <==> Held(p, r) && r != task {
      HeldUpdate(p, q, w, r);
    }
    BegunNotQueued(p, task);
  }

  lemma BegunNotQueued(p: Pool, task: nat)
    requires Counted(p) && Ascending(p.accepted) && task in p.begun
    ensures task !in p.queue
  {
    var i :| 0 <= i < |p.begun| && p.begun[i] == task;
    assert p.accepted[i] == task;
    assert forall k | 0 <= k < |p.queue| :: p.accepted[|p.begun| + k] == p.queue[k];
  }

  lemma CompleteInv(p: Pool, w: nat)
    requires Inv(p) && Enabled(p, Completed(w))
    ensures Inv(Complete(p, w))
  {
    var q := Complete(p, w);
    BusyUpdate(p.workers, w, Idle);
    forall r: nat ensures Held(q, r) <==> Held(p, r) {
      HeldUpdate(p, q, w, r);
    }
  }

  lemma LeaveInv(p: Pool, w: nat)
    requires Inv(p) && Enabled(p, Left(w))
    ensures Inv(Leave(p, w))
  {
    var q := Leave(p, w);
    BusyUpdate(p.workers, w, Exited);
    forall r: nat ensures Held(q, r) <==> Held(p, r) {
      HeldUpdate(p, q, w, r);
    }
  }

  lemma StopInv(p: Pool)
    requires Inv(p)
    ensures Inv(Stop(p))
  {
    assert forall r :: Held(Stop(p), r) <==> Held(p, r);
  }

  lemma StepInv(p: Pool, e: Event)
    requires Inv(p) && Enabled(p, e)
    ensures Inv(Step(p, e))
  {
    match e
    case Refused(answer) => RefuseInv(p, answer);
    case Submitted => SubmitInv(p);
    case Picked(w) => PickCounted(p, w); PickPromised(p, w);
    case Running(w, answer) => AnsweredInv(p, w, answer);
    case Completed(w) => CompleteInv(p, w);
    case Left(w) => LeaveInv(p, w);
    case Stopped => StopInv(p);
  }

  // ----- Runs -----

  ghost predicate Run(p: Pool, es: seq<Event>, q: Pool)
    decreases |es|
  {
    if es == [] then p == q else Enabled(p, es[0]) && Run(Step(p, es[0]), es[1..], q)
  }

  lemma {:induction false} RunInv(p: Pool, es: seq<Event>, q: Pool)
    requires Inv(p) && Run(p, es, q)
    ensures Inv(q)
    decreases |es|
  {
    if es != [] {
      StepInv(p, es[0]);
      RunInv(Step(p, es[0]), es[1..], q);
    }
  }

  ghost predicate Reachable(p: Pool) {
    exists threads, hardware, queueSize, es :: Run(New(threads, hardware, queueSize), es, p)
  }

  lemma ReachableInv(p: Pool)
    requires Reachable(p)
    ensures Inv(p)
  {
    var threads, hardware, queueSize, es :| Run(New(threads, hardware, queueSize), es, p);
    RunInv(New(threads, hardware, queueSize), es, p);
  }

  // ----- The theorems -----

  /** In every interleaving the counters balance, the queue is bounded, and tasks are begun once
      each, in the order in which they were accepted. */
  lemma CountersBalance(p: Pool)
    requires Reachable(p)
    ensures p.submitted == p.completed + p.active + |p.queue| && p.active >= 0 && |p.queue| <= p.limit
    ensures p.begun <= p.accepted && Ascending(p.accepted) && p.accepted == p.begun + p.queue
  {
    ReachableInv(p);
    BusyNonNegative(p.workers);
  }

  lemma {:induction false} BusyNonNegative(ws: seq<Worker>)
    ensures BusyCount(ws) >= 0
  {
    if ws != [] {
      BusyNonNegative(ws[1..]);
    }
  }

  /** A request is answered, queued or being run, and only one of these; answering never
      replaces an answer. */
  lemma AnsweredAtMostOnce(p: Pool, r: nat)
    requires Reachable(p)
    ensures r < p.next <==> r in p.futures || r in p.queue || Held(p, r)
    ensures r in p.futures ==> r !in p.queue && !Held(p, r)
    ensures r in p.queue ==> !Held(p, r)
  {
    ReachableInv(p);
    if r in p.queue {
      assert r in p.accepted;
    }
    if Held(p, r) {
      var w :| 0 <= w < |p.workers| && p.workers[w] == Busy(r, false);
      assert r in p.begun && r in p.accepted;
      BegunNotQueued(p, r);
    }
  }

  /** An answer, once given, stays as it is. */
  lemma AnswerIsFinal(p: Pool, e: Event, r: nat)
    requires Reachable(p) && Enabled(p, e) && r in p.futures
    ensures r in Step(p, e).futures && Step(p, e).futures[r] == p.futures[r]
  {
    ReachableInv(p);
    if e.Running? {
      AnsweredInv(p, e.w, e.answer);
    }
  }

  /** The threads asked for, or the host's, and at least one; a queue of at least one. */
  lemma NewCounts(threads: int, hardware: nat, queueSize: nat)
    ensures var p := New(threads, hardware, queueSize);
            && (threads > 0 ==> p.threads == threads) && (threads <= 0 && hardware > 0 ==> p.threads == hardware)
            && (threads <= 0 && hardware == 0 ==> p.threads == 1)
            && (queueSize > 0 ==> p.limit == queueSize) && (queueSize == 0 ==> p.limit == 1)
            && !p.started && !p.stopping && p.futures == map[]
  {
  }

  /** Which answer a step gives: a request refused at once gets its refusal, one that the queue does
      not take is overloaded, and a task answers its own request with what its function came to. */
  lemma AnswerGiven(p: Pool, e: Event)
    requires Enabled(p, e)
    ensures Step(p, e).rejected
            == p.rejected + (if e.Submitted? && !p.stopping && |p.queue| >= p.limit then 1 else 0)
    ensures var q := Step(p, e);
            match e
            case Refused(answer) => q.futures == p.futures[p.next := answer] && q.next == p.next + 1
            case Submitted =>
              && q.next == p.next + 1
              && (p.stopping || |p.queue| >= p.limit ==> q.futures == p.futures[p.next := Overloaded] && q.queue == p.queue)
              && (!p.stopping && |p.queue| < p.limit ==> q.futures == p.futures && q.queue == p.queue + [p.next])
            case Running(w, answer) => q.futures == p.futures[p.workers[w].task := answer]
            case _ => q.futures == p.futures
  {
  }

  ghost predicate AllExited(p: Pool) { forall w | 0 <= w < |p.workers| :: p.workers[w].Exited? }

  lemma {:induction false} ExitedCount(ws: seq<Worker>)
    requires forall w | 0 <= w < |ws| :: ws[w].Exited?
    ensures BusyCount(ws) == 0
  {
    if ws != [] {
      ExitedCount(ws[1..]);
    }
  }

  /** When shutdown has joined every worker, every accepted task has run and completed, and every
      request made so far has its answer. */
  lemma JoinedMeansAnswered(p: Pool, r: nat)
    requires Reachable(p) && p.stopping && AllExited(p)
    ensures p.queue == [] && p.begun == p.accepted && p.completed == p.submitted && p.active == 0
    ensures r < p.next <==> r in p.futures
  {
    ReachableInv(p);
    ExitedCount(p.workers);
    if p.started {
      assert p.workers[0].Exited?;
    }
    assert !Held(p, r);
    assert p.begun + [] == p.begun;
  }

  /** Posting to an executor that was stopped before it ever started still starts its workers,
      although the shutdown that could have joined them is over. */
  lemma LateStart(threads: int, hardware: nat, queueSize: nat)
    ensures var fresh_ := New(threads, hardware, queueSize);
            var p := Submit(Stop(fresh_));
            && Run(fresh_, [Stopped, Submitted], p) && AllExited(Stop(fresh_))
            && p.started && |p.workers| == p.threads > 0 && p.queue == [] && p.futures == map[0 := Overloaded]
  {
    var first := New(threads, hardware, queueSize);
    var p := Submit(Stop(first));
    assert [Stopped, Submitted][1..] == [Submitted] && [Submitted][1..] == [];
    assert Run(p, [], p);
    assert Run(Stop(first), [Submitted], p);
  }

  /** Workers appear only while none is running: a started executor never gets more. */
  lemma StartsOnce(p: Pool, e: Event)
    requires Reachable(p) && Enabled(p, e) && p.started
    ensures |Step(p, e).workers| == p.threads
  {
    ReachableInv(p);
  }

  /** A step of a stopped executor brings workers exactly if it never started and the step posts
      a request. */
  lemma GrowsWhenStopped(p: Pool, e: Event)
    requires Reachable(p) && Enabled(p, e) && p.stopping
    ensures |Step(p, e).workers| > |p.workers| <==> !p.started && e.Submitted?
  {
    ReachableInv(p);
  }

  ghost predicate Posts(es: seq<Event>) { exists i :: 0 <= i < |es| && es[i].Submitted? }

  lemma {:induction false} StoppedRun(p: Pool, es: seq<Event>, u: Pool)
    requires Inv(p) && p.stopping && Run(p, es, u)
    ensures Inv(u) && u.stopping && u.threads == p.threads && (u.started <==> p.started || Posts(es))
    decreases |es|
  {
    if es != [] {
      StepInv(p, es[0]);
      StoppedRun(Step(p, es[0]), es[1..], u);
      assert es == [es[0]] + es[1..];
      assert Posts(es) <==> es[0].Submitted? || Posts(es[1..]) by {
        assert forall i | 0 <= i < |es[1..]| :: es[1..][i] == es[i + 1];
      }
    }
  }

  /** The same over whole runs: a late start happens exactly if a request is posted to an executor
      that was stopped before it started, and then all its workers appear. */
  lemma LateStartWhen(p: Pool, es: seq<Event>, u: Pool)
    requires Reachable(p) && p.stopping && Run(p, es, u)
    ensures |u.workers| > |p.workers| <==> !p.started && Posts(es)
    ensures |u.workers| > |p.workers| ==> p.workers == [] && |u.workers| == p.threads
  {
    ReachableInv(p);
    StoppedRun(p, es, u);
  }

  // ----- The code -----

  class State {
    var threadCount: nat
    var queueLimit: nat
    var queue: seq<nat>
    var threadsStarted: bool
    var stopping: bool
    var active: int
    var submitted: nat
    var completed: nat
    var rejected: nat
    var next: nat
    var futures: map<nat, Answer>
    ghost var workers: seq<Worker>
    ghost var accepted: seq<nat>
    ghost var begun: seq<nat>

    ghost function View(): Pool
      reads this
    {
      Pool(threadCount, queueLimit, queue, workers, threadsStarted, stopping, active, submitted, completed,
           rejected, next, accepted, begun, futures)
    }

    constructor (threads: int, hardware: nat, queueSize: nat)
      ensures View() == New(threads, hardware, queueSize)
    {
      var count := if threads > 0 then threads else hardware;
      threadCount := if count == 0 then 1 else count;
      queueLimit := if queueSize > 0 then queueSize else 1;
      queue, threadsStarted, stopping := [], false, false;
      active, submitted, completed, rejected := 0, 0, 0, 0;
      next, futures := 0, map[];
      workers, accepted, begun := [], [], [];
    }

    method EnsureStartedLocked()
      modifies this`threadsStarted, this`workers
      ensures View() == EnsureStarted(old(View()))
    {
      if threadsStarted {
        return;
      }
      threadsStarted := true;
      workers := seq(threadCount, _ => Idle);
    }

    method TryPost() returns (ok: bool)
      modifies this`threadsStarted, this`workers, this`queue, this`submitted, this`rejected, this`accepted
      ensures View() == Post(old(View())) && ok == TakesTask(old(View()))
    {
      EnsureStartedLocked();
      if stopping {
        return false;
      }
      if |queue| >= queueLimit {
        rejected := rejected + 1;
        return false;
      }
      queue := queue + [next];
      submitted := submitted + 1;
      accepted := accepted + [next];
      return true;
    }

    /** `running` and `enabled` are what the client's checks before posting found. */
    method SubmitAsync(running: bool, enabled: bool) returns (future: nat)
      modifies this`threadsStarted, this`workers, this`queue, this`submitted, this`rejected, this`accepted,
               this`next, this`futures
      ensures future == old(next)
      ensures View() == if !running then Refuse(old(View()), NotRunning)
                        else if !enabled then Refuse(old(View()), Disabled)
                        else Submit(old(View()))
    {
      future := next;
      if !running {
        futures, next := futures[future := NotRunning], next + 1;
        return;
      }
      if !enabled {
        futures, next := futures[future := Disabled], next + 1;
        return;
      }
      var ok := TryPost();
      if !ok {
        futures := futures[future := Overloaded];
      }
      next := next + 1;
    }

    /** A worker's turn under the lock: a task, or the end of its loop. */
    method NextTask(ghost w: nat) returns (task: nat, leave: bool)
      requires w < |workers| && workers[w].Idle? && (stopping || queue != [])
      modifies this`queue, this`active, this`workers, this`begun
      ensures leave == (old(queue) == [])
      ensures View() == if leave then Leave(old(View()), w) else Pick(old(View()), w)
      ensures !leave ==> task == old(queue)[0]
    {
      if queue == [] {
        workers := workers[w := Exited];
        return 0, true;
      }
      task, leave := queue[0], false;
      queue := queue[1..];
      active := active + 1;
      workers := workers[w := Busy(task, false)];
      begun := begun + [task];
    }

    /** A job's own end: an exception or an overrun becomes an answer as well. */
    method RunTask(ghost w: nat, task: nat, threw: bool, overran: bool) returns (answer: Answer)
      requires w < |workers| && workers[w] == Busy(task, false)
      modifies this`futures, this`workers
      ensures View() == Answered(old(View()), w, answer)
      ensures answer == if overran then TimedOut else if threw then Threw else Ran
    {
      answer := Ran;
      if threw {
        answer := Threw;
      }
      if overran {
        answer := TimedOut;
      }
      futures := futures[task := answer];
      workers := workers[w := Busy(task, true)];
    }

    method TaskDone(ghost w: nat)
      requires w < |workers|
      modifies this`active, this`completed, this`workers
      ensures View() == Complete(old(View()), w)
    {
      active := active - 1;
      completed := completed + 1;
      workers := workers[w := Idle];
    }

    /** The locked part of shutdown; a second call has nothing to join. */
    method BeginShutdown() returns (first: bool)
      modifies this`stopping
      ensures View() == Stop(old(View())) && first == !old(stopping)
    {
      first := !stopping;
      stopping := true;
    }
  }
}
