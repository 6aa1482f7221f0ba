/** The volatile write buffer: writers enqueue while one worker flushes in passes.  Every step
    that takes the lock, and every item that the worker handles outside it, is one event. */
module WriteBuffer {

  datatype Config = Config(enabled: bool, maxQueue: int, ttl: int)

  function Normalize(cfg: Config): Config { if cfg.maxQueue < 1 then cfg.(maxQueue := 1) else cfg }

  /** An accepted write; tickets are handed out in the order of acceptance. */
  datatype Item = Item(ticket: nat, at: int)

  datatype Fate = Flushed | Expired | Failed | Overflowed | Abandoned

  /** Where the worker is in its loop. */
  datatype Phase = Absent | Waiting | Working(final: bool) | Closing | Gone

  datatype Buffer = Buffer(cfg: Config, q: seq<Item>, batch: seq<Item>, retry: seq<Item>, stop: bool,
                           running: bool, phase: Phase, accepted: nat, done: map<nat, Fate>)

  function New(cfg: Config): Buffer {
    Buffer(Normalize(cfg), [], [], [], false, false, Absent, 0, map[])
  }

  // ----- The steps -----

  predicate Accepts(b: Buffer) { b.cfg.enabled && !b.stop && b.running && |b.q| < b.cfg.maxQueue }

  function Enqueue(b: Buffer, now: int): Buffer {
    if Accepts(b) then b.(q := b.q + [Item(b.accepted, now)], accepted := b.accepted + 1) else b
  }

  function Start(b: Buffer): Buffer {
    if b.cfg.enabled && !b.running then b.(running := true, stop := false, phase := Waiting) else b
  }

  function RequestStop(b: Buffer): Buffer { if b.running then b.(stop := true) else b }

  /** After the worker has been joined. */
  function FinishStop(b: Buffer): Buffer { b.(running := false, phase := Absent) }

  /** The worker swaps the queue out; a pass that sees the stop flag is the last. */
  function Take(b: Buffer): Buffer { b.(batch := b.q, q := [], retry := [], phase := Working(b.stop)) }

  datatype Answer = Success | Transient | Permanent

  function Mark(done: map<nat, Fate>, item: Item, fate: Fate): map<nat, Fate> { done[item.ticket := fate] }

  function Handle(b: Buffer, now: int, answer: Answer): Buffer
    requires b.batch != [] && b.phase.Working?
  {
    var item := b.batch[0];
    var c := b.(batch := b.batch[1..]);
    if b.cfg.ttl > 0 && now - item.at > b.cfg.ttl then c.(done := Mark(b.done, item, Expired))
    else
      match answer
      case Success => c.(done := Mark(b.done, item, Flushed))
      case Transient =>
        if b.phase.final then c.(done := Mark(b.done, item, Failed)) else c.(retry := b.retry + [item])
      case Permanent => c.(done := Mark(b.done, item, Failed))
  }

  function Tickets(xs: seq<Item>): set<nat> { set i | 0 <= i < |xs| :: xs[i].ticket }

  function MarkAll(done: map<nat, Fate>, xs: seq<Item>, fate: Fate): map<nat, Fate>
    decreases |xs|
  {
    if xs == [] then done else MarkAll(Mark(done, xs[0], fate), xs[1..], fate)
  }

  function Min(a: nat, b: nat): nat { if a <= b then a else b }

  function Room(b: Buffer): nat { if b.cfg.maxQueue < 0 then 0 else b.cfg.maxQueue }

  /** Writes to retry go back in front of the new ones; what does not fit is dropped. */
  function Merge(b: Buffer): Buffer
    requires b.phase.Working?
  {
    var all := b.retry + b.q;
    var kept := Min(Room(b), |all|);
    var next := if b.phase.final then Closing else Waiting;
    if b.retry == [] then b.(phase := next)
    else b.(q := all[..kept], retry := [], done := MarkAll(b.done, all[kept..], Overflowed), phase := next)
  }

  function Close(b: Buffer): Buffer { b.(q := [], done := MarkAll(b.done, b.q, Abandoned), phase := Gone) }

  // ----- Events -----

  datatype Event =
    | Write(now: int)
    | Starting
    | Stopping
    | Stopped
    | Taking
    | Handling(now: int, answer: Answer)
    | Merging
    | Closed

  predicate Enabled(b: Buffer, e: Event) {
    match e
    case Write(_) => true
    case Starting => true
    case Stopping => true
    case Stopped => b.phase == Gone
    case Taking => b.phase == Waiting
    case Handling(_, _) => b.phase.Working? && b.batch != []
    case Merging => b.phase.Working? && b.batch == []
    case Closed => b.phase == Closing
  }

  function Step(b: Buffer, e: Event): Buffer
    requires Enabled(b, e)
  {
    match e
    case Write(now) => Enqueue(b, now)
    case Starting => Start(b)
    case Stopping => RequestStop(b)
    case Stopped => FinishStop(b)
    case Taking => Take(b)
    case Handling(now, answer) => Handle(b, now, answer)
    case Merging => Merge(b)
    case Closed => Close(b)
  }

  // ----- The invariant -----

  /** The writes not yet settled, oldest first. */
  function Live(b: Buffer): seq<Item> { b.retry + b.batch + b.q }

  ghost predicate Ascending(xs: seq<Item>) { forall i, j | 0 <= i < j < |xs| :: xs[i].ticket < xs[j].ticket }

  /** Every accepted write is live or settled, and not both. */
  ghost predicate Accounted(live: seq<Item>, done: map<nat, Fate>, accepted: nat) {
    && Ascending(live)
    && (forall t: nat :: t in Tickets(live) ==> t !in done)
    && (forall t: nat :: t < accepted <==> t in Tickets(live) || t in done)
  }

  ghost predicate Conserved(b: Buffer) { Accounted(Live(b), b.done, b.accepted) }

  /** The worker's state: the last pass leaves nothing behind, and a stopped buffer is empty. */
  ghost predicate Disciplined(b: Buffer) {
    && (b.phase == Absent <==> !b.running)
    && (b.phase.Working? || (b.batch == [] && b.retry == []))
    && (b.phase.Working? && b.phase.final ==> b.stop && b.q == [] && b.retry == [])
    && (b.phase == Closing || b.phase == Gone ==> b.stop && b.q == [])
    && (b.phase == Absent ==> b.q == [])
  }

  ghost predicate Inv(b: Buffer) {
    && b.cfg.maxQueue >= 1 && |b.q| <= b.cfg.maxQueue
    && Conserved(b) && Disciplined(b)
    && NoneAbandoned(b.done)
  }

  predicate NoneAbandoned(done: map<nat, Fate>) { forall t | t in done :: done[t] != Abandoned }

  // ----- Accounting -----

  lemma AppendAccounted(live: seq<Item>, done: map<nat, Fate>, accepted: nat, at: int)
    requires Accounted(live, done, accepted)
    ensures Accounted(live + [Item(accepted, at)], done, accepted + 1)
  {
    var all := live + [Item(accepted, at)];
    forall t: nat ensures t in Tickets(all) <==> t in Tickets(live) || t == accepted {
      assert all[|live|].ticket == accepted;
      if t in Tickets(live) {
        var i :| 0 <= i < |live| && live[i].ticket == t;
        assert all[i].ticket == t;
      }
    }
    assert forall i | 0 <= i < |live| :: live[i].ticket in Tickets(live);
  }

  lemma TicketsWithout(live: seq<Item>, k: nat)
    requires k < |live| && Ascending(live)
    ensures Ascending(live[..k] + live[k + 1..])
    ensures forall t :: t in Tickets(live[..k] + live[k + 1..]) <==> t in Tickets(live) && t != live[k].ticket
  {
    var left := live[..k] + live[k + 1..];
    assert forall i | 0 <= i < |left| :: left[i] == live[if i < k then i else i + 1];
    forall t ensures t in Tickets(left) <==> t in Tickets(live) && t != live[k].ticket {
      if t in Tickets(live) && t != live[k].ticket {
        var i :| 0 <= i < |live| && live[i].ticket == t;
        assert left[if i < k then i else i - 1].ticket == t;
      }
    }
  }

  /** Settling one live write. */
  lemma SettleAccounted(live: seq<Item>, done: map<nat, Fate>, accepted: nat, k: nat, fate: Fate)
    requires Accounted(live, done, accepted) && k < |live|
    ensures Accounted(live[..k] + live[k + 1..], Mark(done, live[k], fate), accepted)
  {
    var left, now := live[..k] + live[k + 1..], Mark(done, live[k], fate);
    TicketsWithout(live, k);
    assert live[k].ticket in Tickets(live);
    forall t: nat ensures t in Tickets(left) ==> t !in now {
    }
    forall t: nat ensures t < accepted <==> t in Tickets(left) || t in now {
    }
  }

  /** Settling every write from position `k` on. */
  lemma {:induction false} DropAccounted(live: seq<Item>, done: map<nat, Fate>, accepted: nat, k: nat, fate: Fate)
    requires Accounted(live, done, accepted) && k <= |live|
    ensures Accounted(live[..k], MarkAll(done, live[k..], fate), accepted)
    decreases |live|
  {
    if k < |live| {
      var left := live[..k] + live[k + 1..];
      SettleAccounted(live, done, accepted, k, fate);
      DropAccounted(left, Mark(done, live[k], fate), accepted, k, fate);
      assert left[..k] == live[..k] && left[k..] == live[k..][1..];
    } else {
      assert live[..k] == live;
    }
  }

  lemma {:induction false} MarkAllFates(done: map<nat, Fate>, xs: seq<Item>, fate: Fate)
    requires NoneAbandoned(done) && fate != Abandoned
    ensures NoneAbandoned(MarkAll(done, xs, fate))
    decreases |xs|
  {
    if xs != [] {
      MarkAllFates(Mark(done, xs[0], fate), xs[1..], fate);
    }
  }

  // ----- Every step keeps the invariant -----

  lemma WriteInv(b: Buffer, now: int)
    requires Inv(b)
    ensures Inv(Enqueue(b, now))
  {
    if Accepts(b) {
      AppendAccounted(Live(b), b.done, b.accepted, now);
      assert Live(Enqueue(b, now)) == Live(b) + [Item(b.accepted, now)];
    }
  }

  lemma SettleHead(b: Buffer, fate: Fate)
    requires Inv(b) && b.phase.Working? && b.batch != [] && fate != Abandoned
    ensures Inv(b.(batch := b.batch[1..], done := Mark(b.done, b.batch[0], fate)))
  {
    var c := b.(batch := b.batch[1..], done := Mark(b.done, b.batch[0], fate));
    var k, live := |b.retry|, Live(b);
    assert live[k] == b.batch[0];
    SettleAccounted(live, b.done, b.accepted, k, fate);
    assert Live(c) == live[..k] + live[k + 1..];
  }

  lemma RetryHead(b: Buffer)
    requires Inv(b) && b.phase == Working(false) && b.batch != []
    ensures Inv(b.(batch := b.batch[1..], retry := b.retry + [b.batch[0]]))
  {
    assert Live(b.(batch := b.batch[1..], retry := b.retry + [b.batch[0]])) == Live(b);
  }

  lemma HandleInv(b: Buffer, now: int, answer: Answer)
    requires Inv(b) && Enabled(b, Handling(now, answer))
    ensures Inv(Handle(b, now, answer))
  {
    SettleHead(b, Expired);
    SettleHead(b, Flushed);
    SettleHead(b, Failed);
    if !b.phase.final {
      RetryHead(b);
    }
  }

  lemma MergeInv(b: Buffer)
    requires Inv(b) && Enabled(b, Merging)
    ensures Inv(Merge(b))
  {
    var c := Merge(b);
    if b.retry != [] {
      var all := b.retry + b.q;
      var kept := Min(Room(b), |all|);
      assert Live(b) == all && Live(c) == all[..kept];
      DropAccounted(all, b.done, b.accepted, kept, Overflowed);
      MarkAllFates(b.done, all[kept..], Overflowed);
    } else {
      assert Live(c) == Live(b);
    }
  }

  lemma StepInv(b: Buffer, e: Event)
    requires Inv(b) && Enabled(b, e)
    ensures Inv(Step(b, e))
  {
    match e
    case Write(now) => WriteInv(b, now);
    case Handling(now, answer) => HandleInv(b, now, answer);
    case Merging => MergeInv(b);
    case _ => assert Live(Step(b, e)) == Live(b);
  }

  // ----- Runs -----

  ghost predicate Run(b: Buffer, es: seq<Event>, c: Buffer)
    decreases |es|
  {
    if es == [] then b == c else Enabled(b, es[0]) && Run(Step(b, es[0]), es[1..], c)
  }

  lemma {:induction false} RunInv(b: Buffer, es: seq<Event>, c: Buffer)
    requires Inv(b) && Run(b, es, c)
    ensures Inv(c)
    decreases |es|
  {
    if es != [] {
      StepInv(b, es[0]);
      RunInv(Step(b, es[0]), es[1..], c);
    }
  }

  lemma NewInv(cfg: Config)
    ensures Inv(New(cfg))
  {
  }

  /** In every reachable state each accepted write is in exactly one place (queue, batch, retry
      list or settled with one fate), those not settled are in the order of acceptance, the
      queue respects its bound, and nothing was ever abandoned. */
  lemma EveryWriteAccounted(cfg: Config, es: seq<Event>, b: Buffer, t: nat)
    requires Run(New(cfg), es, b)
    ensures t < b.accepted <==> t in Tickets(b.retry) || t in Tickets(b.batch) || t in Tickets(b.q) || t in b.done
    ensures t in Tickets(b.retry) ==> t !in Tickets(b.batch) && t !in Tickets(b.q) && t !in b.done
    ensures t in Tickets(b.batch) ==> t !in Tickets(b.q) && t !in b.done
    ensures t in Tickets(b.q) ==> t !in b.done
    ensures Ascending(b.retry + b.batch + b.q) && |b.q| <= Normalize(cfg).maxQueue
    ensures t in b.done ==> b.done[t] != Abandoned
  {
    NewInv(cfg);
    RunInv(New(cfg), es, b);
    CfgKept(New(cfg), es, b);
    Places(b, t);
  }

  lemma {:induction false} CfgKept(b: Buffer, es: seq<Event>, c: Buffer)
    requires Run(b, es, c)
    ensures c.cfg == b.cfg
    decreases |es|
  {
    if es != [] {
      CfgKept(Step(b, es[0]), es[1..], c);
    }
  }

  lemma TicketsAppend(xs: seq<Item>, ys: seq<Item>, t: nat)
    ensures t in Tickets(xs + ys) <==> t in Tickets(xs) || t in Tickets(ys)
    ensures Ascending(xs + ys) ==> Ascending(xs) && Ascending(ys) && !(t in Tickets(xs) && t in Tickets(ys))
  {
    var all := xs + ys;
    assert forall i | 0 <= i < |xs| :: all[i] == xs[i];
    assert forall i | 0 <= i < |ys| :: all[|xs| + i] == ys[i];
    if t in Tickets(all) {
      var i :| 0 <= i < |all| && all[i].ticket == t;
      assert i < |xs| || all[i] == ys[i - |xs|];
    }
  }

  lemma Places(b: Buffer, t: nat)
    requires Ascending(Live(b))
    ensures t in Tickets(Live(b)) <==> t in Tickets(b.retry) || t in Tickets(b.batch) || t in Tickets(b.q)
    ensures t in Tickets(b.retry) ==> t !in Tickets(b.batch) && t !in Tickets(b.q)
    ensures t in Tickets(b.batch) ==> t !in Tickets(b.q)
  {
    TicketsAppend(b.retry + b.batch, b.q, t);
    TicketsAppend(b.retry, b.batch, t);
  }

  /** A settled write keeps its fate. */
  lemma FateIsFinal(b: Buffer, e: Event, t: nat)
    requires Inv(b) && Enabled(b, e) && t in b.done
    ensures t in Step(b, e).done && Step(b, e).done[t] == b.done[t]
  {
    match e
    case Handling(now, answer) =>
      assert Live(b)[|b.retry|] == b.batch[0];
      assert b.batch[0].ticket in Tickets(Live(b));
    case Merging =>
      var all := b.retry + b.q;
      assert Live(b) == all;
      MarkAllOthers(b.done, all[Min(Room(b), |all|)..], all, Overflowed, t);
    case _ =>
  }

  lemma {:induction false} MarkAllOthers(done: map<nat, Fate>, xs: seq<Item>, all: seq<Item>, fate: Fate, t: nat)
    requires t in done && t !in Tickets(all) && forall x | x in xs :: x in all
    ensures t in MarkAll(done, xs, fate) && MarkAll(done, xs, fate)[t] == done[t]
    decreases |xs|
  {
    if xs != [] {
      assert xs[0] in all;
      MarkAllOthers(Mark(done, xs[0], fate), xs[1..], all, fate, t);
    }
  }

  /** Once stopped, or before it was started, the buffer holds nothing: every accepted write is
      settled. */
  lemma StoppedIsSettled(cfg: Config, es: seq<Event>, b: Buffer, t: nat)
    requires Run(New(cfg), es, b) && !b.running
    ensures Live(b) == [] && (t < b.accepted <==> t in b.done)
  {
    NewInv(cfg);
    RunInv(New(cfg), es, b);
  }

  /** The last pass finds nothing to abandon. */
  lemma LastPassAbandonsNone(cfg: Config, es: seq<Event>, b: Buffer)
    requires Run(New(cfg), es, b) && Enabled(b, Closed)
    ensures b.q == [] && Live(b) == [] && Close(b).done == b.done
  {
    NewInv(cfg);
    RunInv(New(cfg), es, b);
  }

  /** What a merge drops is newer than all it keeps, and it drops only beyond the bound. */
  lemma MergeDropsNewest(b: Buffer, kept: Item, dropped: Item)
    requires Inv(b) && Enabled(b, Merging) && kept in Merge(b).q && dropped in Live(b) && dropped !in Merge(b).q
    ensures kept.ticket < dropped.ticket && |Merge(b).q| == b.cfg.maxQueue
  {
    var all := b.retry + b.q;
    assert Live(b) == all;
    var i :| 0 <= i < |all| && all[i] == dropped;
    var j :| 0 <= j < |Merge(b).q| && Merge(b).q[j] == kept;
    assert b.retry == [] ==> all == b.q;
    assert all[j] == kept && i >= |Merge(b).q|;
  }

  // ----- What happens to a write -----

  /** A write is taken in exactly while the buffer runs, is not stopping and is not full; it then
      stands at the end with the next ticket. */
  lemma AcceptedWhen(b: Buffer, now: int)
    ensures var c := Enqueue(b, now);
            && (c.accepted == b.accepted + 1 <==> b.cfg.enabled && b.running && !b.stop && |b.q| < b.cfg.maxQueue)
            && (c.accepted == b.accepted + 1 ==> c == b.(q := b.q + [Item(b.accepted, now)], accepted := c.accepted))
            && (c.accepted != b.accepted + 1 ==> c == b)
  {
  }

  /** Starting takes effect exactly on an enabled buffer that does not run; stopping only raises the
      flag of one that does; a pass takes the whole queue, and is the last exactly if the flag is up. */
  lemma ControlWhen(b: Buffer)
    requires Inv(b)
    ensures Start(b) == if b.cfg.enabled && !b.running then b.(running := true, stop := false, phase := Waiting) else b
    ensures RequestStop(b) == b.(stop := b.stop || b.running)
    ensures b.phase == Waiting ==> Live(Take(b)) == Live(b) && Take(b).q == [] && Take(b).phase == Working(b.stop)
    ensures b.phase == Closing ==> Close(b) == b.(phase := Gone)
  {
    assert b.phase == Waiting ==> [] + b.q + [] == [] + [] + b.q;
  }

  /** The front write has waited longer than its time to live. */
  predicate Stale(b: Buffer, now: int)
    requires b.batch != []
  {
    b.cfg.ttl > 0 && now - b.batch[0].at > b.cfg.ttl
  }

  ghost predicate Has(done: map<nat, Fate>, t: nat, fate: Fate) { t in done && done[t] == fate }

  /** What the answer to executing the front write makes of it; a stale one is not executed. */
  lemma HandledWhen(b: Buffer, now: int, answer: Answer)
    requires Inv(b) && Enabled(b, Handling(now, answer))
    ensures var c, item := Handle(b, now, answer), b.batch[0];
            var stale, last := Stale(b, now), b.phase.final;
            && item.ticket !in b.done
            && (Has(c.done, item.ticket, Expired) <==> stale)
            && (Has(c.done, item.ticket, Flushed) <==> !stale && answer == Success)
            && (Has(c.done, item.ticket, Failed) <==> !stale && (answer == Permanent || (answer == Transient && last)))
            && (item.ticket !in c.done <==> !stale && answer == Transient && !last)
            && c.retry == (if item.ticket in c.done then b.retry else b.retry + [item])
            && c.batch == b.batch[1..] && c.q == b.q && c.phase == b.phase
            && (forall t: nat | t != item.ticket :: t in c.done <==> t in b.done)
            && (forall t: nat | t != item.ticket && t in b.done :: c.done[t] == b.done[t])
  {
    assert Live(b)[|b.retry|] == b.batch[0];
    assert b.batch[0].ticket in Tickets(Live(b));
  }

  lemma {:induction false} MarkAllMeans(done: map<nat, Fate>, xs: seq<Item>, fate: Fate, t: nat)
    ensures t in MarkAll(done, xs, fate) <==> t in done || t in Tickets(xs)
    ensures t in Tickets(xs) ==> MarkAll(done, xs, fate)[t] == fate
    ensures t in done && t !in Tickets(xs) ==> MarkAll(done, xs, fate)[t] == done[t]
    decreases |xs|
  {
    if xs != [] {
      var head, rest := [xs[0]], xs[1..];
      MarkAllMeans(Mark(done, xs[0], fate), rest, fate, t);
      assert xs == head + rest;
      TicketsAppend(head, rest, t);
      assert t in Tickets(head) <==> t == xs[0].ticket by {
        assert head[0].ticket == xs[0].ticket;
      }
    }
  }

  /** After a pass the writes to retry stand in front of the new ones; exactly what exceeds the
      bound is dropped, from the end. */
  lemma MergeKeepsOldest(b: Buffer, t: nat)
    requires Inv(b) && Enabled(b, Merging)
    ensures var c, all := Merge(b), b.retry + b.q;
            var kept := Min(b.cfg.maxQueue, |all|);
            && c.q == all[..kept] && c.retry == [] && c.batch == []
            && c.phase == (if b.phase.final then Closing else Waiting)
            && (Has(c.done, t, Overflowed) <==> Has(b.done, t, Overflowed) || t in Tickets(all[kept..]))
            && (t in b.done ==> Has(c.done, t, b.done[t]))
  {
    var all := b.retry + b.q;
    var kept := Min(b.cfg.maxQueue, |all|);
    assert Live(b) == all && all == all[..kept] + all[kept..];
    MarkAllMeans(b.done, all[kept..], Overflowed, t);
    TicketsAppend(all[..kept], all[kept..], t);
    if b.retry == [] {
      assert all == b.q && all[kept..] == [];
    }
  }

  // ----- Executions -----

  /** A write was executed, with this answer. */
  datatype Call = Call(ticket: nat, answer: Answer)

  /** The executions of a run, in order. */
  function Calls(b: Buffer, es: seq<Event>): seq<Call>
    decreases |es|
  {
    if es == [] || !Enabled(b, es[0]) then []
    else CallsOf(b, es[0]) + Calls(Step(b, es[0]), es[1..])
  }

  function CallsOf(b: Buffer, e: Event): seq<Call>
    requires Enabled(b, e)
  {
    if e.Handling? && !Stale(b, e.now) then [Call(b.batch[0].ticket, e.answer)] else []
  }

  /** Only executing a write with success settles it as flushed. */
  lemma StepFlushes(b: Buffer, e: Event, t: nat)
    requires Inv(b) && Enabled(b, e)
    ensures Has(Step(b, e).done, t, Flushed) <==> Has(b.done, t, Flushed) || Call(t, Success) in CallsOf(b, e)
  {
    match e
    case Handling(now, answer) =>
      HandledWhen(b, now, answer);
    case Merging =>
      var all := b.retry + b.q;
      MarkAllMeans(b.done, all[Min(Room(b), |all|)..], Overflowed, t);
      if t in b.done {
        FateIsFinal(b, e, t);
      }
    case Closed => assert b.q == [];
    case _ =>
  }

  /** A write is executed only while it is not settled, and is settled or waits to be retried
      afterwards. */
  lemma CalledUnsettled(b: Buffer, e: Event, x: Call)
    requires Inv(b) && Enabled(b, e) && x in CallsOf(b, e)
    ensures x.ticket !in b.done
    ensures x.ticket !in Step(b, e).done ==> x.answer == Transient
  {
    HandledWhen(b, e.now, e.answer);
    assert Live(b)[|b.retry|] == b.batch[0];
    assert b.batch[0].ticket in Tickets(Live(b));
  }

  lemma {:induction false} SettledNotCalled(b: Buffer, es: seq<Event>, c: Buffer, t: nat)
    requires Inv(b) && Run(b, es, c) && t in b.done
    ensures forall x | x in Calls(b, es) :: x.ticket != t
    decreases |es|
  {
    if es != [] {
      StepInv(b, es[0]);
      FateIsFinal(b, es[0], t);
      SettledNotCalled(Step(b, es[0]), es[1..], c, t);
      forall x | x in CallsOf(b, es[0]) ensures x.ticket != t {
        CalledUnsettled(b, es[0], x);
      }
    }
  }

  lemma {:induction false} FlushedByCall(b: Buffer, es: seq<Event>, c: Buffer, t: nat)
    requires Inv(b) && Run(b, es, c)
    ensures Has(c.done, t, Flushed) <==> Has(b.done, t, Flushed) || Call(t, Success) in Calls(b, es)
    decreases |es|
  {
    if es != [] {
      StepInv(b, es[0]);
      StepFlushes(b, es[0], t);
      FlushedByCall(Step(b, es[0]), es[1..], c, t);
    }
  }

  /** Only executions that can be retried are followed by another one of the same write. */
  ghost predicate RetriedOnly(calls: seq<Call>) {
    forall i, j | 0 <= i < j < |calls| && calls[i].ticket == calls[j].ticket :: calls[i].answer == Transient
  }

  lemma JoinRetried(a: seq<Call>, b: seq<Call>)
    requires |a| <= 1 && RetriedOnly(b)
    requires forall x, y | x in a && y in b && x.ticket == y.ticket :: x.answer == Transient
    ensures RetriedOnly(a + b)
  {
    var all := a + b;
    forall i, j | 0 <= i < j < |all| && all[i].ticket == all[j].ticket ensures all[i].answer == Transient {
      if i < |a| {
        assert all[i] in a && all[j] in b;
      } else {
        assert all[i] == b[i - |a|] && all[j] == b[j - |a|];
      }
    }
  }

  lemma CalledLast(b: Buffer, es: seq<Event>, c: Buffer, x: Call, y: Call)
    requires Inv(b) && es != [] && Run(b, es, c)
    requires x in CallsOf(b, es[0]) && y in Calls(Step(b, es[0]), es[1..]) && x.ticket == y.ticket
    ensures x.answer == Transient
  {
    StepInv(b, es[0]);
    CalledUnsettled(b, es[0], x);
    if x.ticket in Step(b, es[0]).done {
      SettledNotCalled(Step(b, es[0]), es[1..], c, x.ticket);
    }
  }

  lemma {:induction false} CallsRetried(b: Buffer, es: seq<Event>, c: Buffer)
    requires Inv(b) && Run(b, es, c)
    ensures RetriedOnly(Calls(b, es))
    decreases |es|
  {
    if es != [] {
      var head, rest := CallsOf(b, es[0]), Calls(Step(b, es[0]), es[1..]);
      StepInv(b, es[0]);
      CallsRetried(Step(b, es[0]), es[1..], c);
      forall x, y | x in head && y in rest && x.ticket == y.ticket ensures x.answer == Transient {
        CalledLast(b, es, c, x, y);
      }
      JoinRetried(head, rest);
    }
  }

  /** Over any run a write counts as flushed exactly if the database executed it with success, and
      that happens at most once and ends its executions; so does a failure that cannot be retried. */
  lemma ExecutedOnce(cfg: Config, es: seq<Event>, b: Buffer, t: nat)
    requires Run(New(cfg), es, b)
    ensures Has(b.done, t, Flushed) <==> Call(t, Success) in Calls(New(cfg), es)
    ensures RetriedOnly(Calls(New(cfg), es))
  {
    NewInv(cfg);
    FlushedByCall(New(cfg), es, b, t);
    CallsRetried(New(cfg), es, b);
  }

  // ----- The code -----

  class State {
    var cfg: Config
    var q: seq<Item>
    var batch: seq<Item>
    var retry: seq<Item>
    var stop: bool
    var running: bool
    ghost var phase: Phase
    ghost var accepted: nat
    ghost var done: map<nat, Fate>

    ghost function View(): Buffer
      reads this
    {
      Buffer(cfg, q, batch, retry, stop, running, phase, accepted, done)
    }

    constructor (config: Config)
      ensures View() == New(config)
    {
      cfg := if config.maxQueue < 1 then config.(maxQueue := 1) else config;
      q, batch, retry, stop, running := [], [], [], false, false;
      phase, accepted, done := Absent, 0, map[];
    }

    /** The ticket is the writer's number; the queue itself holds what to execute. */
    method EnqueueWrite(ticket: nat, now: int) returns (ok: bool)
      requires ticket == accepted
      modifies this`q, this`accepted
      ensures View() == Enqueue(old(View()), now)
      ensures ok == Accepts(old(View()))
    {
      if !cfg.enabled || stop || !running || |q| >= cfg.maxQueue {
        return false;
      }
      q := q + [Item(ticket, now)];
      accepted := accepted + 1;
      return true;
    }

    method StartWorker()
      modifies this`running, this`stop, this`phase
      ensures View() == Start(old(View()))
    {
      if !cfg.enabled || running {
        return;
      }
      running, stop := true, false;
      phase := Waiting;
    }

    method SignalStop()
      modifies this`stop
      ensures View() == RequestStop(old(View()))
    {
      if !running {
        return;
      }
      stop := true;
    }

    method WorkerJoined()
      modifies this`running, this`phase
      ensures View() == FinishStop(old(View()))
    {
      running := false;
      phase := Absent;
    }

    method TakeBatch() returns (finalPass: bool)
      modifies this`q, this`batch, this`retry, this`phase
      ensures View() == Take(old(View())) && finalPass == stop
    {
      finalPass := stop;
      batch, q, retry := q, [], [];
      phase := Working(stop);
    }

    method HandleFront(finalPass: bool, now: int, answer: Answer)
      requires batch != [] && phase == Working(finalPass)
      modifies this`batch, this`retry, this`done
      ensures View() == Handle(old(View()), now, answer)
    {
      var item := batch[0];
      batch := batch[1..];
      if cfg.ttl > 0 && now - item.at > cfg.ttl {
        done := Mark(done, item, Expired);
        return;
      }
      if answer == Success {
        done := Mark(done, item, Flushed);
        return;
      }
      if !finalPass && answer == Transient {
        retry := retry + [item];
      } else {
        done := Mark(done, item, Failed);
      }
    }

    /** New writes line up behind those to retry. */
    method LineUp()
      modifies this`q, this`retry
      ensures retry == old(retry + q) && q == []
    {
      while q != []
        invariant retry + q == old(retry + q)
        decreases |q|
      {
        retry := retry + [q[0]];
        q := q[1..];
      }
    }

    /** What fits goes back into the queue. */
    method Refill() returns (dropped: nat)
      requires cfg.maxQueue >= 1 && q == []
      modifies this`q, this`retry, this`done
      ensures var all, kept := old(retry), Min(cfg.maxQueue, |old(retry)|);
              && q == all[..kept] && retry == [] && dropped == |all| - kept
              && done == MarkAll(old(done), all[kept..], Overflowed)
    {
      ghost var all, kept := retry, Min(cfg.maxQueue, |retry|);
      ghost var i := 0;
      dropped := 0;
      while retry != []
        invariant i <= |all| && retry == all[i..] && q == all[..Min(i, kept)] && dropped == i - |q|
        invariant MarkAll(done, all[if i < kept then kept else i..], Overflowed)
                  == MarkAll(old(done), all[kept..], Overflowed)
        decreases |retry|
      {
        if |q| >= cfg.maxQueue {
          dropped := dropped + 1;
          done := Mark(done, retry[0], Overflowed);
          assert all[i..][1..] == all[i + 1..];
        } else {
          q := q + [retry[0]];
        }
        retry := retry[1..];
        i := i + 1;
      }
    }

    method MergeRetry(ghost finalPass: bool) returns (dropped: nat)
      requires phase == Working(finalPass) && cfg.maxQueue >= 1
      modifies this`q, this`retry, this`done, this`phase
      ensures View() == Merge(old(View()))
    {
      dropped := 0;
      if retry != [] {
        LineUp();
        dropped := Refill();
      }
      phase := if finalPass then Closing else Waiting;
    }

    method CloseQueue() returns (abandoned: nat)
      modifies this`q, this`done, this`phase
      ensures View() == Close(old(View())) && abandoned == |old(q)|
    {
      abandoned := |q|;
      done := MarkAll(done, q, Abandoned);
      q := [];
      phase := Gone;
    }
  }
}
