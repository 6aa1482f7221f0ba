/** Statistics of slow statements: a bounded table with a recency list, one histogram per
    statement, and the cumulative buckets that the Prometheus exporter derives from it. */
module SlowSql {
  import opened Lru

  datatype Outcome = Done | TimedOut | Failed

  /** One slow execution; durations are in microseconds. */
  datatype Event = Event(duration: int, outcome: Outcome)

  /** Histogram bounds are in milliseconds. */
  datatype Stats = Stats(count: nat, errors: nat, timeouts: nat, total: int, least: int, most: int,
                         bounds: seq<int>, histogram: seq<nat>)

  /** The settings as the recording thread last saw them, which may be out of date. */
  datatype Config = Config(capacity: int, bounds: seq<int>)

  /** The statistics, the recency list, and the keys of the list's index. */
  datatype Table = Table(stats: map<nat, Stats>, lru: seq<nat>, indexed: set<nat>)

  const EmptyTable := Table(map[], [], {})

  // ----- One statement -----

  /** The first bucket from `b` on whose bound the duration does not exceed. */
  function Bucket(bounds: seq<int>, duration: int, b: nat): (r: nat)
    requires b <= |bounds|
    ensures b <= r <= |bounds|
    ensures forall i | b <= i < r :: duration > bounds[i] * 1000
    ensures r < |bounds| ==> duration <= bounds[r] * 1000
    decreases |bounds| - b
  {
    if b < |bounds| && duration > bounds[b] * 1000 then Bucket(bounds, duration, b + 1) else b
  }

  function Started(bounds: seq<int>, duration: int): Stats {
    Stats(0, 0, 0, 0, duration, 0, bounds, seq(|bounds| + 1, _ => 0))
  }

  predicate Shaped(s: Stats) { |s.histogram| == |s.bounds| + 1 }

  function Bump(h: seq<nat>, b: nat): seq<nat>
    requires b < |h|
  {
    h[b := h[b] + 1]
  }

  function Record(s: Stats, e: Event): Stats
    requires Shaped(s)
  {
    Stats(s.count + 1, s.errors + (if e.outcome.Done? then 0 else 1),
          s.timeouts + (if e.outcome.TimedOut? then 1 else 0), s.total + e.duration,
          if e.duration < s.least then e.duration else s.least,
          if e.duration > s.most then e.duration else s.most,
          s.bounds, Bump(s.histogram, Bucket(s.bounds, e.duration, 0)))
  }

  // ----- The table -----

  function Touch(t: Table, fp: nat): Table {
    if fp !in t.indexed then t.(lru := [fp] + t.lru, indexed := t.indexed + {fp})
    else t.(lru := [fp] + Without(t.lru, fp))
  }

  function EvictLru(t: Table): Table {
    if t.lru == [] then t
    else
      var fp := t.lru[|t.lru| - 1];
      Table(t.stats - {fp}, t.lru[..|t.lru| - 1], t.indexed - {fp})
  }

  function MakeRoom(t: Table, cfg: Config, fp: nat): Table {
    if fp !in t.stats && |t.stats| >= cfg.capacity then EvictLru(t) else t
  }

  predicate AllShaped(t: Table) { forall fp | fp in t.stats :: Shaped(t.stats[fp]) }

  function Emit(t: Table, cfg: Config, fp: nat, e: Event): Table
    requires AllShaped(t)
  {
    Place(MakeRoom(t, cfg, fp), fp, Record(Current(t, cfg, fp, e), e))
  }

  /** The statement's statistics so far. */
  function Current(t: Table, cfg: Config, fp: nat, e: Event): Stats {
    if fp in t.stats then t.stats[fp] else Started(cfg.bounds, e.duration)
  }

  function Place(t: Table, fp: nat, s: Stats): Table {
    var u := Touch(t, fp);
    u.(stats := u.stats[fp := s])
  }

  function Shrink(t: Table, capacity: nat): Table
    decreases |t.lru|
  {
    if |t.stats| <= capacity || t.lru == [] then t else Shrink(EvictLru(t), capacity)
  }

  function Normal(capacity: int): nat { if capacity < 1 then 1 else capacity }

  predicate BoundsChanged(t: Table, cfg: Config) { exists fp | fp in t.stats :: t.stats[fp].bounds != cfg.bounds }

  function Configure(t: Table, cfg: Config): Table {
    Shrink(if BoundsChanged(t, cfg) then EmptyTable else t, Normal(cfg.capacity))
  }

  // ----- The table's invariant -----

  /** Statistics, list and index hold the same keys. */
  ghost predicate Aligned(t: Table) { Lists(t.lru, t.stats.Keys) && t.indexed == t.stats.Keys }

  lemma EvictAligned(t: Table)
    requires Aligned(t) && t.lru != []
    ensures var u := EvictLru(t); Aligned(u) && |u.stats| == |t.stats| - 1 && t.lru[|t.lru| - 1] in t.stats
    ensures forall k | k in EvictLru(t).stats :: k in t.stats && EvictLru(t).stats[k] == t.stats[k]
  {
    ListsPopBack(t.lru, t.stats.Keys);
    var fp := t.lru[|t.lru| - 1];
    assert EvictLru(t).stats.Keys == t.stats.Keys - {fp};
    assert |t.stats.Keys| == |t.stats| && |EvictLru(t).stats.Keys| == |EvictLru(t).stats|;
  }

  lemma NonEmptyList(t: Table)
    requires Aligned(t)
    ensures |t.lru| == |t.stats|
  {
    ListsSize(t.lru, t.stats.Keys);
    assert |t.stats.Keys| == |t.stats|;
  }

  /** The shrink loop always reaches its goal, whatever the capacity. */
  lemma {:induction false} ShrinkAligned(t: Table, capacity: nat)
    requires Aligned(t)
    ensures var u := Shrink(t, capacity); Aligned(u) && |u.stats| <= capacity
    ensures forall k | k in Shrink(t, capacity).stats :: k in t.stats && Shrink(t, capacity).stats[k] == t.stats[k]
    decreases |t.lru|
  {
    NonEmptyList(t);
    if |t.stats| > capacity {
      EvictAligned(t);
      ShrinkAligned(EvictLru(t), capacity);
    }
  }

  /** `r` is `t` with room for one more statement. */
  ghost predicate HasRoom(t: Table, r: Table, cfg: Config, fp: nat) {
    && |r.stats| <= |t.stats| && (fp in r.stats <==> fp in t.stats)
    && (fp !in t.stats ==> |r.stats| == 0 || |r.stats| < |t.stats| || |r.stats| < cfg.capacity)
    && forall k | k in r.stats :: k in t.stats && r.stats[k] == t.stats[k]
  }

  lemma RoomAligned(t: Table, cfg: Config, fp: nat)
    requires Aligned(t)
    ensures Aligned(MakeRoom(t, cfg, fp)) && HasRoom(t, MakeRoom(t, cfg, fp), cfg, fp)
  {
    NonEmptyList(t);
    if t.lru != [] {
      EvictAligned(t);
    }
  }

  lemma PlaceAligned(r: Table, fp: nat, s: Stats)
    requires Aligned(r)
    ensures var u := Place(r, fp, s);
            && Aligned(u) && u.lru[0] == fp && u.stats == r.stats[fp := s]
            && |u.stats| == |r.stats| + (if fp in r.stats then 0 else 1)
  {
    var u := Place(r, fp, s);
    assert u.stats.Keys == r.stats.Keys + {fp};
    assert |u.stats.Keys| == |u.stats| && |r.stats.Keys| == |r.stats|;
    if fp in r.stats {
      ListsToFront(r.lru, r.stats.Keys, fp);
      assert u.stats.Keys == r.stats.Keys;
    } else {
      ListsPushFront(r.lru, r.stats.Keys, fp);
    }
  }

  /** The statement is in front, at most the oldest other one is gone, and the table has not
      outgrown both its old size and the capacity. */
  ghost predicate Placed(t: Table, u: Table, cfg: Config, fp: nat, s: Stats) {
    && Aligned(u) && u.lru != [] && u.lru[0] == fp && fp in u.stats && u.stats[fp] == s
    && (|u.stats| <= |t.stats| || |u.stats| <= Normal(cfg.capacity))
    && forall k | k in u.stats && k != fp :: k in t.stats && u.stats[k] == t.stats[k]
  }

  lemma PlacedInRoom(t: Table, r: Table, cfg: Config, fp: nat, s: Stats)
    requires Aligned(r) && HasRoom(t, r, cfg, fp)
    ensures Placed(t, Place(r, fp, s), cfg, fp, s)
  {
    PlaceAligned(r, fp, s);
  }

  lemma EmitPlaces(t: Table, cfg: Config, fp: nat, e: Event)
    requires Aligned(t) && AllShaped(t)
    ensures Placed(t, Emit(t, cfg, fp, e), cfg, fp, Record(Current(t, cfg, fp, e), e))
  {
    RoomAligned(t, cfg, fp);
    PlacedInRoom(t, MakeRoom(t, cfg, fp), cfg, fp, Record(Current(t, cfg, fp, e), e));
  }

  lemma EmitKnown(t: Table, cfg: Config, fp: nat, s: Stats)
    requires Aligned(t) && fp in t.stats
    ensures var u := Place(MakeRoom(t, cfg, fp), fp, s);
            u.lru == [fp] + Without(t.lru, fp) && u.stats == t.stats[fp := s]
  {
  }

  lemma EmitNew(t: Table, cfg: Config, fp: nat, s: Stats)
    requires Aligned(t) && fp !in t.stats && |t.stats| < cfg.capacity
    ensures var u := Place(MakeRoom(t, cfg, fp), fp, s); u.lru == [fp] + t.lru && u.stats == t.stats[fp := s]
  {
  }

  lemma PlaceNew(r: Table, fp: nat, s: Stats)
    requires fp !in r.indexed
    ensures Place(r, fp, s).lru == [fp] + r.lru && Place(r, fp, s).stats == r.stats[fp := s]
  {
  }

  lemma EmitFull(t: Table, cfg: Config, fp: nat, s: Stats)
    requires Aligned(t) && fp !in t.stats && |t.stats| >= cfg.capacity && t.lru != []
    ensures var u, last := Place(MakeRoom(t, cfg, fp), fp, s), |t.lru| - 1;
            u.lru == [fp] + t.lru[..last] && u.stats == (t.stats - {t.lru[last]})[fp := s]
  {
    PlaceNew(EvictLru(t), fp, s);
  }

  /** What recording makes of the table, given the statement's new statistics. */
  ghost predicate Recorded(t: Table, u: Table, cfg: Config, fp: nat, s: Stats) {
    && (fp in t.stats ==> u.lru == [fp] + Without(t.lru, fp) && u.stats == t.stats[fp := s])
    && (fp !in t.stats && |t.stats| < cfg.capacity ==> u.lru == [fp] + t.lru && u.stats == t.stats[fp := s])
    && (fp !in t.stats && |t.stats| >= cfg.capacity && t.lru != [] ==>
          var last := |t.lru| - 1;
          u.lru == [fp] + t.lru[..last] && u.stats == (t.stats - {t.lru[last]})[fp := s])
  }

  /** Recording a statement that is in the table moves it to the front; a new one comes in front, and
      exactly if the table is full the least recently used one goes.  A new statement takes the
      bounds of the settings, which stay with it. */
  lemma EmitExact(t: Table, cfg: Config, fp: nat, e: Event)
    requires Aligned(t) && AllShaped(t)
    ensures var s := Record(Current(t, cfg, fp, e), e);
            && s.bounds == (if fp in t.stats then t.stats[fp].bounds else cfg.bounds)
            && Recorded(t, Emit(t, cfg, fp, e), cfg, fp, s)
  {
    var s := Record(Current(t, cfg, fp, e), e);
    if fp in t.stats {
      EmitKnown(t, cfg, fp, s);
    } else if |t.stats| < cfg.capacity {
      EmitNew(t, cfg, fp, s);
    } else if t.lru != [] {
      EmitFull(t, cfg, fp, s);
    }
  }

  /** Shrinking keeps the most recently used statements, as many as the capacity allows. */
  lemma {:induction false} ShrinkExact(t: Table, capacity: nat)
    requires Aligned(t)
    ensures var u := Shrink(t, capacity);
            && u.lru == t.lru[..if |t.lru| <= capacity then |t.lru| else capacity] && Aligned(u)
            && forall k | k in u.stats :: k in t.stats && u.stats[k] == t.stats[k]
    decreases |t.lru|
  {
    NonEmptyList(t);
    if |t.stats| > capacity {
      EvictAligned(t);
      NonEmptyList(EvictLru(t));
      ShrinkExact(EvictLru(t), capacity);
    } else {
      assert t.lru[..|t.lru|] == t.lru;
    }
  }

  /** Reconfiguring clears the table exactly if some statement has other bounds, and then shrinks. */
  lemma ConfigureExact(t: Table, cfg: Config)
    requires Aligned(t)
    ensures var u, n := Configure(t, cfg), if cfg.capacity < 1 then 1 else cfg.capacity;
            && ((exists k | k in t.stats :: t.stats[k].bounds != cfg.bounds) ==> u == EmptyTable)
            && ((forall k | k in t.stats :: t.stats[k].bounds == cfg.bounds) ==>
                && u.lru == t.lru[..if |t.lru| <= n then |t.lru| else n]
                && forall k | k in u.stats :: k in t.stats && u.stats[k] == t.stats[k])
  {
    if forall k | k in t.stats :: t.stats[k].bounds == cfg.bounds {
      ShrinkExact(t, Normal(cfg.capacity));
    }
  }

  // ----- What the statistics say about the recorded events -----

  function Total(es: seq<Event>): int {
    if es == [] then 0 else Total(es[..|es| - 1]) + es[|es| - 1].duration
  }

  function Errors(es: seq<Event>): nat {
    if es == [] then 0 else Errors(es[..|es| - 1]) + (if es[|es| - 1].outcome.Done? then 0 else 1)
  }

  function Timeouts(es: seq<Event>): nat {
    if es == [] then 0 else Timeouts(es[..|es| - 1]) + (if es[|es| - 1].outcome.TimedOut? then 1 else 0)
  }

  /** How many events fell into bucket `b`. */
  function InBucket(es: seq<Event>, bounds: seq<int>, b: nat): nat {
    if es == [] then 0
    else InBucket(es[..|es| - 1], bounds, b) + (if Bucket(bounds, es[|es| - 1].duration, 0) == b then 1 else 0)
  }

  /** The least duration and the greatest one, the latter counted from zero. */
  ghost predicate Extremes(s: Stats, es: seq<Event>) {
    && (forall e | e in es :: s.least <= e.duration <= s.most)
    && (exists e | e in es :: e.duration == s.least)
    && s.most >= 0 && (s.most == 0 || exists e | e in es :: e.duration == s.most)
  }

  /** `s` summarises exactly the events `es`. */
  ghost predicate Summarises(s: Stats, es: seq<Event>) {
    && s.count == |es| && s.errors == Errors(es) && s.timeouts == Timeouts(es) && s.total == Total(es)
    && Extremes(s, es) && Shaped(s)
    && forall b | 0 <= b < |s.histogram| :: s.histogram[b] == InBucket(es, s.bounds, b)
  }

  lemma AppendEvent(es: seq<Event>, e: Event, bounds: seq<int>)
    ensures Total(es + [e]) == Total(es) + e.duration
    ensures Errors(es + [e]) == Errors(es) + (if e.outcome.Done? then 0 else 1)
    ensures Timeouts(es + [e]) == Timeouts(es) + (if e.outcome.TimedOut? then 1 else 0)
    ensures forall b :: InBucket(es + [e], bounds, b)
                        == InBucket(es, bounds, b) + (if Bucket(bounds, e.duration, 0) == b then 1 else 0)
  {
    assert (es + [e])[..|es|] == es;
  }

  lemma RecordExtremes(s: Stats, es: seq<Event>, e: Event)
    requires Shaped(s) && Extremes(s, es)
    ensures Extremes(Record(s, e), es + [e])
  {
    var all := es + [e];
    var r := Record(s, e);
    assert e in all && forall x :: x in all <==> x in es || x == e;
    var low :| low in es && low.duration == s.least;
    assert exists x | x in all :: x.duration == r.least by {
      assert low in all && (low.duration == r.least || e.duration == r.least);
    }
    if r.most != 0 && e.duration <= s.most {
      var high :| high in es && high.duration == s.most;
      assert high in all;
    }
  }

  lemma RecordSummarises(s: Stats, es: seq<Event>, e: Event)
    requires Summarises(s, es)
    ensures Summarises(Record(s, e), es + [e])
  {
    AppendEvent(es, e, s.bounds);
    RecordExtremes(s, es, e);
  }

  lemma StartExtremes(bounds: seq<int>, e: Event)
    ensures Extremes(Record(Started(bounds, e.duration), e), [e])
  {
    var s := Record(Started(bounds, e.duration), e);
    assert [e][0] == e && e in [e];
    assert s.least == e.duration && (s.most == 0 || s.most == e.duration);
  }

  /** Before its first event a statistic counts nothing. */
  lemma StartCounts(bounds: seq<int>, first: int)
    ensures var s := Started(bounds, first);
            && Shaped(s) && s.count == s.errors == s.timeouts == s.total == 0 && s.bounds == bounds
            && forall b | 0 <= b < |s.histogram| :: s.histogram[b] == 0
  {
  }

  lemma StartSummarises(bounds: seq<int>, e: Event)
    ensures Summarises(Record(Started(bounds, e.duration), e), [e])
  {
    StartCounts(bounds, e.duration);
    StartExtremes(bounds, e);
    AppendEvent([], e, bounds);
    assert [] + [e] == [e];
  }

  // ----- Runs -----

  /** Recording with some thread's settings, or reconfiguring. */
  datatype Op = DoEmit(cfg: Config, fp: nat, event: Event) | DoConfigure(cfg: Config)

  /** The table, and for each statement in it the events recorded since it came in. */
  datatype World = World(table: Table, log: map<nat, seq<Event>>)

  function Logged(w: World, fp: nat): seq<Event> { if fp in w.log && fp in w.table.stats then w.log[fp] else [] }

  function Step(w: World, op: Op): World
    requires AllShaped(w.table)
  {
    match op
    case DoEmit(cfg, fp, event) =>
      World(Emit(w.table, cfg, fp, event), w.log[fp := Logged(w, fp) + [event]])
    case DoConfigure(cfg) => World(Configure(w.table, cfg), w.log)
  }

  ghost predicate Kept(w: World, fp: nat)
    requires fp in w.table.stats
  {
    fp in w.log && Summarises(w.table.stats[fp], w.log[fp])
  }

  ghost predicate Inv(w: World) {
    Aligned(w.table) && forall fp | fp in w.table.stats :: Kept(w, fp)
  }

  lemma InvShaped(w: World)
    requires Inv(w)
    ensures AllShaped(w.table)
  {
    forall fp | fp in w.table.stats ensures Shaped(w.table.stats[fp]) {
      assert Kept(w, fp);
    }
  }

  lemma RecordedKept(w: World, cfg: Config, fp: nat, e: Event)
    requires Inv(w) && AllShaped(w.table)
    ensures Summarises(Record(Current(w.table, cfg, fp, e), e), Logged(w, fp) + [e])
  {
    if fp in w.table.stats {
      assert Kept(w, fp);
      RecordSummarises(w.table.stats[fp], w.log[fp], e);
    } else {
      StartSummarises(cfg.bounds, e);
      assert [] + [e] == [e];
    }
  }

  lemma EmitInv(w: World, cfg: Config, fp: nat, e: Event)
    requires Inv(w) && AllShaped(w.table)
    ensures Inv(Step(w, DoEmit(cfg, fp, e)))
  {
    var v := Step(w, DoEmit(cfg, fp, e));
    EmitPlaces(w.table, cfg, fp, e);
    RecordedKept(w, cfg, fp, e);
    forall k | k in v.table.stats ensures Kept(v, k) {
      if k != fp {
        assert Kept(w, k);
      }
    }
  }

  lemma ConfigureInv(w: World, cfg: Config)
    requires Inv(w)
    ensures Inv(World(Configure(w.table, cfg), w.log)) && |Configure(w.table, cfg).stats| <= Normal(cfg.capacity)
  {
    var t := if BoundsChanged(w.table, cfg) then EmptyTable else w.table;
    ShrinkAligned(t, Normal(cfg.capacity));
    forall k | k in Configure(w.table, cfg).stats ensures Kept(World(Configure(w.table, cfg), w.log), k) {
      assert Kept(w, k);
    }
  }

  /** Any run of recordings and reconfigurations, from the empty table.  The keys always agree
      and every statistic summarises exactly the events logged for its statement. */
  ghost function Run(ops: seq<Op>): (w: World)
    ensures Inv(w)
  {
    if ops == [] then World(EmptyTable, map[])
    else
      var v, op := Run(ops[..|ops| - 1]), ops[|ops| - 1];
      InvShaped(v);
      if op.DoEmit? then
        EmitInv(v, op.cfg, op.fp, op.event);
        Step(v, op)
      else
        ConfigureInv(v, op.cfg);
        Step(v, op)
  }

  // ----- Derived facts -----

  lemma {:induction false} TotalBounds(es: seq<Event>, low: int, high: int)
    requires forall e | e in es :: low <= e.duration <= high
    ensures |es| * low <= Total(es) <= |es| * high
  {
    if es != [] {
      var init := es[..|es| - 1];
      TotalBounds(init, low, high);
      assert es[|es| - 1] in es;
      assert |es| * low == |init| * low + low && |es| * high == |init| * high + high;
    }
  }

  function Sum(h: seq<nat>): nat { if h == [] then 0 else Sum(h[..|h| - 1]) + h[|h| - 1] }

  /** How many events fell into a bucket before `b`. */
  function Below(es: seq<Event>, bounds: seq<int>, b: nat): nat {
    if es == [] then 0
    else Below(es[..|es| - 1], bounds, b) + (if Bucket(bounds, es[|es| - 1].duration, 0) < b then 1 else 0)
  }

  lemma {:induction false} BelowStep(es: seq<Event>, bounds: seq<int>, b: nat)
    ensures Below(es, bounds, b + 1) == Below(es, bounds, b) + InBucket(es, bounds, b)
    ensures Below(es, bounds, 0) == 0 && Below(es, bounds, |bounds| + 1) == |es|
  {
    if es != [] {
      BelowStep(es[..|es| - 1], bounds, b);
    }
  }

  lemma {:induction false} SumBelow(s: Stats, es: seq<Event>, b: nat)
    requires Summarises(s, es) && b <= |s.histogram|
    ensures Sum(s.histogram[..b]) == Below(es, s.bounds, b)
  {
    if b == 0 {
      BelowStep(es, s.bounds, 0);
    } else {
      SumBelow(s, es, b - 1);
      BelowStep(es, s.bounds, b - 1);
      assert s.histogram[..b][..b - 1] == s.histogram[..b - 1];
    }
  }

  lemma {:induction false} CountsOrdered(es: seq<Event>)
    ensures Timeouts(es) <= Errors(es) <= |es|
  {
    if es != [] {
      CountsOrdered(es[..|es| - 1]);
    }
  }

  /** The histogram adds up to the count, the extremes frame the total, and the error counts nest. */
  lemma SummaryAddsUp(s: Stats, es: seq<Event>)
    requires Summarises(s, es)
    ensures |s.histogram| == |s.bounds| + 1 && Sum(s.histogram) == s.count
    ensures s.count * s.least <= s.total <= s.count * s.most
    ensures s.timeouts <= s.errors <= s.count
  {
    SumBelow(s, es, |s.histogram|);
    BelowStep(es, s.bounds, |s.bounds|);
    assert s.histogram[..|s.histogram|] == s.histogram;
    TotalBounds(es, s.least, s.most);
    CountsOrdered(es);
  }

  // ----- The exporter -----

  /** The exported value of the bucket with bound `b`. */
  function Exported(s: Stats, b: nat): nat
    requires b < |s.histogram|
  {
    Sum(s.histogram[..b + 1])
  }

  method ExportBuckets(s: Stats) returns (values: seq<nat>)
    requires Shaped(s)
    ensures |values| == |s.bounds| && forall b | 0 <= b < |values| :: values[b] == Exported(s, b)
  {
    var n := if |s.bounds| <= |s.histogram| then |s.bounds| else |s.histogram|;
    var cumulative := 0;
    values := [];
    for b := 0 to n
      invariant |values| == b && cumulative == Sum(s.histogram[..b])
      invariant forall i | 0 <= i < b :: values[i] == Exported(s, i)
    {
      assert s.histogram[..b + 1][..b] == s.histogram[..b];
      cumulative := cumulative + s.histogram[b];
      values := values + [cumulative];
    }
  }

  /** How many events took at most `bound` milliseconds. */
  function Within(es: seq<Event>, bound: int): nat {
    if es == [] then 0 else Within(es[..|es| - 1], bound) + (if es[|es| - 1].duration <= bound * 1000 then 1 else 0)
  }

  /** The greatest of the bounds up to `b`. */
  function Reach(bounds: seq<int>, b: nat): int
    requires b < |bounds|
  {
    if b == 0 then bounds[0]
    else
      var before := Reach(bounds, b - 1);
      if bounds[b] >= before then bounds[b] else before
  }

  lemma {:induction false} BucketReach(bounds: seq<int>, b: nat, duration: int)
    requires b < |bounds|
    ensures Bucket(bounds, duration, 0) <= b <==> duration <= Reach(bounds, b) * 1000
  {
    if b > 0 {
      BucketReach(bounds, b - 1, duration);
    }
  }

  lemma {:induction false} BelowWithin(es: seq<Event>, bounds: seq<int>, b: nat)
    requires b < |bounds|
    ensures Below(es, bounds, b + 1) == Within(es, Reach(bounds, b))
  {
    if es != [] {
      BelowWithin(es[..|es| - 1], bounds, b);
      BucketReach(bounds, b, es[|es| - 1].duration);
    }
  }

  /** Whatever the bounds, a bucket exports the events within the greatest bound so far. */
  lemma ExportedCounts(s: Stats, es: seq<Event>, b: nat)
    requires Summarises(s, es) && b < |s.bounds|
    ensures Exported(s, b) == Within(es, Reach(s.bounds, b))
    ensures Exported(s, b) <= s.count
    ensures b > 0 ==> Exported(s, b - 1) <= Exported(s, b)
  {
    SumBelow(s, es, b + 1);
    BelowWithin(es, s.bounds, b);
    WithinCount(es, Reach(s.bounds, b));
    if b > 0 {
      assert s.histogram[..b + 1][..b] == s.histogram[..b];
    }
  }

  lemma {:induction false} WithinCount(es: seq<Event>, bound: int)
    ensures Within(es, bound) <= |es|
  {
    if es != [] {
      WithinCount(es[..|es| - 1], bound);
    }
  }

  predicate Ascending(bounds: seq<int>) { forall b | 0 < b < |bounds| :: bounds[b - 1] <= bounds[b] }

  lemma {:induction false} ReachAscending(bounds: seq<int>, b: nat)
    requires Ascending(bounds) && b < |bounds|
    ensures Reach(bounds, b) == bounds[b]
  {
    if b > 0 {
      ReachAscending(bounds, b - 1);
    }
  }

  /** With ascending bounds each exported bucket is the number of events within its own bound. */
  lemma ExportedExact(s: Stats, es: seq<Event>, b: nat)
    requires Summarises(s, es) && b < |s.bounds| && Ascending(s.bounds)
    ensures Exported(s, b) == Within(es, s.bounds[b])
  {
    ExportedCounts(s, es, b);
    ReachAscending(s.bounds, b);
  }

  /** Bounds that descend somewhere are told apart by one event: its bucket exports it although
      it is over that bucket's bound. */
  lemma DescendingMisreports(bounds: seq<int>, b: nat)
    requires 0 < b < |bounds| && bounds[b - 1] > bounds[b]
    ensures var e := Event(bounds[b - 1] * 1000, Done);
            var s := Record(Started(bounds, e.duration), e);
            Summarises(s, [e]) && Exported(s, b) == 1 && Within([e], bounds[b]) == 0
  {
    var e := Event(bounds[b - 1] * 1000, Done);
    var s := Record(Started(bounds, e.duration), e);
    StartSummarises(bounds, e);
    ExportedCounts(s, [e], b);
    assert [e][..0] == [] && [e][0] == e;
  }

  /** After any run, for every statement in the table. */
  lemma RunAddsUp(ops: seq<Op>, fp: nat)
    ensures var w := Run(ops);
            var t := w.table;
            && Lists(t.lru, t.stats.Keys) && t.indexed == t.stats.Keys
            && (fp in t.stats ==>
                var s := t.stats[fp];
                && |s.histogram| == |s.bounds| + 1 && Sum(s.histogram) == s.count == |w.log[fp]|
                && s.count * s.least <= s.total <= s.count * s.most
                && (Ascending(s.bounds) ==>
                    forall b | 0 <= b < |s.bounds| :: Exported(s, b) == Within(w.log[fp], s.bounds[b])))
  {
    var w := Run(ops);
    if fp in w.table.stats {
      assert Kept(w, fp);
      var s := w.table.stats[fp];
      SummaryAddsUp(s, w.log[fp]);
      if Ascending(s.bounds) {
        forall b | 0 <= b < |s.bounds| ensures Exported(s, b) == Within(w.log[fp], s.bounds[b]) {
          ExportedExact(s, w.log[fp], b);
        }
      }
    }
  }

  // ----- The code -----

  class State {
    var slowStats: map<nat, Stats>
    var lru: seq<nat>
    var lruPos: set<nat>

    ghost function View(): Table
      reads this
    {
      Table(slowStats, lru, lruPos)
    }

    constructor ()
      ensures View() == EmptyTable
    {
      slowStats, lru, lruPos := map[], [], {};
    }

    method TouchLru(fp: nat)
      modifies this`lru, this`lruPos
      ensures View() == Touch(old(View()), fp)
    {
      if fp !in lruPos {
        lru := [fp] + lru;
        lruPos := lruPos + {fp};
      } else {
        lru := [fp] + Without(lru, fp);
      }
    }

    method EvictOldest()
      modifies this
      ensures View() == EvictLru(old(View()))
    {
      if lru == [] {
        return;
      }
      var fp := lru[|lru| - 1];
      lru := lru[..|lru| - 1];
      lruPos := lruPos - {fp};
      slowStats := slowStats - {fp};
    }

    /** The section of event emission that runs under the statistics lock. */
    method RecordSlow(cfg: Config, fp: nat, e: Event)
      requires AllShaped(View())
      modifies this
      ensures View() == Emit(old(View()), cfg, fp, e)
    {
      var isNew := fp !in slowStats;
      var stats := if isNew then Started(cfg.bounds, e.duration) else slowStats[fp];
      if isNew && |slowStats| >= cfg.capacity {
        EvictOldest();
      }
      TouchLru(fp);
      stats := CountEvent(stats, e);
      slowStats := slowStats[fp := stats];
    }

    method ConfigureTable(cfg: Config)
      requires Aligned(View())
      modifies this
      ensures View() == Configure(old(View()), cfg)
    {
      var changed := exists fp | fp in slowStats :: slowStats[fp].bounds != cfg.bounds;
      if changed {
        slowStats, lru, lruPos := map[], [], {};
      }
      var capacity := if cfg.capacity < 1 then 1 else cfg.capacity;
      ghost var start := View();
      while |slowStats| > capacity
        invariant Aligned(View()) && Shrink(View(), capacity) == Shrink(start, capacity)
        decreases |slowStats|
      {
        NonEmptyList(View());
        EvictAligned(View());
        EvictOldest();
      }
    }
  }

  method CountEvent(s: Stats, e: Event) returns (r: Stats)
    requires Shaped(s)
    ensures r == Record(s, e)
  {
    var bucket := 0;
    while bucket < |s.bounds| && e.duration > s.bounds[bucket] * 1000
      invariant bucket <= |s.bounds| && Bucket(s.bounds, e.duration, bucket) == Bucket(s.bounds, e.duration, 0)
    {
      bucket := bucket + 1;
    }
    r := s.(count := s.count + 1, total := s.total + e.duration,
            histogram := s.histogram[bucket := s.histogram[bucket] + 1]);
    if !e.outcome.Done? {
      r := r.(errors := r.errors + 1);
    }
    if e.outcome.TimedOut? {
      r := r.(timeouts := r.timeouts + 1);
    }
    if e.duration < r.least {
      r := r.(least := e.duration);
    }
    if e.duration > r.most {
      r := r.(most := e.duration);
    }
  }
}
