/** What the query cache keeps: eviction takes no more than it must, a hit moves one entry, and
    without limits the cache is exactly the simple map. */
module QueryLaws {
  import opened Wrappers
  import opened Lru
  import opened QueryCache

  // ----- Eviction -----

  /** The `n` most recent entries, and what is to come in, are within the limits. */
  predicate Fits(c: Cache, n: nat, incoming: nat, reserve: bool)
    requires n <= |c.lru|
  {
    && (c.cfg.maxEntries > 0 ==> n + (if reserve then 1 else 0) <= c.cfg.maxEntries)
    && (c.cfg.maxBytes > 0 ==> Bytes(c.lru[..n], c.store) + incoming <= c.cfg.maxBytes)
  }

  /** `d` has the `n` most recent entries of `c`, as they were. */
  ghost predicate KeepsFirst(c: Cache, d: Cache, n: nat) {
    && n <= |c.lru| && d.lru == c.lru[..n] && d.cfg == c.cfg
    && (forall k | k in c.lru[..n] :: k in c.store && k in d.store && d.store[k] == c.store[k])
  }

  lemma OverUnlessFits(c: Cache, incoming: nat, reserve: bool)
    requires Sound(c)
    ensures Fits(c, |c.lru|, incoming, reserve) <==> !Over(c, incoming, reserve)
  {
    ListsSize(c.lru, c.store.Keys);
    assert |c.store.Keys| == |c.store| && c.lru[..|c.lru|] == c.lru;
  }

  lemma FitsAfterEvict(c: Cache, n: nat, incoming: nat, reserve: bool)
    requires Sound(c) && n < |c.lru|
    ensures Sound(EvictOne(c)) && EvictOne(c).lru == c.lru[..|c.lru| - 1]
    ensures Fits(EvictOne(c), n, incoming, reserve) <==> Fits(c, n, incoming, reserve)
  {
    EvictOneSound(c);
    var d := EvictOne(c);
    assert d.lru[..n] == c.lru[..n];
    assert forall k | k in d.lru[..n] :: k in d.lru && k in d.store;
    BytesAgree(d.lru[..n], d.store, c.store);
  }

  /** `d` has the longest run of the most recent entries of `c` that fits. */
  ghost predicate KeepsLongest(c: Cache, d: Cache, incoming: nat, reserve: bool) {
    && KeepsFirst(c, d, |d.lru|)
    && (d.lru != [] ==> Fits(c, |d.lru|, incoming, reserve))
    && (forall m | |d.lru| < m <= |c.lru| :: !Fits(c, m, incoming, reserve))
  }

  lemma LongestBefore(c: Cache, d: Cache, incoming: nat, reserve: bool)
    requires Sound(c) && c.lru != [] && Over(c, incoming, reserve) && KeepsLongest(EvictOne(c), d, incoming, reserve)
    ensures KeepsLongest(c, d, incoming, reserve) && |d.lru| < |c.lru|
  {
    var b, n := EvictOne(c), |d.lru|;
    EvictOneSound(c);
    OverUnlessFits(c, incoming, reserve);
    assert b.lru[..n] == c.lru[..n];
    FitsAfterEvict(c, n, incoming, reserve);
    forall m | n < m <= |c.lru| ensures !Fits(c, m, incoming, reserve) {
      if m < |c.lru| {
        FitsAfterEvict(c, m, incoming, reserve);
      }
    }
  }

  lemma EvictOneCounts(c: Cache)
    requires Sound(c) && c.lru != []
    ensures EvictOne(c).stats == c.stats.(evictions := c.stats.evictions + 1)
  {
    EvictOneSound(c);
  }

  /** Eviction keeps as many of the most recent entries as fit: what is gone could not have
      stayed, and what could stay did.  Each eviction is counted. */
  lemma {:induction false} EvictKeepsLongest(c: Cache, incoming: nat, reserve: bool)
    requires Sound(c)
    ensures var d := Evict(c, incoming, reserve);
            && KeepsLongest(c, d, incoming, reserve)
            && d.stats == c.stats.(evictions := c.stats.evictions + (|c.lru| - |d.lru|))
    decreases |c.lru|
  {
    if c.lru != [] && Over(c, incoming, reserve) {
      EvictOneSound(c);
      EvictOneCounts(c);
      EvictKeepsLongest(EvictOne(c), incoming, reserve);
      LongestBefore(c, Evict(c, incoming, reserve), incoming, reserve);
    } else {
      OverUnlessFits(c, incoming, reserve);
      assert c.lru[..|c.lru|] == c.lru;
    }
  }

  /** An accepted put of a new key comes in front of as many of the most recent entries as fit
      beside it. */
  lemma NewEntryKeepsLongest(c: Cache, ck: string, e: Entry)
    requires Sound(c) && ck !in c.store && (c.cfg.maxBytes > 0 ==> e.bytes <= c.cfg.maxBytes)
    ensures var d := Admit(c, ck, e);
            exists n ::
              && 0 <= n <= |c.lru| && d.lru == [ck] + c.lru[..n] && d.store[ck] == e
              && (forall k | k in c.lru[..n] :: k in d.store && d.store[k] == c.store[k])
              && (n > 0 ==> Fits(c, n, e.bytes, true))
              && (forall m | n < m <= |c.lru| :: !Fits(c, m, e.bytes, true))
  {
    var b := Evict(c, e.bytes, true);
    EvictKeepsLongest(c, e.bytes, true);
    var n := |b.lru|;
    assert forall k | k in c.lru[..n] :: k in c.lru && k in c.store && k != ck;
    assert Admit(c, ck, e) == Insert(b, ck, e);
    assert Insert(b, ck, e).lru == [ck] + c.lru[..n];
  }

  /** Replacing an entry moves it to the front and keeps as many of the most recent ones as fit. */
  lemma ReplaceKeepsLongest(c: Cache, ck: string, e: Entry)
    requires Sound(c) && ck in c.store && (c.cfg.maxBytes > 0 ==> e.bytes <= c.cfg.maxBytes)
    ensures var s, d := Swap(c, ck, e), Admit(c, ck, e);
            && s.lru == [ck] + Without(c.lru, ck) && d.lru != [] && KeepsLongest(s, d, 0, false)
            && (forall k | k in c.store && k != ck :: s.store[k] == c.store[k])
  {
    SwapSound(c, ck, e);
    EvictKeepsLongest(Swap(c, ck, e), 0, false);
    AdmitSound(c, ck, e);
  }

  // ----- Reading -----

  /** A hit moves its entry to the front and nothing else; an expired entry leaves alone.  Each is
      counted, and a call that finds the cache off is not. */
  lemma GetMoves(c: Cache, gate: bool, source: string, key: string, now: int)
    requires Sound(c)
    ensures var (d, r) := Get(c, gate, source, key, now);
            var ck := CompositeKey(source, key);
            && (r.Some? ==> exists i :: 0 <= i < |c.lru| && c.lru[i] == ck
                                        && d.lru == [ck] + (c.lru[..i] + c.lru[i + 1..]))
            && (r.None? && d.store != c.store ==> exists i :: 0 <= i < |c.lru| && c.lru[i] == ck
                                                              && d.lru == c.lru[..i] + c.lru[i + 1..])
            && (r.None? && d.store == c.store ==> d.lru == c.lru)
            && d.stats == c.stats.(hits := c.stats.hits + (if r.Some? then 1 else 0),
                                   misses := c.stats.misses + (if gate && c.cfg.enabled && r.None? then 1 else 0))
  {
    var ck := CompositeKey(source, key);
    if gate && c.cfg.enabled && ck in c.store {
      assert ck in c.lru;
      var i :| 0 <= i < |c.lru| && c.lru[i] == ck;
      WithoutSplits(c.lru, i);
    }
  }

  // ----- Invalidating -----

  /** Invalidation keeps the other entries in their order. */
  lemma {:induction false} OthersInOrder(a: seq<string>, b: seq<string>, source: string)
    ensures Others(a + b, source) == Others(a, source) + Others(b, source)
    ensures forall k :: Others([k], source) == if OwnedBy(k, source) then [] else [k]
  {
    if a == [] {
      assert a + b == b;
    } else {
      assert (a + b)[1..] == a[1..] + b;
      OthersInOrder(a[1..], b, source);
    }
  }

  /** Each entry that an invalidation removes is counted; a call that finds the cache off does nothing. */
  lemma InvalidateCounts(c: Cache, gate: bool, source: string)
    requires Sound(c) && WithinLimits(c)
    ensures var d := Invalidate(c, gate, source);
            && (!gate ==> d == c)
            && d.stats == c.stats.(invalidations := c.stats.invalidations + (|c.store| - |d.store|))
            && |d.store| <= |c.store|
  {
    if gate {
      var d := Invalidate(c, gate, source);
      assert c.store.Keys == d.store.Keys + Owned(c, source) && d.store.Keys !! Owned(c, source);
      assert |c.store.Keys| == |c.store| && |d.store.Keys| == |d.store|;
    }
  }

  // ----- Without limits the cache forgets nothing -----

  predicate Unlimited(cfg: Config) { cfg.maxEntries <= 0 && cfg.maxBytes <= 0 }

  ghost predicate UnlimitedRun(ops: seq<Op>) { forall op | op in ops :: op.DoConfigure? ==> Unlimited(op.cfg) }

  /** No get looked at the clock after `now`. */
  ghost predicate ReadBefore(ops: seq<Op>, now: int) { forall op | op in ops :: op.DoGet? ==> op.now <= now }

  lemma AdmitUnlimited(c: Cache, ck: string, e: Entry)
    requires Unlimited(c.cfg)
    ensures Admit(c, ck, e).store == c.store[ck := e]
  {
  }

  ghost predicate Remembers(c: Cache, cfg: Config, ops: seq<Op>, k: string, now: int) {
    var slot := Latest(cfg, ops, k);
    slot.Some? && slot.value.expire > now ==> k in c.store
  }

  lemma {:induction false} ConfigUnlimited(cfg: Config, ops: seq<Op>)
    requires Unlimited(cfg) && UnlimitedRun(ops)
    ensures Unlimited(ConfigAfter(cfg, ops))
  {
    if ops != [] {
      assert ops[|ops| - 1] in ops;
      if !ops[|ops| - 1].DoConfigure? {
        ConfigUnlimited(cfg, ops[..|ops| - 1]);
      }
    }
  }

  lemma GetRemembers(c: Cache, cfg: Config, before: seq<Op>, op: Op, k: string, now: int)
    requires Refines(c, cfg, before) && Remembers(c, cfg, before, k, now) && op.DoGet? && op.now <= now
    ensures Latest(cfg, before + [op], k) == Latest(cfg, before, k)
    ensures Remembers(Step(c, op), cfg, before + [op], k, now)
  {
    var ops := before + [op];
    assert ops[..|ops| - 1] == before && ops[|ops| - 1] == op;
    GetSound(c, op.gate, op.source, op.key, op.now);
    if k in c.store {
      assert Current(c, cfg, before, k);
    }
  }

  lemma PutRemembers(c: Cache, cfg: Config, before: seq<Op>, op: Op, k: string, now: int)
    requires Refines(c, cfg, before) && Remembers(c, cfg, before, k, now) && op.DoPut? && Unlimited(c.cfg)
    ensures Remembers(Step(c, op), cfg, before + [op], k, now)
  {
    LatestAfterPut(cfg, before, op, k);
    PutAdmits(c, op.gate, op.source, op.key, op.rows, op.bytes, op.now);
    if Accepts(c.cfg, op.gate, op.bytes) {
      AdmitUnlimited(c, CompositeKey(op.source, op.key), Entry(op.rows, op.bytes, op.now + c.cfg.ttl));
    }
  }

  lemma InvalidateRemembers(c: Cache, cfg: Config, before: seq<Op>, op: Op, k: string, now: int)
    requires Refines(c, cfg, before) && Remembers(c, cfg, before, k, now) && op.DoInvalidate?
    ensures Remembers(Step(c, op), cfg, before + [op], k, now)
  {
    var ops := before + [op];
    assert ops[..|ops| - 1] == before && ops[|ops| - 1] == op;
    InvalidateSound(c, op.gate, op.source);
  }

  lemma {:induction false} RunRemembers(cfg: Config, ops: seq<Op>, k: string, now: int)
    requires Unlimited(cfg) && UnlimitedRun(ops) && ReadBefore(ops, now)
    ensures Remembers(Run(Fresh(cfg), ops), cfg, ops, k, now)
  {
    if ops != [] {
      var before, op := ops[..|ops| - 1], ops[|ops| - 1];
      assert op in ops && forall x | x in before :: x in ops;
      RunRemembers(cfg, before, k, now);
      RunRefines(cfg, before);
      ConfigUnlimited(cfg, before);
      var c := Run(Fresh(cfg), before);
      assert before + [op] == ops;
      match op
      case DoConfigure(_) =>
      case DoGet(_, _, _, _) => GetRemembers(c, cfg, before, op, k, now);
      case DoPut(_, _, _, _, _, _) => PutRemembers(c, cfg, before, op, k, now);
      case DoInvalidate(_, _) => InvalidateRemembers(c, cfg, before, op, k, now);
    }
  }

  /** Without limits, after any run, a get hits exactly if the cache is on and the latest accepted
      put of the key still stands and has not expired; and it returns what that put stored. */
  lemma HitsExactly(cfg: Config, ops: seq<Op>, gate: bool, source: string, key: string, now: int)
    requires Unlimited(cfg) && UnlimitedRun(ops) && ReadBefore(ops, now)
    ensures var hit := Get(Run(Fresh(cfg), ops), gate, source, key, now).1;
            var slot := Latest(cfg, ops, CompositeKey(source, key));
            && (hit.Some? <==> gate && ConfigAfter(cfg, ops).enabled && slot.Some? && slot.value.expire > now)
            && (hit.Some? ==> hit.value == slot.value.rows)
  {
    var c, ck := Run(Fresh(cfg), ops), CompositeKey(source, key);
    RunRefines(cfg, ops);
    RunRemembers(cfg, ops, ck, now);
    GetSound(c, gate, source, key, now);
    if ck in c.store {
      assert Current(c, cfg, ops, ck);
    }
  }
}
