/** The query cache: a bounded, expiring store with a recency list.  Over every run it behaves
    like a simple map that forgets nothing but what was replaced, invalidated or cleared. */
module QueryCache {
  import opened Wrappers
  import opened Lru

  /** Non-positive limits mean no limit. */
  datatype Config = Config(enabled: bool, ttl: int, maxEntries: int, maxBytes: int)

  /** A result set stands for itself; its measured size comes with it. */
  type ResultSet = seq<string>

  datatype Entry = Entry(rows: ResultSet, bytes: nat, expire: int)

  datatype Stats = Stats(hits: nat, misses: nat, evictions: nat, invalidations: nat)

  datatype Cache = Cache(cfg: Config, store: map<string, Entry>, lru: seq<string>, total: nat, stats: Stats)

  // ----- Keys -----

  const Nul: char := '\0'

  predicate NulFree(name: string) { Nul !in name }

  function CompositeKey(source: string, key: string): string { source + [Nul] + key }

  predicate HasPrefix(s: string, prefix: string) { |prefix| <= |s| && s[..|prefix|] == prefix }

  /** The test by which a data source's entries are recognised. */
  predicate OwnedBy(ck: string, source: string) { HasPrefix(ck, CompositeKey(source, "")) }

  /** The name `b` goes on with a NUL where the name `a` ends. */
  predicate NulAfter(a: string, b: string) { HasPrefix(b, a + [Nul]) }

  lemma NulFreeApart(a: string, b: string)
    requires NulFree(b)
    ensures !NulAfter(a, b)
  {
    if |a| < |b| {
      assert b[|a|] in b && b[..|a| + 1][|a|] == b[|a|] && (a + [Nul])[|a|] == Nul;
    }
  }

  /** Equal texts that differ in where the separator stands. */
  lemma SplitsAgree(a: string, k: string, b: string, l: string)
    requires CompositeKey(a, k) == CompositeKey(b, l) && |a| < |b|
    ensures NulAfter(a, b)
  {
    var s := CompositeKey(a, k);
    assert s[..|a| + 1] == a + [Nul];
    assert s[..|b|] == b;
    assert b[..|a| + 1] == s[..|b|][..|a| + 1] == s[..|a| + 1];
  }

  lemma SplitsTogether(a: string, k: string, l: string)
    requires CompositeKey(a, k) == CompositeKey(a, l)
    ensures k == l
  {
    assert CompositeKey(a, k)[|a| + 1..] == k && CompositeKey(a, l)[|a| + 1..] == l;
  }

  lemma SharedWhen(a: string, b: string)
    requires NulAfter(a, b)
    ensures CompositeKey(a, b[|a| + 1..] + [Nul]) == CompositeKey(b, "")
  {
    assert b == a + [Nul] + b[|a| + 1..];
  }

  /** Two names share a composite key exactly if they are equal or one goes on with a NUL where
      the other ends. */
  lemma KeysShared(a: string, b: string)
    ensures (exists k, l :: CompositeKey(a, k) == CompositeKey(b, l)) <==> a == b || NulAfter(a, b) || NulAfter(b, a)
  {
    if k, l :| CompositeKey(a, k) == CompositeKey(b, l) {
      if |a| < |b| {
        SplitsAgree(a, k, b, l);
      } else if |b| < |a| {
        SplitsAgree(b, l, a, k);
      } else {
        assert CompositeKey(a, k)[..|a|] == a && CompositeKey(b, l)[..|b|] == b;
      }
    }
    if a == b {
      assert CompositeKey(a, "") == CompositeKey(b, "");
    } else if NulAfter(a, b) {
      SharedWhen(a, b);
    } else if NulAfter(b, a) {
      SharedWhen(b, a);
    }
  }

  /** Whether the test of source `a` recognises the entry of `b` and `l`. */
  predicate Recognised(a: string, b: string, l: string) {
    a == b || NulAfter(a, b) || (NulAfter(b, a) && HasPrefix(l, a[|b| + 1..] + [Nul]))
  }

  lemma OwnedWhen(a: string, b: string, l: string)
    ensures OwnedBy(CompositeKey(b, l), a) <==> Recognised(a, b, l)
  {
    var t, p := CompositeKey(b, l), a + [Nul];
    assert CompositeKey(a, "") == p && t[..|b| + 1] == b + [Nul] && t[|b| + 1..] == l && t[..|b|] == b;
    if |a| < |b| {
      assert t[..|p|] == t[..|b|][..|p|] == b[..|p|];
    } else if |a| == |b| {
      assert t[..|p|] == b + [Nul];
      assert p[..|a|] == a && (b + [Nul])[..|a|] == b;
    } else if |p| <= |t| {
      var rest := a[|b| + 1..] + [Nul];
      assert p == a[..|b| + 1] + rest;
      assert t[..|p|] == (b + [Nul]) + l[..|rest|];
      assert t[..|p|] == p <==> a[..|b| + 1] == b + [Nul] && l[..|rest|] == rest by {
        assert t[..|p|][..|b| + 1] == b + [Nul] && p[..|b| + 1] == a[..|b| + 1];
        assert t[..|p|][|b| + 1..] == l[..|rest|] && p[|b| + 1..] == rest;
      }
    }
  }

  /** If neither name goes on with a NUL where the other ends, a composite key belongs to one
      source and one key, and the prefix test recognises exactly the source's own. */
  lemma CompositeKeyInjective(a: string, k: string, b: string, l: string)
    requires !NulAfter(a, b) && !NulAfter(b, a)
    ensures CompositeKey(a, k) == CompositeKey(b, l) <==> a == b && k == l
    ensures OwnedBy(CompositeKey(b, l), a) <==> a == b
  {
    KeysShared(a, b);
    OwnedWhen(a, b, l);
    if CompositeKey(a, k) == CompositeKey(b, l) {
      SplitsTogether(a, k, l);
    }
  }

  /** A NUL in a name makes two sources share entries. */
  lemma NulNamesCollide(a: string, b: string, key: string)
    ensures CompositeKey(a, b + [Nul] + key) == CompositeKey(a + [Nul] + b, key)
    ensures OwnedBy(CompositeKey(a + [Nul] + b, key), a)
  {
    var p := CompositeKey(a, "");
    assert p == a + [Nul];
    assert CompositeKey(a + [Nul] + b, key)[..|p|] == p;
  }

  // ----- The critical sections -----

  function Less(total: nat, bytes: nat): nat { total - (if bytes <= total then bytes else total) }

  function Erase(c: Cache, ck: string): Cache
    requires ck in c.store
  {
    c.(total := Less(c.total, c.store[ck].bytes), lru := Without(c.lru, ck), store := c.store - {ck})
  }

  predicate Over(c: Cache, incoming: nat, reserve: bool) {
    || (c.cfg.maxEntries > 0 && if reserve then |c.store| >= c.cfg.maxEntries else |c.store| > c.cfg.maxEntries)
    || (c.cfg.maxBytes > 0 && c.total + incoming > c.cfg.maxBytes)
  }

  function EvictOne(c: Cache): Cache
    requires c.lru != []
  {
    var victim := c.lru[|c.lru| - 1];
    if victim !in c.store then c.(lru := c.lru[..|c.lru| - 1])
    else Erase(c, victim).(stats := c.stats.(evictions := c.stats.evictions + 1))
  }

  lemma EvictOneShrinks(c: Cache)
    requires c.lru != []
    ensures |EvictOne(c).lru| < |c.lru|
  {
    WithoutMembers(c.lru, c.lru[|c.lru| - 1]);
  }

  function Evict(c: Cache, incoming: nat, reserve: bool): Cache
    decreases |c.lru|
  {
    if c.lru == [] || !Over(c, incoming, reserve) then c
    else
      EvictOneShrinks(c);
      Evict(EvictOne(c), incoming, reserve)
  }

  function Configure(c: Cache, cfg: Config): Cache {
    c.(cfg := cfg, store := map[], lru := [], total := 0)
  }

  function Missed(c: Cache): Cache { c.(stats := c.stats.(misses := c.stats.misses + 1)) }

  /** `gate` is what the unlocked read of the enabled flag returned. */
  function Get(c: Cache, gate: bool, source: string, key: string, now: int): (Cache, Option<ResultSet>) {
    var ck := CompositeKey(source, key);
    if !gate || !c.cfg.enabled then (c, None)
    else if ck !in c.store then (Missed(c), None)
    else if c.store[ck].expire <= now then (Missed(Erase(c, ck)), None)
    else (c.(lru := [ck] + Without(c.lru, ck), stats := c.stats.(hits := c.stats.hits + 1)), Some(c.store[ck].rows))
  }

  predicate Accepts(cfg: Config, gate: bool, bytes: nat) {
    gate && cfg.enabled && cfg.ttl > 0 && !(cfg.maxBytes > 0 && bytes > cfg.maxBytes)
  }

  function Replace(c: Cache, ck: string, e: Entry): Cache
    requires ck in c.store
  {
    Evict(Swap(c, ck, e), 0, false)
  }

  function Swap(c: Cache, ck: string, e: Entry): Cache
    requires ck in c.store
  {
    c.(total := Less(c.total, c.store[ck].bytes) + e.bytes, store := c.store[ck := e],
       lru := [ck] + Without(c.lru, ck))
  }

  function Insert(c: Cache, ck: string, e: Entry): Cache {
    c.(total := c.total + e.bytes, store := c.store[ck := e], lru := [ck] + c.lru)
  }

  function Admit(c: Cache, ck: string, e: Entry): Cache {
    if ck in c.store then Replace(c, ck, e) else Insert(Evict(c, e.bytes, true), ck, e)
  }

  function Put(c: Cache, gate: bool, source: string, key: string, rows: ResultSet, bytes: nat, now: int): Cache {
    if Accepts(c.cfg, gate, bytes) then Admit(c, CompositeKey(source, key), Entry(rows, bytes, now + c.cfg.ttl))
    else c
  }

  lemma PutAdmits(c: Cache, gate: bool, source: string, key: string, rows: ResultSet, bytes: nat, now: int)
    ensures Accepts(c.cfg, gate, bytes) ==>
              Put(c, gate, source, key, rows, bytes, now)
              == Admit(c, CompositeKey(source, key), Entry(rows, bytes, now + c.cfg.ttl))
    ensures !Accepts(c.cfg, gate, bytes) ==> Put(c, gate, source, key, rows, bytes, now) == c
  {
  }

  /** `lru` without the entries of a source. */
  function Others(lru: seq<string>, source: string): seq<string> {
    if lru == [] then []
    else if OwnedBy(lru[0], source) then Others(lru[1..], source)
    else [lru[0]] + Others(lru[1..], source)
  }

  /** The bytes of the listed entries. */
  function Bytes(lru: seq<string>, store: map<string, Entry>): nat {
    if lru == [] then 0 else (if lru[0] in store then store[lru[0]].bytes else 0) + Bytes(lru[1..], store)
  }

  function Owned(c: Cache, source: string): set<string> { set k | k in c.store && OwnedBy(k, source) }

  function Invalidate(c: Cache, gate: bool, source: string): Cache {
    if !gate then c
    else
      var store := c.store - Owned(c, source);
      var lru := Others(c.lru, source);
      c.(store := store, lru := lru, total := Bytes(lru, store),
         stats := c.stats.(invalidations := c.stats.invalidations + |Owned(c, source)|))
  }

  // ----- The invariant -----

  /** Store and recency list hold the same keys, and the total is the sum of the entries. */
  ghost predicate Sound(c: Cache) {
    Lists(c.lru, c.store.Keys) && c.total == Bytes(c.lru, c.store)
  }

  predicate WithinLimits(c: Cache) {
    && (c.cfg.maxEntries > 0 ==> |c.store| <= c.cfg.maxEntries)
    && (c.cfg.maxBytes > 0 ==> c.total <= c.cfg.maxBytes)
  }

  lemma {:induction false} BytesWithout(lru: seq<string>, store: map<string, Entry>, k: string)
    requires Distinct(lru) && k in lru && k in store
    ensures Bytes(lru, store) == Bytes(Without(lru, k), store) + store[k].bytes
  {
    if lru[0] == k {
      WithoutAbsent(lru[1..], k);
    } else {
      BytesWithout(lru[1..], store, k);
    }
  }

  lemma {:induction false} BytesAgree(lru: seq<string>, s: map<string, Entry>, t: map<string, Entry>)
    requires forall k | k in lru :: k in s && k in t && s[k].bytes == t[k].bytes
    ensures Bytes(lru, s) == Bytes(lru, t)
  {
    if lru != [] {
      BytesAgree(lru[1..], s, t);
    }
  }

  /** Nothing is ever clamped. */
  lemma EraseSound(c: Cache, ck: string)
    requires Sound(c) && ck in c.store
    ensures Sound(Erase(c, ck)) && Erase(c, ck).total + c.store[ck].bytes == c.total
  {
    var d := Erase(c, ck);
    ListsRemove(c.lru, c.store.Keys, ck);
    assert d.store.Keys == c.store.Keys - {ck};
    BytesWithout(c.lru, c.store, ck);
    BytesAgree(d.lru, c.store, d.store);
  }

  lemma ToFrontSound(c: Cache, ck: string)
    requires Sound(c) && ck in c.store
    ensures Sound(c.(lru := [ck] + Without(c.lru, ck)))
  {
    ListsToFront(c.lru, c.store.Keys, ck);
    BytesWithout(c.lru, c.store, ck);
    assert ([ck] + Without(c.lru, ck))[1..] == Without(c.lru, ck);
  }

  lemma InsertSound(c: Cache, ck: string, e: Entry)
    requires Sound(c) && ck !in c.store
    ensures Sound(Insert(c, ck, e))
  {
    var d := Insert(c, ck, e);
    ListsPushFront(c.lru, c.store.Keys, ck);
    assert d.store.Keys == c.store.Keys + {ck};
    BytesAgree(c.lru, c.store, d.store);
    assert d.lru[1..] == c.lru;
  }

  lemma SwapSound(c: Cache, ck: string, e: Entry)
    requires Sound(c) && ck in c.store
    ensures Sound(Swap(c, ck, e))
  {
    EraseSound(c, ck);
    InsertSound(Erase(c, ck), ck, e);
    assert (c.store - {ck})[ck := e] == c.store[ck := e];
  }

  /** Every entry left is one that was there. */
  predicate Kept(c: Cache, d: Cache) {
    d.cfg == c.cfg && forall k | k in d.store :: k in c.store && d.store[k] == c.store[k]
  }

  predicate KeptBut(c: Cache, ck: string, d: Cache) {
    d.cfg == c.cfg && forall k | k in d.store && k != ck :: k in c.store && d.store[k] == c.store[k]
  }

  lemma EvictOneSound(c: Cache)
    requires Sound(c) && c.lru != []
    ensures Sound(EvictOne(c)) && Kept(c, EvictOne(c))
    ensures var k := c.lru[|c.lru| - 1]; k in c.store && EvictOne(c).store == c.store - {k}
    ensures EvictOne(c).total <= c.total && EvictOne(c).lru == c.lru[..|c.lru| - 1]
  {
    var victim := c.lru[|c.lru| - 1];
    ListsPopBack(c.lru, c.store.Keys);
    EraseSound(c, victim);
    DistinctInit(c.lru);
    WithoutLast(c.lru[..|c.lru| - 1], victim);
    assert c.lru == c.lru[..|c.lru| - 1] + [victim];
  }

  lemma {:induction false} WithoutLast(xs: seq<string>, k: string)
    requires k !in xs
    ensures Without(xs + [k], k) == xs
  {
    if xs == [] {
      assert xs + [k] == [k];
    } else {
      assert (xs + [k])[1..] == xs[1..] + [k];
      WithoutLast(xs[1..], k);
    }
  }

  lemma {:induction false} EvictSound(c: Cache, incoming: nat, reserve: bool)
    requires Sound(c)
    ensures var d := Evict(c, incoming, reserve);
            && Sound(d) && Kept(c, d) && (d.lru == [] || !Over(d, incoming, reserve))
            && d.total <= c.total && |d.lru| <= |c.lru| && d.lru == c.lru[..|d.lru|]
    decreases |c.lru|
  {
    if c.lru != [] && Over(c, incoming, reserve) {
      EvictOneSound(c);
      EvictSound(EvictOne(c), incoming, reserve);
    }
  }

  /** A loop that stopped because nothing was left has emptied the cache. */
  lemma EmptySound(c: Cache)
    requires Sound(c) && c.lru == []
    ensures c.store == map[] && c.total == 0
  {
    ListsSize(c.lru, c.store.Keys);
  }

  /** An accepted put leaves its entry in front. */
  ghost predicate Holds(c: Cache, ck: string, e: Entry) {
    ck in c.store && c.store[ck] == e && c.lru != [] && c.lru[0] == ck
  }

  lemma ReplaceSound(c: Cache, ck: string, e: Entry)
    requires Sound(c) && ck in c.store && (c.cfg.maxBytes > 0 ==> e.bytes <= c.cfg.maxBytes)
    ensures var d := Replace(c, ck, e); Sound(d) && WithinLimits(d) && Holds(d, ck, e)
    ensures KeptBut(c, ck, Replace(c, ck, e))
  {
    SwapSound(c, ck, e);
    FrontSurvives(Swap(c, ck, e), ck);
  }

  /** Eviction takes from the back, and the front entry alone is never too much. */
  lemma {:induction false} FrontSurvives(c: Cache, ck: string)
    requires Sound(c) && c.lru != [] && c.lru[0] == ck
    requires c.cfg.maxBytes > 0 ==> c.store[ck].bytes <= c.cfg.maxBytes
    ensures var d := Evict(c, 0, false);
            Sound(d) && Kept(c, d) && WithinLimits(d) && d.lru != [] && d.lru[0] == ck && ck in d.store
    decreases |c.lru|
  {
    ListsSize(c.lru, c.store.Keys);
    assert |c.store.Keys| == |c.store|;
    if Over(c, 0, false) {
      if |c.lru| == 1 {
        assert c.lru[1..] == [];
      }
      EvictOneSound(c);
      FrontSurvives(EvictOne(c), ck);
    }
  }

  lemma AddSound(c: Cache, ck: string, e: Entry)
    requires Sound(c) && ck !in c.store && (c.cfg.maxBytes > 0 ==> e.bytes <= c.cfg.maxBytes)
    ensures var d := Insert(Evict(c, e.bytes, true), ck, e); Sound(d) && WithinLimits(d) && Holds(d, ck, e)
    ensures KeptBut(c, ck, Insert(Evict(c, e.bytes, true), ck, e))
  {
    var b := Evict(c, e.bytes, true);
    EvictSound(c, e.bytes, true);
    InsertSound(b, ck, e);
    if b.lru == [] {
      EmptySound(b);
    }
  }

  /** An accepted put leaves its own key present and the limits met; nothing else appears. */
  lemma AdmitSound(c: Cache, ck: string, e: Entry)
    requires Sound(c) && (c.cfg.maxBytes > 0 ==> e.bytes <= c.cfg.maxBytes)
    ensures var d := Admit(c, ck, e); Sound(d) && WithinLimits(d) && Holds(d, ck, e) && KeptBut(c, ck, d)
  {
    if ck in c.store {
      ReplaceSound(c, ck, e);
    } else {
      AddSound(c, ck, e);
    }
  }

  lemma GetSound(c: Cache, gate: bool, source: string, key: string, now: int)
    requires Sound(c) && WithinLimits(c)
    ensures var (d, r) := Get(c, gate, source, key, now);
            var ck := CompositeKey(source, key);
            && Sound(d) && WithinLimits(d) && Kept(c, d)
            && (r.Some? <==> gate && c.cfg.enabled && ck in c.store && c.store[ck].expire > now)
            && (r.Some? ==> r.value == c.store[ck].rows && d.store == c.store)
            && (r.None? ==> d.store == c.store || (d.store == c.store - {ck} && c.store[ck].expire <= now))
  {
    var ck := CompositeKey(source, key);
    if gate && c.cfg.enabled && ck in c.store {
      if c.store[ck].expire <= now {
        EraseSound(c, ck);
      } else {
        ToFrontSound(c, ck);
      }
    }
  }

  // ----- Invalidation -----

  lemma {:induction false} OthersLists(lru: seq<string>, source: string)
    requires Distinct(lru)
    ensures Distinct(Others(lru, source))
    ensures forall k :: k in Others(lru, source) <==> k in lru && !OwnedBy(k, source)
  {
    if lru != [] {
      OthersLists(lru[1..], source);
      assert lru == [lru[0]] + lru[1..];
      if !OwnedBy(lru[0], source) {
        assert Others(lru, source)[1..] == Others(lru[1..], source);
      }
    }
  }

  lemma {:induction false} OthersBytes(lru: seq<string>, source: string, s: map<string, Entry>, t: map<string, Entry>)
    requires forall k | k in lru :: k in s && (!OwnedBy(k, source) ==> k in t && t[k] == s[k])
    ensures Bytes(Others(lru, source), t) <= Bytes(lru, s)
  {
    if lru != [] {
      OthersBytes(lru[1..], source, s, t);
      if !OwnedBy(lru[0], source) {
        assert lru[0] in lru;
        assert Others(lru, source)[1..] == Others(lru[1..], source);
      }
    }
  }

  /** Exactly the entries of the source go. */
  lemma InvalidateSound(c: Cache, gate: bool, source: string)
    requires Sound(c) && WithinLimits(c)
    ensures var d := Invalidate(c, gate, source);
            && Sound(d) && WithinLimits(d) && Kept(c, d)
            && (gate ==> forall k | k in c.store :: k in d.store <==> !OwnedBy(k, source))
  {
    if gate {
      var d := Invalidate(c, gate, source);
      OthersLists(c.lru, source);
      OthersBytes(c.lru, source, c.store, d.store);
      assert d.store.Keys <= c.store.Keys;
      Fewer(d.store.Keys, c.store.Keys);
    }
  }

  lemma {:induction false} Fewer(a: set<string>, b: set<string>)
    requires a <= b
    ensures |a| <= |b|
  {
    assert |b| == |a| + |b - a| by { assert b == a + (b - a); }
  }

  // ----- Runs -----

  /** The operations of any number of threads, in the order in which they hold the lock. */
  datatype Op =
    | DoConfigure(cfg: Config)
    | DoGet(gate: bool, source: string, key: string, now: int)
    | DoPut(gate: bool, source: string, key: string, rows: ResultSet, bytes: nat, now: int)
    | DoInvalidate(gate: bool, source: string)

  function Step(c: Cache, op: Op): Cache {
    match op
    case DoConfigure(cfg) => Configure(c, cfg)
    case DoGet(gate, source, key, now) => Get(c, gate, source, key, now).0
    case DoPut(gate, source, key, rows, bytes, now) => Put(c, gate, source, key, rows, bytes, now)
    case DoInvalidate(gate, source) => Invalidate(c, gate, source)
  }

  function Run(start: Cache, ops: seq<Op>): Cache {
    if ops == [] then start else Step(Run(start, ops[..|ops| - 1]), ops[|ops| - 1])
  }

  function Fresh(cfg: Config): Cache { Cache(cfg, map[], [], 0, Stats(0, 0, 0, 0)) }

  // The simple map: what the last operations on a key say about it.

  datatype Slot = Slot(rows: ResultSet, expire: int)

  function ConfigAfter(cfg: Config, ops: seq<Op>): Config {
    if ops == [] then cfg
    else
      var op := ops[|ops| - 1];
      if op.DoConfigure? then op.cfg else ConfigAfter(cfg, ops[..|ops| - 1])
  }

  /** The latest accepted put of `ck`, unless its source was invalidated or the cache cleared since. */
  function Latest(cfg: Config, ops: seq<Op>, ck: string): Option<Slot> {
    if ops == [] then None
    else
      var before := ops[..|ops| - 1];
      match ops[|ops| - 1]
      case DoConfigure(_) => None
      case DoGet(_, _, _, _) => Latest(cfg, before, ck)
      case DoInvalidate(gate, source) => if gate && OwnedBy(ck, source) then None else Latest(cfg, before, ck)
      case DoPut(gate, source, key, rows, bytes, now) =>
        var current := ConfigAfter(cfg, before);
        if CompositeKey(source, key) == ck && Accepts(current, gate, bytes) then Some(Slot(rows, now + current.ttl))
        else Latest(cfg, before, ck)
  }

  /** Everything stored is the latest word on its key. */
  ghost predicate Refines(c: Cache, cfg: Config, ops: seq<Op>) {
    && Sound(c) && WithinLimits(c) && c.cfg == ConfigAfter(cfg, ops)
    && forall k | k in c.store :: Current(c, cfg, ops, k)
  }

  lemma StepRefines(c: Cache, cfg: Config, ops: seq<Op>, op: Op)
    requires Refines(c, cfg, ops)
    ensures Refines(Step(c, op), cfg, ops + [op])
  {
    var all := ops + [op];
    assert all[..|all| - 1] == ops && all[|all| - 1] == op;
    match op
    case DoConfigure(_) =>
    case DoGet(gate, source, key, now) =>
      GetSound(c, gate, source, key, now);
    case DoInvalidate(gate, source) =>
      InvalidateSound(c, gate, source);
    case DoPut(gate, source, key, rows, bytes, now) =>
      PutRefines(c, cfg, ops, op);
  }

  /** One key of the store says the latest word. */
  ghost predicate Current(c: Cache, cfg: Config, ops: seq<Op>, k: string)
    requires k in c.store
  {
    Latest(cfg, ops, k) == Some(Slot(c.store[k].rows, c.store[k].expire))
  }

  lemma PutCurrent(c: Cache, cfg: Config, ops: seq<Op>, op: Op, d: Cache, k: string)
    requires op.DoPut? && k in d.store && c.cfg == ConfigAfter(cfg, ops)
    requires forall j | j in c.store :: Current(c, cfg, ops, j)
    requires if Accepts(c.cfg, op.gate, op.bytes)
             then var ck := CompositeKey(op.source, op.key);
                  Holds(d, ck, Entry(op.rows, op.bytes, op.now + c.cfg.ttl)) && KeptBut(c, ck, d)
             else d == c
    ensures Current(d, cfg, ops + [op], k)
  {
    LatestAfterPut(cfg, ops, op, k);
    if k in c.store {
      assert Current(c, cfg, ops, k);
    }
  }

  /** What a put leaves, accepted or not. */
  ghost predicate PutLeaves(c: Cache, op: Op, d: Cache)
    requires op.DoPut?
  {
    if Accepts(c.cfg, op.gate, op.bytes) then
      var ck := CompositeKey(op.source, op.key);
      Sound(d) && WithinLimits(d) && Holds(d, ck, Entry(op.rows, op.bytes, op.now + c.cfg.ttl)) && KeptBut(c, ck, d)
    else d == c
  }

  lemma PutLeft(c: Cache, gate: bool, source: string, key: string, rows: ResultSet, bytes: nat, now: int)
    requires Sound(c)
    ensures PutLeaves(c, DoPut(gate, source, key, rows, bytes, now), Put(c, gate, source, key, rows, bytes, now))
  {
    PutAdmits(c, gate, source, key, rows, bytes, now);
    if Accepts(c.cfg, gate, bytes) {
      AdmitSound(c, CompositeKey(source, key), Entry(rows, bytes, now + c.cfg.ttl));
    }
  }

  lemma LeftRefines(c: Cache, cfg: Config, ops: seq<Op>, op: Op, d: Cache)
    requires Refines(c, cfg, ops) && op.DoPut? && PutLeaves(c, op, d)
    ensures Refines(d, cfg, ops + [op])
  {
    ConfigAfterPut(cfg, ops, op);
    forall k | k in d.store ensures Current(d, cfg, ops + [op], k) {
      PutCurrent(c, cfg, ops, op, d, k);
    }
  }

  lemma PutRefines(c: Cache, cfg: Config, ops: seq<Op>, op: Op)
    requires Refines(c, cfg, ops) && op.DoPut?
    ensures Refines(Step(c, op), cfg, ops + [op])
  {
    PutLeft(c, op.gate, op.source, op.key, op.rows, op.bytes, op.now);
    LeftRefines(c, cfg, ops, op, Step(c, op));
  }

  lemma ConfigAfterPut(cfg: Config, ops: seq<Op>, op: Op)
    requires op.DoPut?
    ensures ConfigAfter(cfg, ops + [op]) == ConfigAfter(cfg, ops)
  {
    assert (ops + [op])[..|ops|] == ops;
  }

  lemma LatestAfterPut(cfg: Config, ops: seq<Op>, op: Op, k: string)
    requires op.DoPut?
    ensures Latest(cfg, ops + [op], k)
            == if CompositeKey(op.source, op.key) == k && Accepts(ConfigAfter(cfg, ops), op.gate, op.bytes)
               then Some(Slot(op.rows, op.now + ConfigAfter(cfg, ops).ttl)) else Latest(cfg, ops, k)
  {
    var all := ops + [op];
    assert all[..|ops|] == ops && all[|ops|] == op;
  }

  lemma {:induction false} RunRefines(cfg: Config, ops: seq<Op>)
    ensures Refines(Run(Fresh(cfg), ops), cfg, ops)
  {
    if ops != [] {
      var before := ops[..|ops| - 1];
      RunRefines(cfg, before);
      StepRefines(Run(Fresh(cfg), before), cfg, before, ops[|ops| - 1]);
      assert before + [ops[|ops| - 1]] == ops;
    }
  }

  /** After any run, a hit returns the latest accepted put for that source and key, not expired
      and not invalidated or cleared since. */
  lemma HitIsLatest(cfg: Config, ops: seq<Op>, gate: bool, source: string, key: string, now: int)
    ensures var (_, hit) := Get(Run(Fresh(cfg), ops), gate, source, key, now);
            var slot := Latest(cfg, ops, CompositeKey(source, key));
            hit.Some? ==> slot.Some? && slot.value.rows == hit.value && slot.value.expire > now
  {
    RunRefines(cfg, ops);
  }

  /** After any run the store and the list agree, the total is exact and the limits hold. */
  lemma AlwaysSound(cfg: Config, ops: seq<Op>)
    ensures var c := Run(Fresh(cfg), ops);
            && Lists(c.lru, c.store.Keys) && c.total == Bytes(c.lru, c.store) && WithinLimits(c)
  {
    RunRefines(cfg, ops);
  }

  /** Right after a put that is accepted, a get of the same key before expiry returns it. */
  lemma PutThenGet(cfg: Config, ops: seq<Op>, source: string, key: string, rows: ResultSet, bytes: nat,
                   now: int, later: int)
    ensures var c := Run(Fresh(cfg), ops);
            Accepts(c.cfg, true, bytes) && later < now + c.cfg.ttl
            ==> Get(Put(c, true, source, key, rows, bytes, now), true, source, key, later).1 == Some(rows)
  {
    RunRefines(cfg, ops);
    AdmittedHits(Run(Fresh(cfg), ops), source, key, rows, bytes, now, later);
  }

  lemma AdmittedHits(c: Cache, source: string, key: string, rows: ResultSet, bytes: nat, now: int, later: int)
    requires Sound(c)
    ensures Accepts(c.cfg, true, bytes) && later < now + c.cfg.ttl
            ==> Get(Put(c, true, source, key, rows, bytes, now), true, source, key, later).1 == Some(rows)
  {
    if Accepts(c.cfg, true, bytes) && later < now + c.cfg.ttl {
      var ck, e := CompositeKey(source, key), Entry(rows, bytes, now + c.cfg.ttl);
      AdmitSound(c, ck, e);
      HeldHits(Admit(c, ck, e), source, key, e, later);
    }
  }

  lemma HeldHits(c: Cache, source: string, key: string, e: Entry, now: int)
    requires c.cfg.enabled && Holds(c, CompositeKey(source, key), e) && e.expire > now
    ensures Get(c, true, source, key, now).1 == Some(e.rows)
  {
  }

  /** Invalidating a source removes exactly the entries that its test recognises.  Those are its
      own and no others, for any source whose name and its own do not continue one another with
      a NUL. */
  lemma InvalidateExactly(cfg: Config, ops: seq<Op>, source: string, other: string, key: string)
    ensures var c := Run(Fresh(cfg), ops);
            var d := Invalidate(c, true, source);
            var ck := CompositeKey(other, key);
            && (ck in d.store <==> ck in c.store && !Recognised(source, other, key))
            && (!NulAfter(source, other) && !NulAfter(other, source) ==>
                (ck in d.store <==> ck in c.store && other != source))
  {
    RunRefines(cfg, ops);
    InvalidateSound(Run(Fresh(cfg), ops), true, source);
    OwnedWhen(source, other, key);
  }

  // ----- The published flag -----

  /** What `enabled` is to become under a configuration. */
  predicate Wanted(cfg: Config) { cfg.enabled && cfg.ttl > 0 }

  /** The cache beside its unlocked flag: a configuration in progress still has to publish, and
      `inside` calls have read the flag as raised but do not hold the lock yet. */
  datatype Shared = Shared(cache: Cache, enabled: bool, pending: Option<bool>, inside: nat)

  datatype Action =
    | Settle(cfg: Config)
    | Publish
    | Enter
    | Act(op: Op)
    | Skip(source: string)

  predicate Possible(s: Shared, a: Action) {
    match a
    case Settle(_) => s.pending.None?
    case Publish => s.pending.Some?
    case Enter => s.enabled
    case Act(op) => s.inside > 0 && !op.DoConfigure? && op.gate
    case Skip(_) => !s.enabled
  }

  function Advance(s: Shared, a: Action): Shared
    requires Possible(s, a)
  {
    match a
    case Settle(cfg) => s.(cache := Configure(s.cache, cfg), pending := Some(Wanted(cfg)))
    case Publish => s.(enabled := s.pending.value, pending := None)
    case Enter => s.(inside := s.inside + 1)
    case Act(op) => s.(cache := Step(s.cache, op), inside := s.inside - 1)
    case Skip(source) => s.(cache := Invalidate(s.cache, false, source))
  }

  ghost predicate Gated(s: Shared) {
    && Sound(s.cache) && WithinLimits(s.cache)
    && (if s.pending.Some? then s.pending.value else s.enabled) == Wanted(s.cache.cfg)
    && (!Wanted(s.cache.cfg) ==> s.cache.store == map[])
  }

  /** While the flag is down nothing is stored, so a skipped invalidation has nothing to do. */
  predicate Quiet(s: Shared) { !s.enabled ==> s.cache.store == map[] }

  /** A put that read the flag before it went down is accepted before it comes up again. */
  predicate LatePut(s: Shared, a: Action) {
    a.Act? && a.op.DoPut? && !s.enabled && Accepts(s.cache.cfg, a.op.gate, a.op.bytes)
  }

  /** Calls are inside from the read of the raised flag to their locked part. */
  lemma InsideCounts(s: Shared, a: Action)
    requires Possible(s, a)
    ensures Advance(s, a).inside == s.inside + (if a.Enter? then 1 else if a.Act? then -1 else 0)
    ensures Advance(s, a).enabled == (if a.Publish? then s.pending.value else s.enabled)
  {
  }

  /** Entries under a lowered flag can only mean that it is about to be raised. */
  lemma GatedWindow(s: Shared)
    requires Gated(s) && !Quiet(s)
    ensures s.pending == Some(true)
  {
  }

  /** An operation keeps the cache sound, and an empty one empty unless it is an accepted put. */
  ghost predicate GatedOp(c: Cache, op: Op, d: Cache)
    requires !op.DoConfigure?
  {
    && Sound(d) && WithinLimits(d) && d.cfg == c.cfg
    && (c.store == map[] ==> (d.store == map[] <==> !(op.DoPut? && Accepts(c.cfg, op.gate, op.bytes))))
  }

  lemma GetGated(c: Cache, source: string, key: string, now: int)
    requires Sound(c) && WithinLimits(c)
    ensures GatedOp(c, DoGet(true, source, key, now), Get(c, true, source, key, now).0)
  {
    GetSound(c, true, source, key, now);
  }

  lemma InvalidateGated(c: Cache, source: string)
    requires Sound(c) && WithinLimits(c)
    ensures GatedOp(c, DoInvalidate(true, source), Invalidate(c, true, source))
  {
    InvalidateSound(c, true, source);
  }

  lemma AdmitGated(c: Cache, ck: string, e: Entry)
    requires Sound(c) && (c.cfg.maxBytes > 0 ==> e.bytes <= c.cfg.maxBytes)
    ensures var d := Admit(c, ck, e); Sound(d) && WithinLimits(d) && d.cfg == c.cfg && d.store != map[]
  {
    AdmitSound(c, ck, e);
    assert ck in Admit(c, ck, e).store;
  }

  ghost predicate Filled(c: Cache, d: Cache) {
    Sound(d) && WithinLimits(d) && d.cfg == c.cfg && d.store != map[]
  }

  lemma PutFills(c: Cache, gate: bool, source: string, key: string, rows: ResultSet, bytes: nat, now: int, d: Cache)
    requires Sound(c) && Accepts(c.cfg, gate, bytes)
    requires d == Admit(c, CompositeKey(source, key), Entry(rows, bytes, now + c.cfg.ttl))
    ensures Filled(c, d)
  {
    AdmitGated(c, CompositeKey(source, key), Entry(rows, bytes, now + c.cfg.ttl));
  }

  lemma FilledGated(c: Cache, op: Op, d: Cache)
    requires Sound(c) && WithinLimits(c) && op.DoPut?
    requires if Accepts(c.cfg, op.gate, op.bytes) then Filled(c, d) else d == c
    ensures GatedOp(c, op, d)
  {
  }

  lemma PutGated(c: Cache, gate: bool, source: string, key: string, rows: ResultSet, bytes: nat, now: int)
    requires Sound(c) && WithinLimits(c)
    ensures GatedOp(c, DoPut(gate, source, key, rows, bytes, now), Put(c, gate, source, key, rows, bytes, now))
  {
    var d := Put(c, gate, source, key, rows, bytes, now);
    PutAdmits(c, gate, source, key, rows, bytes, now);
    if Accepts(c.cfg, gate, bytes) {
      PutFills(c, gate, source, key, rows, bytes, now, d);
    }
    FilledGated(c, DoPut(gate, source, key, rows, bytes, now), d);
  }

  lemma OpGated(c: Cache, op: Op)
    requires Sound(c) && WithinLimits(c) && !op.DoConfigure? && op.gate
    ensures GatedOp(c, op, Step(c, op))
  {
    match op
    case DoGet(_, source, key, now) => GetGated(c, source, key, now);
    case DoInvalidate(_, source) => InvalidateGated(c, source);
    case DoPut(gate, source, key, rows, bytes, now) => PutGated(c, gate, source, key, rows, bytes, now);
  }

  lemma AdvanceGated(s: Shared, a: Action)
    requires Gated(s) && Possible(s, a)
    ensures Gated(Advance(s, a))
  {
    if a.Act? {
      OpGated(s.cache, a.op);
    }
  }

  /** Only a late put makes entries appear under a lowered flag. */
  lemma QuietKept(s: Shared, a: Action)
    requires Gated(s) && Quiet(s) && Possible(s, a)
    ensures Quiet(Advance(s, a)) <==> !LatePut(s, a)
    ensures a.Skip? ==> Owned(s.cache, a.source) == {}
  {
    if a.Act? {
      OpGated(s.cache, a.op);
    }
  }

  ghost predicate Follows(s: Shared, acts: seq<Action>)
    decreases |acts|
  {
    acts == [] || (Possible(s, acts[0]) && Follows(Advance(s, acts[0]), acts[1..]))
  }

  /** No run raises the flag again while a call that saw it raised before is still inside. */
  ghost predicate Careful(s: Shared, acts: seq<Action>)
    requires Follows(s, acts)
    decreases |acts|
  {
    acts == []
    || ((acts[0].Settle? && Wanted(acts[0].cfg) && !s.enabled ==> s.inside == 0) && Careful(Advance(s, acts[0]), acts[1..]))
  }

  /** No skipped invalidation of the run leaves an entry of its source behind. */
  ghost predicate SkipsNothing(s: Shared, acts: seq<Action>)
    requires Follows(s, acts)
    decreases |acts|
  {
    acts == []
    || ((acts[0].Skip? ==> Owned(s.cache, acts[0].source) == {}) && SkipsNothing(Advance(s, acts[0]), acts[1..]))
  }

  /** If the flag is raised only with no such call inside, no skipped invalidation ever misses
      an entry. */
  lemma {:induction false} CarefulSkipsNothing(s: Shared, acts: seq<Action>)
    requires Gated(s) && Quiet(s) && (!s.enabled && s.pending == Some(true) ==> s.inside == 0)
    requires Follows(s, acts) && Careful(s, acts)
    ensures SkipsNothing(s, acts)
    decreases |acts|
  {
    if acts != [] {
      AdvanceGated(s, acts[0]);
      QuietKept(s, acts[0]);
      CarefulSkipsNothing(Advance(s, acts[0]), acts[1..]);
    }
  }

  /** Otherwise one can: a call that is inside while the flag goes up puts its entry, an
      invalidation of its source is skipped, and the next get still hits that entry. */
  lemma LatePutSurvives(s: Shared, cfg: Config, source: string, key: string, rows: ResultSet, now: int)
    requires Gated(s) && !s.enabled && s.pending.None? && s.inside > 0 && Wanted(cfg)
    ensures var put := Act(DoPut(true, source, key, rows, 0, now));
            && Possible(s, Settle(cfg))
            && var a := Advance(s, Settle(cfg));
            && Possible(a, put) && LatePut(a, put)
            && var b := Advance(a, put);
            && Possible(b, Skip(source)) && Owned(b.cache, source) != {}
            && var c := Advance(b, Skip(source));
            && Possible(c, Publish)
            && var d := Advance(c, Publish);
            && Possible(d, Enter)
            && Get(Advance(d, Enter).cache, true, source, key, now).1 == Some(rows)
  {
    var a := Advance(s, Settle(cfg));
    AdvanceGated(s, Settle(cfg));
    AdmittedHits(a.cache, source, key, rows, 0, now, now);
    AdmitSound(a.cache, CompositeKey(source, key), Entry(rows, 0, now + cfg.ttl));
    OwnedWhen(source, source, key);
    assert CompositeKey(source, key) in Owned(Advance(a, Act(DoPut(true, source, key, rows, 0, now))).cache, source);
  }

  /** Switching on, a call entering, and switching off lead there from a new cache. */
  lemma LateCallReachable(off: Config, on: Config)
    requires !Wanted(off) && Wanted(on)
    ensures var s := Shared(Fresh(off), false, None, 0);
            && Gated(s) && Possible(s, Settle(on))
            && var a := Advance(s, Settle(on));
            && Possible(a, Publish)
            && var b := Advance(a, Publish);
            && Possible(b, Enter)
            && var c := Advance(b, Enter);
            && Possible(c, Settle(off))
            && var d := Advance(c, Settle(off));
            && Possible(d, Publish)
            && var e := Advance(d, Publish);
            && Gated(e) && !e.enabled && e.pending.None? && e.inside > 0
  {
  }

  // ----- The code -----

  class State {
    var cfg: Config
    var store: map<string, Entry>
    var lru: seq<string>
    var totalBytes: nat
    var stats: Stats
    var enabled: bool

    ghost function View(): Cache
      reads this
    {
      Cache(cfg, store, lru, totalBytes, stats)
    }

    constructor (config: Config)
      ensures View() == Fresh(config) && !enabled
    {
      cfg, store, lru, totalBytes, stats, enabled := config, map[], [], 0, Stats(0, 0, 0, 0), false;
    }

    method EraseLocked(ck: string)
      requires ck in store
      modifies this`store, this`lru, this`totalBytes
      ensures View() == Erase(old(View()), ck)
    {
      totalBytes := totalBytes - (if store[ck].bytes <= totalBytes then store[ck].bytes else totalBytes);
      lru := Without(lru, ck);
      store := store - {ck};
    }

    method EvictBack()
      requires lru != []
      modifies this`store, this`lru, this`totalBytes, this`stats
      ensures View() == EvictOne(old(View()))
    {
      var victim := lru[|lru| - 1];
      if victim !in store {
        lru := lru[..|lru| - 1];
        return;
      }
      EraseLocked(victim);
      stats := stats.(evictions := stats.evictions + 1);
    }

    method EvictLocked(incoming: nat, reserveSlot: bool)
      modifies this`store, this`lru, this`totalBytes, this`stats
      ensures View() == Evict(old(View()), incoming, reserveSlot)
    {
      while lru != []
        invariant Evict(View(), incoming, reserveSlot) == Evict(old(View()), incoming, reserveSlot)
        decreases |lru|
      {
        var tooMany := cfg.maxEntries > 0
          && if reserveSlot then |store| >= cfg.maxEntries else |store| > cfg.maxEntries;
        var tooBig := cfg.maxBytes > 0 && totalBytes + incoming > cfg.maxBytes;
        assert Over(View(), incoming, reserveSlot) == (tooMany || tooBig);
        if !tooMany && !tooBig {
          return;
        }
        EvictOneShrinks(View());
        EvictBack();
      }
    }

    method ConfigureCache(config: Config)
      modifies this`cfg, this`store, this`lru, this`totalBytes, this`enabled
      ensures View() == Configure(old(View()), config)
      ensures enabled == (config.enabled && config.ttl > 0)
    {
      cfg, store, lru, totalBytes := config, map[], [], 0;
      enabled := config.enabled && config.ttl > 0;
    }

    method GetEntry(source: string, key: string, now: int) returns (hit: Option<ResultSet>)
      modifies this`store, this`lru, this`totalBytes, this`stats
      ensures (View(), hit) == Get(old(View()), enabled, source, key, now)
    {
      if !enabled || !cfg.enabled {
        return None;
      }
      var ck := CompositeKey(source, key);
      if ck !in store {
        stats := stats.(misses := stats.misses + 1);
        return None;
      }
      if store[ck].expire <= now {
        EraseLocked(ck);
        stats := stats.(misses := stats.misses + 1);
        return None;
      }
      hit := Some(store[ck].rows);
      lru := [ck] + Without(lru, ck);
      stats := stats.(hits := stats.hits + 1);
    }

    method AdmitEntry(ck: string, e: Entry)
      modifies this`store, this`lru, this`totalBytes, this`stats
      ensures View() == Admit(old(View()), ck, e)
    {
      if ck in store {
        totalBytes := totalBytes - (if store[ck].bytes <= totalBytes then store[ck].bytes else totalBytes);
        store := store[ck := e];
        totalBytes := totalBytes + e.bytes;
        lru := [ck] + Without(lru, ck);
        assert View() == Swap(old(View()), ck, e);
        EvictLocked(0, false);
        return;
      }
      EvictLocked(e.bytes, true);
      lru := [ck] + lru;
      totalBytes := totalBytes + e.bytes;
      store := store[ck := e];
    }

    method PutEntry(source: string, key: string, rows: ResultSet, bytes: nat, now: int)
      modifies this`store, this`lru, this`totalBytes, this`stats
      ensures View() == Put(old(View()), enabled, source, key, rows, bytes, now)
    {
      PutAdmits(View(), enabled, source, key, rows, bytes, now);
      if !enabled || !cfg.enabled || cfg.ttl <= 0 || (cfg.maxBytes > 0 && bytes > cfg.maxBytes) {
        return;
      }
      AdmitEntry(CompositeKey(source, key), Entry(rows, bytes, now + cfg.ttl));
    }

    /** The scan visits the entries in an order that the table chooses. */
    method ScanOwned(source: string) returns (removed: nat)
      requires Sound(View())
      modifies this`store, this`lru, this`totalBytes
      ensures Sound(View()) && Scanned(old(View()), View(), source, {}, removed)
    {
      var todo := store.Keys;
      removed := 0;
      ScanStart(View(), source);
      while todo != {}
        invariant Sound(View()) && todo <= store.Keys && Scanned(old(View()), View(), source, todo, removed)
        decreases todo
      {
        var k :| k in todo;
        ScanStep(old(View()), View(), source, todo, removed, k);
        todo := todo - {k};
        if HasPrefix(k, CompositeKey(source, "")) {
          EraseLocked(k);
          removed := removed + 1;
        }
      }
    }

    method InvalidateSource(source: string)
      requires Sound(View())
      modifies this`store, this`lru, this`totalBytes, this`stats
      ensures View() == Invalidate(old(View()), enabled, source)
    {
      if !enabled {
        return;
      }
      if store == map[] {
        EmptyInvalidate(View(), source);
        return;
      }
      var removed := ScanOwned(source);
      ScanDone(old(View()), View(), source, removed);
      if removed > 0 {
        stats := stats.(invalidations := stats.invalidations + removed);
      }
    }
  }

  lemma ScanStart(c: Cache, source: string)
    ensures Scanned(c, c, source, c.store.Keys, 0)
  {
    assert Owned(c, source) - c.store.Keys == {};
  }

  /** The scan so far: of the entries of the source, those not yet visited are left. */
  ghost predicate Scanned(was: Cache, c: Cache, source: string, todo: set<string>, removed: nat) {
    && c.store == was.store - (Owned(was, source) - todo)
    && Others(c.lru, source) == Others(was.lru, source)
    && removed == |Owned(was, source) - todo|
  }

  lemma ScanStep(was: Cache, c: Cache, source: string, todo: set<string>, removed: nat, k: string)
    requires Sound(c) && Scanned(was, c, source, todo, removed) && k in todo && todo <= c.store.Keys
    ensures OwnedBy(k, source) ==> Sound(Erase(c, k)) && Scanned(was, Erase(c, k), source, todo - {k}, removed + 1)
    ensures !OwnedBy(k, source) ==> Scanned(was, c, source, todo - {k}, removed)
  {
    var left := todo - {k};
    if OwnedBy(k, source) {
      EraseSound(c, k);
      OthersWithout(c.lru, k, source);
      assert Owned(was, source) - left == Owned(was, source) - todo + {k};
    } else {
      assert Owned(was, source) - left == Owned(was, source) - todo;
    }
  }

  lemma {:induction false} OthersWithout(lru: seq<string>, k: string, source: string)
    requires OwnedBy(k, source)
    ensures Others(Without(lru, k), source) == Others(lru, source)
  {
    if lru != [] {
      OthersWithout(lru[1..], k, source);
      if lru[0] != k {
        assert Without(lru, k)[1..] == Without(lru[1..], k);
      }
    }
  }

  lemma {:induction false} OthersAll(lru: seq<string>, source: string)
    requires forall k | k in lru :: !OwnedBy(k, source)
    ensures Others(lru, source) == lru
  {
    if lru != [] {
      assert lru[0] in lru;
      OthersAll(lru[1..], source);
    }
  }

  lemma ScanDone(was: Cache, c: Cache, source: string, removed: nat)
    requires Sound(c) && Scanned(was, c, source, {}, removed)
    ensures c.store == was.store - Owned(was, source) && removed == |Owned(was, source)|
    ensures c.lru == Others(was.lru, source) && c.total == Bytes(c.lru, c.store)
  {
    assert Owned(was, source) - {} == Owned(was, source);
    OthersAll(c.lru, source);
  }

  lemma EmptyInvalidate(c: Cache, source: string)
    requires Sound(c) && c.store == map[]
    ensures Invalidate(c, true, source) == c
  {
    ListsSize(c.lru, c.store.Keys);
    assert Owned(c, source) == {};
  }
}
