/** The Postgres driver's cache of prepared statements: key, handle, server-side name, and
    least-recently-used order. */
module PreparedCache {
  import opened Wrappers
  import opened Text
  import opened DollarQuote
  import opened SqlModes
  import opened Placeholders
  import opened Lru
  import CacheKey

  /** The letter of a parameter's type in the signature. */
  function TypeLetter(v: CacheKey.Value): (c: char)
    ensures IsAlpha(c)
  {
    CacheKey.Letter(v)
  }

  /** `paramTypeSignature`. */
  function Signature(params: seq<CacheKey.Value>): (s: string)
    ensures |s| == |params| && Letters(s)
    ensures forall i | 0 <= i < |s| :: s[i] == TypeLetter(params[i])
  {
    if params == [] then "" else [TypeLetter(params[0])] + Signature(params[1..])
  }

  method ParamTypeSignature(params: seq<CacheKey.Value>) returns (sig: string)
    ensures sig == Signature(params)
  {
    sig := "";
    var i := 0;
    while i < |params|
      invariant 0 <= i <= |params|
      invariant sig + Signature(params[i..]) == Signature(params)
    {
      assert params[i..][1..] == params[i + 1..];
      sig := sig + [TypeLetter(params[i])];
      i := i + 1;
    }
  }

  datatype Statement = Statement(sql: string, signature: string)
  {
    /** What `prepare` has checked before it uses a statement's key. */
    ghost predicate Checked() {
      Letters(signature) && Holes(Template(sql)) == |signature|
    }

    function Key(): string { sql + signature }
  }

  /** The key has no separator, yet no two checked statements share one: the signature's
      length can be recovered from the key by counting its placeholders. */
  lemma KeyDeterminesStatement(a: Statement, b: Statement)
    requires a.Checked() && b.Checked()
    ensures a.Key() == b.Key() <==> a == b
  {
    HolesAppend(a.sql, a.signature, 0);
    HolesAppend(b.sql, b.signature, 0);
    if a.Key() == b.Key() {
      Cancel(a.sql, b.sql, a.signature, b.signature);
    }
  }

  /** Without the check the key is ambiguous. */
  lemma UncheckedKeysCollide(sql: string)
    ensures Statement(sql, "ib").Key() == Statement(sql + "i", "b").Key()
    ensures Statement(sql, "ib") != Statement(sql + "i", "b")
    ensures !(Statement(sql, "ib").Checked() && Statement(sql + "i", "b").Checked())
  {
    assert sql + "ib" == (sql + "i") + "b";
    if Statement(sql, "ib").Checked() && Statement(sql + "i", "b").Checked() {
      KeyDeterminesStatement(Statement(sql, "ib"), Statement(sql + "i", "b"));
    }
  }

  function ServerName(id: nat): string { "sqlconduit_ps_" + Digits(id) }

  lemma ServerNamesDiffer(a: nat, b: nat)
    ensures ServerName(a) == ServerName(b) <==> a == b
  {
    if ServerName(a) == ServerName(b) {
      CancelHead("sqlconduit_ps_", Digits(a), Digits(b));
      DigitsUnique(a, b, "", "");
    }
  }

  /** The SQL sent to the server, with `$1`, `$2`, ... for the placeholders. */
  function ServerSql(sql: string): string {
    Fill(Template(sql), 0, (k: nat) => "$" + Digits(k + 1))
  }

  /** The server is sent `$1`, `$2`, ... in the places of the question marks that are read outside
      every region, in their order. */
  lemma ServerNumbers(sql: string, p: nat) returns (front: string, back: string)
    requires p < |sql| && sql[p] == '?' && Free(sql, p, true)
    ensures ServerSql(sql) == front + ("$" + Digits(|MarksBefore(sql, p)| + 1) + back)
  {
    front, back := MarkFilled(sql, p, (k: nat) => "$" + Digits(k + 1));
  }

  // ----- The cache as a value -----

  /** One connection's prepared statements.  `server` is the connection's own table of prepared
      names; `madeFor` records the statement each handle was prepared for. */
  datatype Store = Store(cache: map<string, nat>, names: map<nat, string>, lru: seq<string>,
                         last: nat, server: map<string, string>, madeFor: map<nat, Statement>)

  const EmptyStore := Store(map[], map[], [], 0, map[], map[])

  /** Handle `id` is filed under the key of the statement it was prepared for, and the server
      has that statement under the handle's own name. */
  ghost predicate Filed(s: Store, key: string, id: nat) {
    && 0 < id <= s.last && id in s.names && s.names[id] == ServerName(id)
    && id in s.madeFor && s.madeFor[id].Checked() && s.madeFor[id].Key() == key
    && ServerName(id) in s.server && s.server[ServerName(id)] == ServerSql(s.madeFor[id].sql)
  }

  ghost predicate Cached(s: Store, id: nat) {
    id in s.madeFor && s.madeFor[id].Key() in s.cache && s.cache[s.madeFor[id].Key()] == id
  }

  /** Cache, recency list and names are in bijection and every entry is what its key says. */
  ghost predicate Sound(s: Store) {
    && Lists(s.lru, s.cache.Keys)
    && (forall k | k in s.cache :: Filed(s, k, s.cache[k]))
    && (forall id | id in s.names :: Cached(s, id))
  }

  function Touch(s: Store, key: string): Store {
    s.(lru := Without(s.lru, key) + [key])
  }

  function Insert(s: Store, st: Statement): Store {
    s.(cache := s.cache[st.Key() := s.last], names := s.names[s.last := ServerName(s.last)],
       lru := s.lru + [st.Key()], server := s.server[ServerName(s.last) := ServerSql(st.sql)],
       madeFor := s.madeFor[s.last := st])
  }

  /** Drops the least recently used entry; the server may refuse to release its name. */
  function EvictOldest(s: Store, releases: nat -> bool): Store
    requires s.lru != []
  {
    var key := s.lru[0];
    var t := s.(lru := s.lru[1..]);
    if key !in s.cache then t
    else
      var id := s.cache[key];
      if id in s.names then
        t.(cache := s.cache - {key}, names := s.names - {id},
           server := if releases(id) then s.server - {s.names[id]} else s.server)
      else t.(cache := s.cache - {key})
  }

  function EvictTo(s: Store, limit: int, releases: nat -> bool): Store
    decreases |s.lru|
  {
    if |s.cache| <= limit || s.lru == [] then s
    else EvictTo(EvictOldest(s, releases), limit, releases)
  }

  datatype Outcome = Prepared(id: nat) | ParamMismatch(params: nat, placeholders: nat) | ServerError

  /** A statement that is not cached is prepared under the next id. */
  function Miss(s: Store, limit: int, st: Statement, serverAccepts: bool, releases: nat -> bool): (Store, Outcome)
  {
    var t := s.(last := s.last + 1);
    if !serverAccepts then (t, ServerError)
    else (if limit > 0 then EvictTo(Insert(t, st), limit, releases) else Insert(t, st), Prepared(t.last))
  }

  function Hit(s: Store, key: string): (Store, Outcome)
    requires key in s.cache
  {
    (Touch(s, key), Prepared(s.cache[key]))
  }

  /** What `prepare` does to the store. */
  function PrepareStep(s: Store, limit: int, sql: string, params: seq<CacheKey.Value>,
                       serverAccepts: bool, releases: nat -> bool): (Store, Outcome)
  {
    var st := Statement(sql, Signature(params));
    if Holes(Template(sql)) != |params| then (s, ParamMismatch(|params|, Holes(Template(sql))))
    else if st.Key() in s.cache then Hit(s, st.Key())
    else Miss(s, limit, st, serverAccepts, releases)
  }

  lemma TouchSound(s: Store, key: string)
    requires Sound(s) && key in s.cache
    ensures Sound(Touch(s, key))
  {
    var t := Touch(s, key);
    ListsToBack(s.lru, s.cache.Keys, key);
    assert forall k | k in s.cache :: Filed(s, k, s.cache[k]) ==> Filed(t, k, s.cache[k]);
    assert forall id :: Cached(s, id) ==> Cached(t, id);
  }

  lemma InsertSound(s: Store, st: Statement)
    requires Sound(s) && st.Checked() && st.Key() !in s.cache
    requires 0 < s.last && s.last !in s.names
    ensures Sound(Insert(s, st))
  {
    var t := Insert(s, st);
    ListsPushBack(s.lru, s.cache.Keys, st.Key());
    assert t.cache.Keys == s.cache.Keys + {st.Key()};
    forall k | k in t.cache ensures Filed(t, k, t.cache[k]) {
      if k != st.Key() {
        assert Filed(s, k, s.cache[k]);
        ServerNamesDiffer(s.cache[k], s.last);
      }
    }
    forall id | id in t.names ensures Cached(t, id) {
      if id != s.last {
        assert Cached(s, id);
      }
    }
  }

  lemma EvictSound(s: Store, releases: nat -> bool)
    requires Sound(s) && s.lru != []
    ensures var t := EvictOldest(s, releases);
            && Sound(t) && s.lru[0] in s.cache && t.cache == s.cache - {s.lru[0]}
  {
    var key := s.lru[0];
    ListsPopFront(s.lru, s.cache.Keys);
    assert Filed(s, key, s.cache[key]);
    var id := s.cache[key];
    var t := EvictOldest(s, releases);
    assert t.cache.Keys == s.cache.Keys - {key};
    forall k | k in t.cache ensures Filed(t, k, t.cache[k]) {
      assert Filed(s, k, s.cache[k]);
      ServerNamesDiffer(s.cache[k], id);
    }
    forall other | other in t.names ensures Cached(t, other) {
      assert Cached(s, other);
    }
  }

  ghost predicate Newest(s: Store, key: string) {
    s.lru != [] && s.lru[|s.lru| - 1] == key
  }

  /** The eviction loop meets the limit, only drops entries, and spares the newest one. */
  lemma {:induction false} EvictToSound(s: Store, limit: int, releases: nat -> bool, key: string)
    requires Sound(s) && limit > 0 && Newest(s, key)
    ensures var t := EvictTo(s, limit, releases);
            && Sound(t) && |t.cache| <= limit && Newest(t, key) && key in t.cache
            && (forall k | k in t.cache :: k in s.cache && t.cache[k] == s.cache[k])
            && t.madeFor == s.madeFor && t.last == s.last
    decreases |s.lru|
  {
    ListsSize(s.lru, s.cache.Keys);
    assert |s.cache.Keys| == |s.cache| && key in s.lru;
    if |s.cache| > limit {
      EvictSound(s, releases);
      EvictToSound(EvictOldest(s, releases), limit, releases, key);
    }
  }

  /** `t` is `s` without the entries in front of the `n` newest. */
  ghost predicate KeepsNewest(s: Store, t: Store, n: nat) {
    && n <= |s.lru| && t.lru == s.lru[|s.lru| - n..]
    && (forall k :: k in t.cache <==> k in t.lru)
    && (forall k | k in t.cache :: k in s.cache && t.cache[k] == s.cache[k])
  }

  /** The handle is unknown now, and the server has let its name go exactly if it released it. */
  ghost predicate Dropped(t: Store, id: nat, releases: nat -> bool) {
    id !in t.names && (releases(id) <==> ServerName(id) !in t.server)
  }

  lemma EvictOldestExact(s: Store, releases: nat -> bool)
    requires Sound(s) && s.lru != []
    ensures var t, id := EvictOldest(s, releases), s.cache[s.lru[0]];
            && t.lru == s.lru[1..] && t.cache == s.cache - {s.lru[0]} && t.names == s.names - {id}
            && t.server == (if releases(id) then s.server - {ServerName(id)} else s.server)
  {
    EvictSound(s, releases);
    assert Filed(s, s.lru[0], s.cache[s.lru[0]]);
  }

  /** What was dropped earlier stays as it was. */
  lemma {:induction false} EvictToOthers(s: Store, limit: int, releases: nat -> bool, id: nat)
    requires Sound(s) && id !in s.names
    ensures var t := EvictTo(s, limit, releases);
            id !in t.names && (ServerName(id) in t.server <==> ServerName(id) in s.server)
    decreases |s.lru|
  {
    if |s.cache| > limit && s.lru != [] {
      var oldest := s.cache[s.lru[0]];
      EvictSound(s, releases);
      EvictOldestExact(s, releases);
      assert Filed(s, s.lru[0], oldest);
      ServerNamesDiffer(oldest, id);
      EvictToOthers(EvictOldest(s, releases), limit, releases, id);
    }
  }

  lemma StoreSize(s: Store)
    requires Sound(s)
    ensures |s.lru| == |s.cache|
  {
    ListsSize(s.lru, s.cache.Keys);
    assert |s.cache.Keys| == |s.cache|;
  }

  lemma NothingGone(s: Store)
    requires Sound(s)
    ensures KeepsNewest(s, s, |s.lru|)
  {
    assert s.lru[0..] == s.lru;
  }

  function Staying(s: Store, limit: nat): nat { if |s.lru| <= limit then |s.lru| else limit }

  lemma EvictStep(s: Store, limit: nat, releases: nat -> bool, t: Store)
    requires Sound(s) && limit < |s.lru| && KeepsNewest(EvictOldest(s, releases), t, Staying(EvictOldest(s, releases), limit))
    ensures KeepsNewest(s, t, limit)
  {
    EvictSound(s, releases);
    EvictOldestExact(s, releases);
    OldestGone(s, EvictOldest(s, releases), t, limit);
  }

  /** Exactly the oldest entries beyond the limit go. */
  lemma {:induction false} EvictToExact(s: Store, limit: nat, releases: nat -> bool)
    requires Sound(s) && limit > 0
    ensures KeepsNewest(s, EvictTo(s, limit, releases), Staying(s, limit))
    decreases |s.lru|
  {
    StoreSize(s);
    if |s.cache| > limit {
      EvictSound(s, releases);
      EvictToExact(EvictOldest(s, releases), limit, releases);
      EvictStep(s, limit, releases, EvictTo(s, limit, releases));
    } else {
      NothingGone(s);
    }
  }

  lemma OldestGone(s: Store, b: Store, t: Store, n: nat)
    requires s.lru != [] && n < |s.lru| && b.lru == s.lru[1..] && b.cache == s.cache - {s.lru[0]}
    requires KeepsNewest(b, t, n)
    ensures KeepsNewest(s, t, n)
  {
    assert b.lru[|b.lru| - n..] == s.lru[|s.lru| - n..];
  }

  /** Their handles are unknown, and the server has let go exactly the names that it released. */
  lemma {:induction false} EvictedDropped(s: Store, limit: int, releases: nat -> bool, k: string)
    requires Sound(s) && limit > 0 && k in s.cache && k !in EvictTo(s, limit, releases).cache
    ensures Dropped(EvictTo(s, limit, releases), s.cache[k], releases)
    decreases |s.lru|
  {
    ListsSize(s.lru, s.cache.Keys);
    assert |s.cache.Keys| == |s.cache|;
    var b := EvictOldest(s, releases);
    EvictSound(s, releases);
    EvictOldestExact(s, releases);
    if k == s.lru[0] {
      assert Filed(s, k, s.cache[k]);
      EvictToOthers(b, limit, releases, s.cache[k]);
    } else {
      EvictedDropped(b, limit, releases, k);
    }
  }

  /** Two cached keys never share a handle. */
  lemma HandlesDiffer(s: Store, j: string, k: string)
    requires Sound(s) && j in s.cache && k in s.cache
    ensures s.cache[j] == s.cache[k] <==> j == k
  {
    assert Filed(s, j, s.cache[j]) && Filed(s, k, s.cache[k]);
  }

  lemma NamesBounded(s: Store, id: nat)
    requires Sound(s) && id in s.names
    ensures id <= s.last
  {
    assert Cached(s, id);
    assert Filed(s, s.madeFor[id].Key(), id);
  }

  lemma NextSound(s: Store)
    requires Sound(s)
    ensures s.last + 1 !in s.names && Sound(s.(last := s.last + 1))
  {
    var n: nat := s.last + 1;
    var t := s.(last := n);
    if n in s.names {
      NamesBounded(s, n);
    }
    assert forall k | k in s.cache :: Filed(s, k, s.cache[k]) ==> Filed(t, k, s.cache[k]);
    assert forall id :: Cached(s, id) ==> Cached(t, id);
  }

  /** The handle is the one prepared for exactly this statement, the server has it, and it is
      the most recently used entry. */
  ghost predicate Serves(t: Store, st: Statement, id: nat) {
    && st.Key() in t.cache && t.cache[st.Key()] == id && Newest(t, st.Key())
    && Filed(t, st.Key(), id) && t.madeFor[id] == st
  }

  lemma HitSound(s: Store, st: Statement)
    requires Sound(s) && st.Checked() && st.Key() in s.cache
    ensures var (t, out) := Hit(s, st.Key());
            Sound(t) && out.Prepared? && Serves(t, st, out.id) && t.cache == s.cache
  {
    TouchSound(s, st.Key());
    assert Filed(s, st.Key(), s.cache[st.Key()]);
    KeyDeterminesStatement(st, s.madeFor[s.cache[st.Key()]]);
  }

  lemma MissSound(s: Store, limit: int, st: Statement, serverAccepts: bool, releases: nat -> bool)
    requires Sound(s) && st.Checked() && st.Key() !in s.cache
    ensures var (t, out) := Miss(s, limit, st, serverAccepts, releases);
            && Sound(t)
            && (if serverAccepts then
                  && out.Prepared? && Serves(t, st, out.id) && out.id !in s.names
                  && (limit > 0 ==> |t.cache| <= limit)
                else out.ServerError? && t == s.(last := s.last + 1))
  {
    NextSound(s);
    if serverAccepts {
      var n := s.(last := s.last + 1);
      InsertSound(n, st);
      if limit > 0 {
        EvictToSound(Insert(n, st), limit, releases, st.Key());
      }
      var t := Miss(s, limit, st, serverAccepts, releases).0;
      assert Filed(t, st.Key(), t.cache[st.Key()]);
    }
  }

  /** A hit moves its key to the newest end and changes nothing else. */
  lemma HitMoves(s: Store, key: string, i: nat)
    requires Sound(s) && key in s.cache && i < |s.lru| && s.lru[i] == key
    ensures var (t, out) := Hit(s, key);
            t == s.(lru := s.lru[..i] + s.lru[i + 1..] + [key]) && out == Prepared(s.cache[key])
  {
    WithoutSplits(s.lru, i);
  }

  /** A miss adds one entry behind the others and then keeps the newest ones that the limit allows;
      without a positive limit it keeps all. */
  lemma MissKeeps(s: Store, limit: int, st: Statement, releases: nat -> bool)
    requires Sound(s) && st.Checked() && st.Key() !in s.cache
    ensures var t, u := Miss(s, limit, st, true, releases).0, Insert(s.(last := s.last + 1), st);
            && u.lru == s.lru + [st.Key()] && u.cache == s.cache[st.Key() := s.last + 1]
            && (if limit > 0 then KeepsNewest(u, t, Staying(u, limit)) else t == u)
  {
    NextSound(s);
    InsertSound(s.(last := s.last + 1), st);
    if limit > 0 {
      EvictToExact(Insert(s.(last := s.last + 1), st), limit, releases);
    }
  }

  /** `prepare` keeps the store sound, serves exactly the statement asked for when it succeeds,
      and meets a positive limit after a miss. */
  lemma PrepareSound(s: Store, limit: int, sql: string, params: seq<CacheKey.Value>,
                     serverAccepts: bool, releases: nat -> bool)
    requires Sound(s)
    ensures var (t, out) := PrepareStep(s, limit, sql, params, serverAccepts, releases);
            var st := Statement(sql, Signature(params));
            && Sound(t)
            && (out.ParamMismatch? <==> Holes(Template(sql)) != |params|)
            && (out.ServerError? <==> !out.ParamMismatch? && st.Key() !in s.cache && !serverAccepts)
            && (!out.Prepared? ==> t.(last := s.last) == s)
            && (out.Prepared? ==> Serves(t, st, out.id))
            && (out.Prepared? && st.Key() in s.cache ==> t.cache == s.cache)
            && (out.Prepared? && st.Key() !in s.cache ==> out.id !in s.names && (limit > 0 ==> |t.cache| <= limit))
  {
    var st := Statement(sql, Signature(params));
    if Holes(Template(sql)) == |params| {
      if st.Key() in s.cache {
        HitSound(s, st);
      } else {
        MissSound(s, limit, st, serverAccepts, releases);
      }
    }
  }

  /** A handle is usable, that is its name is known, exactly while some key maps to it, and
      then the server runs the statement it was prepared for. */
  lemma UsableHandles(s: Store, id: nat)
    requires Sound(s)
    ensures id in s.names <==> exists k :: k in s.cache && s.cache[k] == id
    ensures id in s.names ==> id in s.madeFor && s.names[id] in s.server
                              && s.server[s.names[id]] == ServerSql(s.madeFor[id].sql)
  {
    if id in s.names {
      assert Cached(s, id);
      assert Filed(s, s.madeFor[id].Key(), id);
    }
    forall k | k in s.cache && s.cache[k] == id ensures id in s.names {
      assert Filed(s, k, id);
    }
  }

  // ----- The driver's code -----

  class Cache {
    var preparedCache: map<string, nat>
    var preparedNames: map<nat, string>
    var preparedLru: seq<string>
    var preparedSeq: nat
    var preparedLimit: int
    var server: map<string, string>
    ghost var madeFor: map<nat, Statement>

    ghost function View(): Store
      reads this
    {
      Store(preparedCache, preparedNames, preparedLru, preparedSeq, server, madeFor)
    }

    constructor ()
      ensures View() == EmptyStore && Sound(View())
    {
      preparedCache, preparedNames, preparedLru := map[], map[], [];
      preparedSeq, preparedLimit, server, madeFor := 0, 0, map[], map[];
    }

    method PopOldest(releases: nat -> bool)
      requires preparedLru != []
      modifies this`preparedCache, this`preparedNames, this`preparedLru, this`server
      ensures View() == EvictOldest(old(View()), releases)
    {
      var oldKey := preparedLru[0];
      preparedLru := preparedLru[1..];
      if oldKey in preparedCache {
        var id := preparedCache[oldKey];
        if id in preparedNames {
          if releases(id) {
            server := server - {preparedNames[id]};
          }
          preparedNames := preparedNames - {id};
        }
        preparedCache := preparedCache - {oldKey};
      }
    }

    method EvictDown(releases: nat -> bool)
      requires Sound(View()) && preparedLimit > 0
      modifies this`preparedCache, this`preparedNames, this`preparedLru, this`server
      ensures View() == EvictTo(old(View()), preparedLimit, releases)
    {
      while |preparedCache| > preparedLimit
        invariant Sound(View())
        invariant EvictTo(View(), preparedLimit, releases) == EvictTo(old(View()), preparedLimit, releases)
        decreases |preparedLru|
      {
        ListsSize(preparedLru, preparedCache.Keys);
        assert |preparedCache.Keys| == |preparedCache|;
        EvictSound(View(), releases);
        PopOldest(releases);
      }
    }

    method Prepare(sql: string, params: seq<CacheKey.Value>, serverAccepts: bool, releases: nat -> bool)
      returns (out: Outcome)
      requires Sound(View())
      modifies this
      ensures (View(), out) == PrepareStep(old(View()), preparedLimit, sql, params, serverAccepts, releases)
      ensures Sound(View()) && preparedLimit == old(preparedLimit)
    {
      PrepareSound(View(), preparedLimit, sql, params, serverAccepts, releases);
      var pgSql, found, _ := ReplacePlaceholders(sql, (k: nat) => "$" + Digits(k + 1));
      if found != |params| {
        return ParamMismatch(|params|, found);
      }
      var sig := ParamTypeSignature(params);
      var key := sql + sig;
      if key in preparedCache {
        preparedLru := Without(preparedLru, key);
        preparedLru := preparedLru + [key];
        return Prepared(preparedCache[key]);
      }
      out := Create(Statement(sql, sig), key, pgSql, serverAccepts, releases);
    }

    /** The new statement, under the number just taken. */
    method FileStatement(ghost st: Statement, key: string, pgSql: string)
      requires key == st.Key() && pgSql == ServerSql(st.sql)
      modifies this`server, this`preparedCache, this`preparedNames, this`preparedLru, this`madeFor
      ensures View() == Insert(old(View()), st)
    {
      server := server[ServerName(preparedSeq) := pgSql];
      preparedCache := preparedCache[key := preparedSeq];
      preparedNames := preparedNames[preparedSeq := ServerName(preparedSeq)];
      preparedLru := preparedLru + [key];
      madeFor := madeFor[preparedSeq := st];
    }

    /** The miss path. */
    method Create(ghost st: Statement, key: string, pgSql: string, serverAccepts: bool, releases: nat -> bool)
      returns (out: Outcome)
      requires Sound(View()) && key == st.Key() && key !in preparedCache
      requires st.Checked() && pgSql == ServerSql(st.sql)
      modifies this
      ensures preparedLimit == old(preparedLimit)
      ensures (View(), out) == Miss(old(View()), preparedLimit, st, serverAccepts, releases)
    {
      NextSound(View());
      preparedSeq := preparedSeq + 1;
      if !serverAccepts {
        return ServerError;
      }
      InsertSound(View(), st);
      FileStatement(st, key, pgSql);
      if preparedLimit > 0 {
        EvictDown(releases);
      }
      return Prepared(preparedSeq);
    }

    /** `closeAllPrepared`. */
    method CloseAllPrepared()
      modifies this`preparedCache, this`preparedNames, this`preparedLru, this`server
      ensures Sound(View()) && preparedCache == map[] && preparedNames == map[] && preparedLru == []
    {
      server := map name | name in server && (forall id | id in preparedNames :: preparedNames[id] != name)
                :: server[name];
      preparedCache := map[];
      preparedNames := map[];
      preparedLru := [];
    }

    /** `setPreparedCacheLimit`: takes effect at the next miss. */
    method SetPreparedCacheLimit(maxPerConnection: int)
      modifies this`preparedLimit
      ensures View() == old(View()) && preparedLimit == maxPerConnection
    {
      preparedLimit := maxPerConnection;
    }

    /** The lookup of `executePrepared`. */
    method Lookup(id: nat) returns (name: Option<string>)
      requires Sound(View())
      ensures name.Some? <==> exists k :: k in preparedCache && preparedCache[k] == id
      ensures name.Some? ==> id in madeFor && name.value in server
                             && server[name.value] == ServerSql(madeFor[id].sql)
    {
      UsableHandles(View(), id);
      name := if id in preparedNames then Some(preparedNames[id]) else None;
    }
  }
}
