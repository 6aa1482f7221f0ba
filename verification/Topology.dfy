/** The manager's registry of data sources and groups: initialisation, and the operations that
    add and remove entries while it runs.  Each operation is split where it releases the lock. */
module Topology {
  import opened Wrappers
  import opened Lru
  import opened Text

  /** A reference to a data source object: its name and its identity. */
  datatype Ref = Ref(name: string, id: nat)

  datatype Source =
    | Plain(id: nat, readReplica: bool)
    | Group(id: nat, primary: Ref, replicas: seq<Ref>, failover: seq<Ref>, shadowName: string, shadow: Option<Ref>)

  /** `pools` holds the names that own a connection pool. */
  datatype Registry = Registry(pools: set<string>, sources: map<string, Source>, defaultName: string, next: nat)

  datatype Replica = Replica(name: string, weight: int)

  datatype GroupConfig = GroupConfig(name: string, primary: string, replicas: seq<Replica>, failover: seq<string>,
                                     shadow: string, readOnly: bool, buffered: bool)

  datatype Status = Ok | ConfigError | UnknownDriver

  // ----- Adding -----

  function AddPlain(t: Registry, name: string, readReplica: bool): Registry {
    t.(pools := t.pools + {name}, sources := t.sources[name := Plain(t.next, readReplica)], next := t.next + 1)
  }

  /** The locked part of adding a data source; `known` says that its driver is registered. */
  function AddDataSource(t: Registry, name: string, known: bool): (Registry, Status) {
    if name == "" || name in t.pools || name in t.sources then (t, ConfigError)
    else if !known then (t, UnknownDriver)
    else (AddPlain(t, name, false), Ok)
  }

  /** Every name that a group mentions, except its shadow, owns a pool. */
  predicate RefsKnown(t: Registry, cfg: GroupConfig) {
    && cfg.primary in t.pools
    && (forall i | 0 <= i < |cfg.replicas| :: cfg.replicas[i].name in t.pools)
    && (forall i | 0 <= i < |cfg.failover| :: cfg.failover[i] in t.pools)
  }

  predicate Acceptable(t: Registry, cfg: GroupConfig, fencing: bool, lossy: bool) {
    && cfg.name != "" && cfg.name !in t.pools && cfg.name !in t.sources
    && (cfg.failover != [] ==> fencing) && (cfg.buffered ==> lossy)
    && RefsKnown(t, cfg) && !(cfg.readOnly && cfg.buffered)
  }

  function RefTo(t: Registry, name: string): Ref {
    Ref(name, if name in t.sources then t.sources[name].id else 0)
  }

  function Times(r: Ref, n: int): seq<Ref> { if n <= 0 then [] else [r] + Times(r, n - 1) }

  /** Each replica as often as its weight says. */
  function Weighted(t: Registry, replicas: seq<Replica>): seq<Ref> {
    if replicas == [] then []
    else Times(RefTo(t, replicas[0].name), replicas[0].weight) + Weighted(t, replicas[1..])
  }

  /** The failover candidates, each once. */
  function Candidates(t: Registry, names: seq<string>, seen: set<string>): seq<Ref> {
    if names == [] then []
    else if names[0] in seen then Candidates(t, names[1..], seen)
    else [RefTo(t, names[0])] + Candidates(t, names[1..], seen + {names[0]})
  }

  function MakeGroup(t: Registry, cfg: GroupConfig): Source {
    var primary := RefTo(t, cfg.primary);
    Group(t.next, primary, Weighted(t, cfg.replicas),
          if cfg.failover == [] then [] else [primary] + Candidates(t, cfg.failover, {cfg.primary}),
          cfg.shadow, None)
  }

  function Flagged(s: Source): Source { if s.Plain? then s.(readReplica := true) else s }

  function FlagNames(sources: map<string, Source>, replicas: seq<Replica>): map<string, Source> {
    if replicas == [] then sources
    else
      var name := replicas[0].name;
      FlagNames(if name in sources then sources[name := Flagged(sources[name])] else sources, replicas[1..])
  }

  /** Registers a group whose references were checked; its shadow is still to be resolved. */
  function PutGroup(t: Registry, cfg: GroupConfig): Registry {
    t.(sources := FlagNames(t.sources, cfg.replicas)[cfg.name := MakeGroup(t, cfg)], next := t.next + 1)
  }

  function InsertGroup(t: Registry, cfg: GroupConfig, fencing: bool, lossy: bool): (Registry, Status) {
    if Acceptable(t, cfg, fencing, lossy) then (PutGroup(t, cfg), Ok) else (t, ConfigError)
  }

  // ----- Shadows -----

  predicate ShadowFits(t: Registry, g: Source)
    requires g.Group?
  {
    && g.shadowName in t.sources && t.sources[g.shadowName].Plain?
    && RefTo(t, g.shadowName) != g.primary && RefTo(t, g.shadowName) !in g.replicas
  }

  /** One turn of the loop over the table. */
  function ResolveOne(t: Registry, k: string): Option<Registry> {
    if k !in t.sources || !t.sources[k].Group? || t.sources[k].shadowName == "" then Some(t)
    else if !ShadowFits(t, t.sources[k]) then None
    else
      var g := t.sources[k];
      Some(t.(sources := t.sources[k := g.(shadow := Some(RefTo(t, g.shadowName)))]))
  }

  /** The loop, in the table's own order; it stops at the first group whose shadow does not fit. */
  function ResolveShadows(t: Registry, order: seq<string>): (Registry, Status)
    decreases |order|
  {
    if order == [] then (t, Ok)
    else
      match ResolveOne(t, order[0])
      case None => (t, ConfigError)
      case Some(u) => ResolveShadows(u, order[1..])
  }

  function Rollback(t: Registry, name: string): Registry { t.(sources := t.sources - {name}) }

  /** Adding a group when nothing comes in between. */
  function AddGroup(t: Registry, cfg: GroupConfig, fencing: bool, lossy: bool, order: seq<string>): (Registry, Status) {
    var (u, inserted) := InsertGroup(t, cfg, fencing, lossy);
    if inserted == Ok then FinishGroup(u, cfg.name, order) else (u, inserted)
  }

  function FinishGroup(t: Registry, name: string, order: seq<string>): (Registry, Status) {
    var (u, resolved) := ResolveShadows(t, order);
    if resolved == Ok then (u, Ok) else (Rollback(u, name), resolved)
  }

  // ----- Removing -----

  predicate Names(rs: seq<Ref>, name: string) { exists i | 0 <= i < |rs| :: rs[i].name == name }

  predicate Mentions(g: Source, name: string) {
    && g.Group?
    && (|| g.primary.name == name || Names(g.replicas, name) || Names(g.failover, name)
        || (g.shadow.Some? && g.shadow.value.name == name))
  }

  predicate InUse(t: Registry, name: string) {
    exists k | k in t.sources :: k != name && Mentions(t.sources[k], name)
  }

  function RemoveDataSource(t: Registry, name: string): (Registry, Status) {
    if name !in t.pools || name == t.defaultName || InUse(t, name) then (t, ConfigError)
    else (t.(pools := t.pools - {name}, sources := t.sources - {name}), Ok)
  }

  function Unflagged(s: Source): Source { if s.Plain? then s.(readReplica := false) else s }

  function ClearFlags(sources: map<string, Source>): map<string, Source> {
    map k | k in sources :: Unflagged(sources[k])
  }

  function FlagRef(sources: map<string, Source>, r: Ref): map<string, Source> {
    if r.name in sources && sources[r.name].id == r.id then sources[r.name := Flagged(sources[r.name])] else sources
  }

  function FlagRefs(sources: map<string, Source>, rs: seq<Ref>): map<string, Source> {
    if rs == [] then sources else FlagRefs(FlagRef(sources, rs[0]), rs[1..])
  }

  function FlagGroups(sources: map<string, Source>, order: seq<string>): map<string, Source>
    decreases |order|
  {
    if order == [] then sources
    else if order[0] in sources && sources[order[0]].Group? then
      FlagGroups(FlagRefs(sources, sources[order[0]].replicas), order[1..])
    else FlagGroups(sources, order[1..])
  }

  function RemoveGroup(t: Registry, name: string, order: seq<string>): (Registry, Status) {
    if name !in t.sources || name in t.pools || name == t.defaultName then (t, ConfigError)
    else (t.(sources := FlagGroups(ClearFlags(t.sources - {name}), order)), Ok)
  }

  // ----- The invariant -----

  /** The reference is to a registered plain data source, which has a pool. */
  predicate Registered(t: Registry, r: Ref) {
    r.name in t.pools && r.name in t.sources && t.sources[r.name].Plain? && t.sources[r.name].id == r.id
  }

  ghost predicate AllRegistered(t: Registry, rs: seq<Ref>) { forall i | 0 <= i < |rs| :: Registered(t, rs[i]) }

  ghost predicate AllFlagged(t: Registry, rs: seq<Ref>) {
    forall i | 0 <= i < |rs| :: Registered(t, rs[i]) && t.sources[rs[i].name].readReplica
  }

  /** A group points only at registered plain data sources, its replicas are marked as such, and
      it does not shadow itself. */
  ghost predicate GroupClosed(t: Registry, g: Source)
    requires g.Group?
  {
    && Registered(t, g.primary) && AllFlagged(t, g.replicas) && AllRegistered(t, g.failover)
    && (g.shadow.Some? ==> Registered(t, g.shadow.value) && g.shadow.value != g.primary && g.shadow.value !in g.replicas)
  }

  ghost predicate Structured(t: Registry) {
    && (forall k :: k in t.pools <==> k in t.sources && t.sources[k].Plain?)
    && (forall k | k in t.sources && t.sources[k].Group? :: GroupClosed(t, t.sources[k]))
    && "" !in t.sources
  }

  ghost predicate Closed(t: Registry) { Structured(t) && t.defaultName in t.sources }

  // ----- References survive what leaves their targets in place -----

  /** Every plain data source of `t` is still the same object in `u`, and no flag was lowered. */
  ghost predicate Extends(t: Registry, u: Registry) {
    forall k | k in t.pools && k in t.sources && t.sources[k].Plain? ::
      && k in u.pools && k in u.sources && u.sources[k].Plain? && u.sources[k].id == t.sources[k].id
      && (t.sources[k].readReplica ==> u.sources[k].readReplica)
  }

  lemma GroupCarries(t: Registry, u: Registry, g: Source)
    requires Extends(t, u) && g.Group? && GroupClosed(t, g)
    ensures GroupClosed(u, g)
  {
  }

  /** Groups that were there, and all their targets, carry over. */
  lemma StructureCarries(t: Registry, u: Registry, k: string)
    requires Structured(t) && Extends(t, u)
    requires k in u.sources && u.sources[k].Group? && k in t.sources && t.sources[k] == u.sources[k]
    ensures GroupClosed(u, u.sources[k])
  {
    GroupCarries(t, u, t.sources[k]);
  }

  lemma AddPlainStructured(t: Registry, name: string, readReplica: bool)
    requires Structured(t) && name != "" && name !in t.sources
    ensures Structured(AddPlain(t, name, readReplica))
  {
    var u := AddPlain(t, name, readReplica);
    assert Extends(t, u);
    forall k | k in u.sources && u.sources[k].Group? ensures GroupClosed(u, u.sources[k]) {
      StructureCarries(t, u, k);
    }
  }

  // ----- Flags -----

  /** The same objects, with no flag lowered. */
  ghost predicate Raised(a: map<string, Source>, b: map<string, Source>) {
    && a.Keys == b.Keys
    && forall k | k in a ::
         && (a[k].Group? ==> b[k] == a[k])
         && (a[k].Plain? ==> b[k].Plain? && b[k].id == a[k].id && (a[k].readReplica ==> b[k].readReplica))
  }

  lemma {:induction false} FlagNamesRaises(sources: map<string, Source>, replicas: seq<Replica>)
    ensures Raised(sources, FlagNames(sources, replicas))
    ensures forall i | 0 <= i < |replicas| && replicas[i].name in sources && sources[replicas[i].name].Plain? ::
              FlagNames(sources, replicas)[replicas[i].name].readReplica
    decreases |replicas|
  {
    if replicas != [] {
      var name := replicas[0].name;
      var first := if name in sources then sources[name := Flagged(sources[name])] else sources;
      FlagNamesRaises(first, replicas[1..]);
      assert Raised(sources, first);
    }
  }

  // ----- Building a group -----

  lemma {:induction false} TimesOf(r: Ref, n: int)
    ensures forall x | x in Times(r, n) :: x == r
  {
    if n > 0 {
      TimesOf(r, n - 1);
    }
  }

  lemma {:induction false} WeightedFrom(t: Registry, replicas: seq<Replica>)
    ensures forall x | x in Weighted(t, replicas) ::
              exists i :: 0 <= i < |replicas| && x == RefTo(t, replicas[i].name)
  {
    if replicas != [] {
      WeightedFrom(t, replicas[1..]);
      TimesOf(RefTo(t, replicas[0].name), replicas[0].weight);
      forall x | x in Weighted(t, replicas) ensures exists i :: 0 <= i < |replicas| && x == RefTo(t, replicas[i].name) {
        if x in Weighted(t, replicas[1..]) {
          var i :| 0 <= i < |replicas[1..]| && x == RefTo(t, replicas[1..][i].name);
          assert replicas[i + 1] == replicas[1..][i];
        }
      }
    }
  }

  lemma {:induction false} TimesCounts(r: Ref, n: int)
    ensures |Times(r, n)| == (if n < 0 then 0 else n)
  {
    if n > 0 {
      TimesCounts(r, n - 1);
    }
  }

  lemma WeightedOne(t: Registry, r: Replica)
    ensures |Weighted(t, [r])| == (if r.weight < 0 then 0 else r.weight)
    ensures forall x | x in Weighted(t, [r]) :: x == RefTo(t, r.name)
  {
    TimesOf(RefTo(t, r.name), r.weight);
    TimesCounts(RefTo(t, r.name), r.weight);
    assert [r][1..] == [] && Weighted(t, [r]) == Times(RefTo(t, r.name), r.weight) + [];
  }

  lemma {:induction false} WeightedAppend(t: Registry, a: seq<Replica>, b: seq<Replica>)
    ensures Weighted(t, a + b) == Weighted(t, a) + Weighted(t, b)
  {
    if a == [] {
      assert a + b == b;
    } else {
      assert (a + b)[1..] == a[1..] + b;
      WeightedAppend(t, a[1..], b);
      Assoc(Times(RefTo(t, a[0].name), a[0].weight), Weighted(t, a[1..]), Weighted(t, b));
    }
  }

  /** Every replica stands as often as its weight says, negative weights counting as none, behind
      those that the configuration names before it. */
  lemma WeightedInOrder(t: Registry, a: seq<Replica>, r: Replica)
    ensures Weighted(t, a + [r]) == Weighted(t, a) + Weighted(t, [r])
    ensures |Weighted(t, [r])| == (if r.weight < 0 then 0 else r.weight)
    ensures forall x | x in Weighted(t, [r]) :: x == RefTo(t, r.name)
  {
    WeightedAppend(t, a, [r]);
    WeightedOne(t, r);
  }

  /** Every failover name that was not seen before occurs, where it is first named. */
  lemma {:induction false} CandidatesInOrder(t: Registry, a: seq<string>, name: string, seen: set<string>)
    ensures Candidates(t, a + [name], seen)
            == Candidates(t, a, seen) + (if name in seen || name in a then [] else [RefTo(t, name)])
    decreases |a|
  {
    if a == [] {
      assert a + [name] == [name] && [name][1..] == [];
    } else {
      assert (a + [name])[1..] == a[1..] + [name] && a == [a[0]] + a[1..];
      CandidatesInOrder(t, a[1..], name, if a[0] in seen then seen else seen + {a[0]});
    }
  }

  lemma {:induction false} CandidatesFrom(t: Registry, names: seq<string>, seen: set<string>)
    ensures forall x | x in Candidates(t, names, seen) ::
              x.name !in seen && exists i :: 0 <= i < |names| && x == RefTo(t, names[i])
    ensures forall i, j | 0 <= i < j < |Candidates(t, names, seen)| ::
              Candidates(t, names, seen)[i].name != Candidates(t, names, seen)[j].name
    decreases |names|
  {
    if names != [] {
      var rest := names[1..];
      var now := if names[0] in seen then seen else seen + {names[0]};
      CandidatesFrom(t, rest, now);
      forall x | x in Candidates(t, rest, now) ensures exists i :: 0 <= i < |names| && x == RefTo(t, names[i]) {
        var i :| 0 <= i < |rest| && x == RefTo(t, rest[i]);
        assert names[i + 1] == rest[i];
      }
      assert names[0] !in seen ==> Candidates(t, names, seen)[1..] == Candidates(t, rest, now);
      assert RefTo(t, names[0]).name == names[0];
    }
  }

  lemma RefToRegistered(t: Registry, name: string)
    requires Structured(t) && name in t.pools
    ensures Registered(t, RefTo(t, name))
  {
  }

  /** A group whose references were checked points at registered data sources only; its
      candidates start with the primary and are distinct. */
  lemma MakeGroupClosed(t: Registry, cfg: GroupConfig)
    requires Structured(t) && RefsKnown(t, cfg)
    ensures var g := MakeGroup(t, cfg);
            && Registered(t, g.primary) && AllRegistered(t, g.replicas) && AllRegistered(t, g.failover)
            && (forall i | 0 <= i < |g.replicas| ::
                  exists j :: 0 <= j < |cfg.replicas| && g.replicas[i].name == cfg.replicas[j].name)
            && (g.failover != [] ==> g.failover[0] == g.primary)
            && forall i, j | 0 <= i < j < |g.failover| :: g.failover[i].name != g.failover[j].name
  {
    var g := MakeGroup(t, cfg);
    WeightedFrom(t, cfg.replicas);
    CandidatesFrom(t, cfg.failover, {cfg.primary});
    RefToRegistered(t, cfg.primary);
    forall i | 0 <= i < |g.replicas|
      ensures Registered(t, g.replicas[i])
      ensures exists j :: 0 <= j < |cfg.replicas| && g.replicas[i].name == cfg.replicas[j].name
    {
      assert g.replicas[i] in Weighted(t, cfg.replicas);
      var j :| 0 <= j < |cfg.replicas| && g.replicas[i] == RefTo(t, cfg.replicas[j].name);
      RefToRegistered(t, cfg.replicas[j].name);
    }
    CandidatesRegistered(t, cfg);
  }

  lemma CandidatesRegistered(t: Registry, cfg: GroupConfig)
    requires Structured(t) && RefsKnown(t, cfg)
    ensures AllRegistered(t, MakeGroup(t, cfg).failover)
  {
    var g := MakeGroup(t, cfg);
    CandidatesFrom(t, cfg.failover, {cfg.primary});
    RefToRegistered(t, cfg.primary);
    forall i | 0 <= i < |g.failover| ensures Registered(t, g.failover[i]) {
      if i > 0 {
        assert g.failover[i] in Candidates(t, cfg.failover, {cfg.primary});
        var j :| 0 <= j < |cfg.failover| && g.failover[i] == RefTo(t, cfg.failover[j]);
        RefToRegistered(t, cfg.failover[j]);
      }
    }
  }

  lemma PutGroupStructured(t: Registry, cfg: GroupConfig)
    requires Structured(t) && RefsKnown(t, cfg) && cfg.name != "" && cfg.name !in t.sources
    ensures Structured(PutGroup(t, cfg)) && Extends(t, PutGroup(t, cfg))
  {
    var u, g := PutGroup(t, cfg), MakeGroup(t, cfg);
    FlagNamesRaises(t.sources, cfg.replicas);
    MakeGroupClosed(t, cfg);
    assert Extends(t, u);
    assert GroupClosed(u, g);
    forall k | k in u.sources && u.sources[k].Group? ensures GroupClosed(u, u.sources[k]) {
      if k != cfg.name {
        StructureCarries(t, u, k);
      }
    }
  }

  // ----- Shadows -----

  lemma ResolveOneStructured(t: Registry, k: string)
    requires Structured(t)
    ensures var r := ResolveOne(t, k);
            r.Some? ==> Structured(r.value) && r.value.sources.Keys == t.sources.Keys
                        && r.value.defaultName == t.defaultName && r.value.pools == t.pools && Extends(t, r.value)
  {
    var r := ResolveOne(t, k);
    if r.Some? && r.value != t {
      var u := r.value;
      assert Extends(t, u);
      forall j | j in u.sources && u.sources[j].Group? ensures GroupClosed(u, u.sources[j]) {
        if j == k {
          GroupCarries(t, u, t.sources[k].(shadow := None));
        } else {
          StructureCarries(t, u, j);
        }
      }
    }
  }

  lemma {:induction false} ResolveStructured(t: Registry, order: seq<string>)
    requires Structured(t)
    ensures var (u, _) := ResolveShadows(t, order);
            && Structured(u) && u.sources.Keys == t.sources.Keys && u.defaultName == t.defaultName
            && u.pools == t.pools && Extends(t, u)
    decreases |order|
  {
    if order != [] {
      ResolveOneStructured(t, order[0]);
      if ResolveOne(t, order[0]).Some? {
        ResolveStructured(ResolveOne(t, order[0]).value, order[1..]);
      }
    }
  }

  /** The same entries, up to which shadows have been set. */
  ghost predicate SameButShadows(t: Registry, u: Registry) {
    && u.sources.Keys == t.sources.Keys && u.pools == t.pools && u.defaultName == t.defaultName && u.next == t.next
    && forall k | k in t.sources ::
         if t.sources[k].Plain? then u.sources[k] == t.sources[k]
         else u.sources[k].Group? && u.sources[k] == t.sources[k].(shadow := u.sources[k].shadow)
  }

  lemma SameFits(t: Registry, u: Registry, k: string)
    requires SameButShadows(t, u) && k in t.sources && t.sources[k].Group?
    ensures ShadowFits(u, u.sources[k]) <==> ShadowFits(t, t.sources[k])
    ensures RefTo(u, t.sources[k].shadowName) == RefTo(t, t.sources[k].shadowName)
            || t.sources[k].shadowName !in t.sources || t.sources[t.sources[k].shadowName].Group?
  {
  }

  /** The group asks for a shadow. */
  predicate Asks(t: Registry, k: string) { k in t.sources && t.sources[k].Group? && t.sources[k].shadowName != "" }

  /** The loop succeeds exactly if every group that asks for a shadow asks for one that fits; each of
      them then has it, and all else is as before. */
  lemma {:induction false} ResolvedWhen(t: Registry, order: seq<string>)
    ensures var (u, st) := ResolveShadows(t, order);
            && SameButShadows(t, u)
            && (st == Ok <==> forall k | k in order && Asks(t, k) :: ShadowFits(t, t.sources[k]))
            && (st == Ok ==> forall k | k in order && Asks(t, k) ::
                  u.sources[k].shadow == Some(RefTo(t, t.sources[k].shadowName)))
            && forall k | k in t.sources && !(k in order && Asks(t, k)) :: u.sources[k] == t.sources[k]
    decreases |order|
  {
    if order != [] {
      assert order == [order[0]] + order[1..];
      var one := ResolveOne(t, order[0]);
      if one.Some? {
        ResolvedWhen(one.value, order[1..]);
        ResolvedStep(t, order);
      }
    }
  }

  lemma ResolvedStep(t: Registry, order: seq<string>)
    requires order != [] && ResolveOne(t, order[0]).Some?
    ensures var v := ResolveOne(t, order[0]).value;
            && SameButShadows(t, v)
            && (forall k :: Asks(v, k) <==> Asks(t, k))
            && (forall k | Asks(t, k) :: ShadowFits(v, v.sources[k]) <==> ShadowFits(t, t.sources[k]))
            && (forall k | Asks(t, k) && ShadowFits(t, t.sources[k]) ::
                  RefTo(v, t.sources[k].shadowName) == RefTo(t, t.sources[k].shadowName))
            && (Asks(t, order[0]) ==>
                && ShadowFits(t, t.sources[order[0]])
                && v.sources[order[0]].shadow == Some(RefTo(t, t.sources[order[0]].shadowName)))
            && (forall k | k in t.sources && !(k == order[0] && Asks(t, k)) :: v.sources[k] == t.sources[k])
  {
    var v := ResolveOne(t, order[0]).value;
    forall k | Asks(t, k) ensures ShadowFits(v, v.sources[k]) <==> ShadowFits(t, t.sources[k]) {
      SameFits(t, v, k);
    }
  }

  // ----- Taking entries away -----

  /** Dropping a name that no group mentions leaves every group closed. */
  lemma DropStructured(t: Registry, name: string)
    requires Structured(t) && !InUse(t, name)
    ensures Structured(t.(pools := t.pools - {name}, sources := t.sources - {name}))
  {
    var u := t.(pools := t.pools - {name}, sources := t.sources - {name});
    forall k | k in u.sources && u.sources[k].Group? ensures GroupClosed(u, u.sources[k]) {
      assert !Mentions(t.sources[k], name);
      Unmentioned(t, u, t.sources[k], name);
    }
  }

  lemma Unmentioned(t: Registry, u: Registry, g: Source, name: string)
    requires u.pools == t.pools - {name} && u.sources == t.sources - {name}
    requires g.Group? && GroupClosed(t, g) && !Mentions(g, name)
    ensures GroupClosed(u, g)
  {
    assert forall i | 0 <= i < |g.replicas| :: g.replicas[i].name != name;
    assert forall i | 0 <= i < |g.failover| :: g.failover[i].name != name;
  }

  /** No group points at a group. */
  lemma GroupNotInUse(t: Registry, name: string)
    requires Structured(t) && name !in t.pools
    ensures !InUse(t, name)
  {
    forall k | k in t.sources ensures !Mentions(t.sources[k], name) {
      if t.sources[k].Group? {
        assert GroupClosed(t, t.sources[k]);
      }
    }
  }

  /** Undoing an insertion erases whatever has the name by then.  That is right exactly if it is
      not a plain data source and not the default. */
  lemma RollbackClosedWhen(t: Registry, name: string)
    requires Closed(t)
    ensures Closed(Rollback(t, name)) <==> name !in t.pools && name != t.defaultName
  {
    var u := Rollback(t, name);
    if name in t.pools {
      assert name in u.pools && name !in u.sources;
    } else {
      GroupNotInUse(t, name);
      DropStructured(t, name);
      assert t.pools - {name} == t.pools;
    }
  }

  // ----- Recomputing the flags -----

  lemma {:induction false} FlagRefsRaises(sources: map<string, Source>, rs: seq<Ref>)
    ensures Raised(sources, FlagRefs(sources, rs))
    ensures forall k | k in sources && sources[k].Plain? ::
              FlagRefs(sources, rs)[k].readReplica <==> sources[k].readReplica || Ref(k, sources[k].id) in rs
    decreases |rs|
  {
    if rs != [] {
      var first := FlagRef(sources, rs[0]);
      assert Raised(sources, first);
      FlagRefsRaises(first, rs[1..]);
      assert rs == [rs[0]] + rs[1..];
      assert forall k | k in sources && sources[k].Plain? ::
          first[k].readReplica <==> sources[k].readReplica || Ref(k, sources[k].id) == rs[0];
    }
  }

  /** Some group named in `order` lists the replica. */
  ghost predicate Listed(sources: map<string, Source>, order: seq<string>, r: Ref) {
    exists g :: g in order && g in sources && sources[g].Group? && r in sources[g].replicas
  }

  lemma ListedSame(a: map<string, Source>, b: map<string, Source>, order: seq<string>, r: Ref)
    requires Raised(a, b)
    ensures Listed(a, order, r) <==> Listed(b, order, r)
  {
    if Listed(a, order, r) {
      var g :| g in order && g in a && a[g].Group? && r in a[g].replicas;
      assert g in b && b[g] == a[g];
    }
    if Listed(b, order, r) {
      var g :| g in order && g in b && b[g].Group? && r in b[g].replicas;
      assert g in a && b[g] == a[g];
    }
  }

  lemma ListedHead(sources: map<string, Source>, order: seq<string>, r: Ref)
    requires order != []
    ensures Listed(sources, order, r)
            <==> Listed(sources, order[1..], r)
                 || (order[0] in sources && sources[order[0]].Group? && r in sources[order[0]].replicas)
  {
    if Listed(sources, order, r) {
      var g :| g in order && g in sources && sources[g].Group? && r in sources[g].replicas;
      assert g == order[0] || g in order[1..];
    }
  }

  lemma {:induction false} FlagGroupsExact(sources: map<string, Source>, order: seq<string>, k: string)
    ensures Raised(sources, FlagGroups(sources, order))
    ensures k in sources && sources[k].Plain? ==>
              (FlagGroups(sources, order)[k].readReplica
               <==> sources[k].readReplica || Listed(sources, order, Ref(k, sources[k].id)))
    decreases |order|
  {
    if order != [] {
      var head := order[0];
      var isGroup := head in sources && sources[head].Group?;
      var first := if isGroup then FlagRefs(sources, sources[head].replicas) else sources;
      FlagRefsRaises(sources, if isGroup then sources[head].replicas else []);
      FlagGroupsExact(first, order[1..], k);
      if k in sources && sources[k].Plain? {
        var r := Ref(k, sources[k].id);
        ListedHead(sources, order, r);
        ListedSame(sources, first, order[1..], r);
      }
    }
  }

  /** Removing a group keeps the rest closed and makes the replica flags exact: a plain data
      source is flagged if and only if a remaining group lists it. */
  lemma RemoveGroupClosed(t: Registry, name: string, order: seq<string>)
    requires Closed(t) && Lists(order, (t.sources - {name}).Keys)
    ensures var (u, st) := RemoveGroup(t, name, order);
            && Closed(u)
            && (st == Ok <==> name in t.sources && name !in t.pools && name != t.defaultName)
            && (st == Ok ==> u.sources.Keys == t.sources.Keys - {name}
                             && forall k | k in u.sources && u.sources[k].Plain? :: FlagExact(u, k))
  {
    var (u, st) := RemoveGroup(t, name, order);
    if st == Ok {
      var rest := t.sources - {name};
      var cleared := ClearFlags(rest);
      FlagGroupsExact(cleared, order, "");
      GroupNotInUse(t, name);
      forall k | k in u.sources && u.sources[k].Plain? ensures FlagExact(u, k) {
        FlagGroupsExact(cleared, order, k);
        ListedSame(cleared, u.sources, order, Ref(k, u.sources[k].id));
      }
      forall g | g in u.sources && u.sources[g].Group? ensures GroupClosed(u, u.sources[g]) {
        assert GroupClosed(t, t.sources[g]) && u.sources[g] == t.sources[g] && !Mentions(t.sources[g], name);
        RemovedGroupCloses(t, u, name, g);
      }
    }
  }

  ghost predicate FlagExact(u: Registry, k: string)
    requires k in u.sources && u.sources[k].Plain?
  {
    u.sources[k].readReplica
    <==> exists g :: g in u.sources && u.sources[g].Group? && Ref(k, u.sources[k].id) in u.sources[g].replicas
  }

  lemma RemovedGroupCloses(t: Registry, u: Registry, name: string, g: string)
    requires g in t.sources && t.sources[g].Group? && GroupClosed(t, t.sources[g]) && !Mentions(t.sources[g], name)
    requires g in u.sources && u.sources[g] == t.sources[g] && u.pools == t.pools
    requires forall k | k in t.sources && k != name && t.sources[k].Plain? ::
               k in u.sources && u.sources[k].Plain? && u.sources[k].id == t.sources[k].id
    requires forall k | k in u.sources && u.sources[k].Plain? :: FlagExact(u, k)
    ensures GroupClosed(u, u.sources[g])
  {
    var s := t.sources[g];
    assert forall i | 0 <= i < |s.replicas| :: s.replicas[i].name != name && s.replicas[i] in s.replicas;
    assert forall i | 0 <= i < |s.failover| :: s.failover[i].name != name;
    forall i | 0 <= i < |s.replicas|
      ensures Registered(u, s.replicas[i]) && u.sources[s.replicas[i].name].readReplica
    {
      var r := s.replicas[i];
      assert Registered(t, r) && FlagExact(u, r.name) && r == Ref(r.name, r.id);
    }
  }

  // ----- Initialisation -----

  datatype SourceConfig = SourceConfig(name: string, known: bool)

  datatype GroupSetup = GroupSetup(cfg: GroupConfig, fencing: bool, lossy: bool)

  datatype Setup = Setup(sources: seq<SourceConfig>, groups: seq<GroupSetup>, defaultName: string)

  function ReplicaNames(groups: seq<GroupSetup>): set<string> {
    set i, j | 0 <= i < |groups| && 0 <= j < |groups[i].cfg.replicas| :: groups[i].cfg.replicas[j].name
  }

  function InitSources(t: Registry, cs: seq<SourceConfig>, replicaNames: set<string>): Option<Registry>
    decreases |cs|
  {
    if cs == [] then Some(t)
    else if cs[0].name == "" || cs[0].name in t.pools || !cs[0].known then None
    else InitSources(AddPlain(t, cs[0].name, cs[0].name in replicaNames), cs[1..], replicaNames)
  }

  function InitGroups(t: Registry, gs: seq<GroupSetup>): Option<Registry>
    decreases |gs|
  {
    if gs == [] then Some(t)
    else
      var cfg := gs[0].cfg;
      if !Acceptable(t, cfg, gs[0].fencing, gs[0].lossy) then None
      else InitGroups(t.(sources := t.sources[cfg.name := MakeGroup(t, cfg)], next := t.next + 1), gs[1..])
  }

  function Init(setup: Setup, order: seq<string>): Option<Registry> {
    if setup.sources == [] then None
    else
      match InitSources(Registry({}, map[], setup.defaultName, 0), setup.sources, ReplicaNames(setup.groups))
      case None => None
      case Some(t) =>
        match InitGroups(t, setup.groups)
        case None => None
        case Some(u) =>
          var (v, st) := ResolveShadows(u, order);
          if setup.defaultName in u.sources && st == Ok then Some(v) else None
  }

  /** Every data source whose name is in the set is flagged. */
  ghost predicate Marked(t: Registry, names: set<string>) {
    forall k | k in t.sources && t.sources[k].Plain? && k in names :: t.sources[k].readReplica
  }

  lemma {:induction false} InitSourcesStructured(t: Registry, cs: seq<SourceConfig>, names: set<string>)
    requires Structured(t) && Marked(t, names) && t.sources.Keys == t.pools
    ensures var r := InitSources(t, cs, names);
            r.Some? ==> Structured(r.value) && Marked(r.value, names) && r.value.defaultName == t.defaultName
    decreases |cs|
  {
    if cs != [] && InitSources(t, cs, names).Some? {
      AddPlainStructured(t, cs[0].name, cs[0].name in names);
      InitSourcesStructured(AddPlain(t, cs[0].name, cs[0].name in names), cs[1..], names);
    }
  }

  lemma InitGroupStructured(t: Registry, cfg: GroupConfig, names: set<string>)
    requires Structured(t) && Marked(t, names) && RefsKnown(t, cfg) && cfg.name != "" && cfg.name !in t.sources
    requires forall j | 0 <= j < |cfg.replicas| :: cfg.replicas[j].name in names
    ensures var u := t.(sources := t.sources[cfg.name := MakeGroup(t, cfg)], next := t.next + 1);
            Structured(u) && Marked(u, names)
  {
    var g := MakeGroup(t, cfg);
    var u := t.(sources := t.sources[cfg.name := g], next := t.next + 1);
    MakeGroupClosed(t, cfg);
    assert Extends(t, u);
    assert AllFlagged(t, g.replicas);
    GroupCarries(t, u, g);
    forall k | k in u.sources && u.sources[k].Group? ensures GroupClosed(u, u.sources[k]) {
      if k != cfg.name {
        StructureCarries(t, u, k);
      }
    }
  }

  lemma {:induction false} InitGroupsStructured(t: Registry, gs: seq<GroupSetup>, names: set<string>)
    requires Structured(t) && Marked(t, names)
    requires forall i, j | 0 <= i < |gs| && 0 <= j < |gs[i].cfg.replicas| :: gs[i].cfg.replicas[j].name in names
    ensures var r := InitGroups(t, gs);
            r.Some? ==> Structured(r.value) && r.value.defaultName == t.defaultName
    decreases |gs|
  {
    if gs != [] && InitGroups(t, gs).Some? {
      var cfg := gs[0].cfg;
      InitGroupStructured(t, cfg, names);
      InitGroupsStructured(t.(sources := t.sources[cfg.name := MakeGroup(t, cfg)], next := t.next + 1), gs[1..], names);
    }
  }

  /** A successful initialisation is closed. */
  lemma InitClosed(setup: Setup, order: seq<string>)
    ensures var r := Init(setup, order); r.Some? ==> Closed(r.value)
  {
    if Init(setup, order).Some? {
      var empty := Registry({}, map[], setup.defaultName, 0);
      var names := ReplicaNames(setup.groups);
      InitSourcesStructured(empty, setup.sources, names);
      var t := InitSources(empty, setup.sources, names).value;
      InitGroupsStructured(t, setup.groups, names);
      ResolveStructured(InitGroups(t, setup.groups).value, order);
    }
  }

  // ----- When the operations succeed -----

  /** A data source is added exactly under a new name and with a known driver. */
  lemma AddWhen(t: Registry, name: string, known: bool)
    ensures var (u, st) := AddDataSource(t, name, known);
            var new_ := name != "" && name !in t.pools && name !in t.sources;
            && (st == Ok <==> new_ && known) && (st == UnknownDriver <==> new_ && !known)
            && (st != Ok ==> u == t)
            && (st == Ok ==> u.sources == t.sources[name := Plain(t.next, false)] && u.pools == t.pools + {name}
                             && u.defaultName == t.defaultName && u.next == t.next + 1)
  {
  }

  /** A data source is removed exactly if it has a pool, is not the default, and no group points at it;
      it alone goes. */
  lemma RemoveWhen(t: Registry, name: string)
    requires Closed(t)
    ensures var (u, st) := RemoveDataSource(t, name);
            && (st == Ok <==> && name in t.pools && name != t.defaultName
                              && forall k | k in t.sources && k != name :: !Mentions(t.sources[k], name))
            && (st != Ok ==> u == t)
            && (st == Ok ==> u.pools == t.pools - {name} && u.sources == t.sources - {name} && u.defaultName == t.defaultName)
  {
  }

  /** A group is inserted exactly under a new name, over known pools, with the acknowledgements that
      failover and buffering ask for; it asks for its shadow and has none yet. */
  lemma InsertWhen(t: Registry, cfg: GroupConfig, fencing: bool, lossy: bool)
    ensures var (u, st) := InsertGroup(t, cfg, fencing, lossy);
            && (st == Ok <==>
                  && cfg.name != "" && cfg.name !in t.pools && cfg.name !in t.sources
                  && (cfg.failover == [] || fencing) && (!cfg.buffered || (lossy && !cfg.readOnly))
                  && cfg.primary in t.pools
                  && (forall r | r in cfg.replicas :: r.name in t.pools) && (forall f | f in cfg.failover :: f in t.pools))
            && (st != Ok ==> u == t)
            && (st == Ok ==>
                  && u.pools == t.pools && u.sources.Keys == t.sources.Keys + {cfg.name} && u.next == t.next + 1
                  && var g := u.sources[cfg.name];
                  && g.Group? && g.id == t.next && g.shadowName == cfg.shadow && g.shadow == None
                  && g.primary == RefTo(t, cfg.primary) && g.replicas == Weighted(t, cfg.replicas)
                  && (g.failover == [] <==> cfg.failover == []))
  {
    FlagNamesRaises(t.sources, cfg.replicas);
  }

  /** The names of the configured data sources are given, new and different, and their drivers known. */
  ghost predicate WellNamed(t: Registry, cs: seq<SourceConfig>) {
    && (forall i | 0 <= i < |cs| :: cs[i].name != "" && cs[i].known && cs[i].name !in t.pools)
    && (forall i, j | 0 <= i < j < |cs| :: cs[i].name != cs[j].name)
  }

  lemma WellNamedSplit(t: Registry, cs: seq<SourceConfig>, flag: bool)
    requires cs != []
    ensures WellNamed(t, cs) <==> && cs[0].name != "" && cs[0].known && cs[0].name !in t.pools
                                  && WellNamed(AddPlain(t, cs[0].name, flag), cs[1..])
  {
    var rest := cs[1..];
    assert forall i | 0 < i < |cs| :: cs[i] == rest[i - 1];
    if WellNamed(AddPlain(t, cs[0].name, flag), rest) {
      assert forall c | c in rest :: c.name != cs[0].name;
      assert forall i | 0 < i < |cs| :: cs[i] in rest;
    }
  }

  lemma {:induction false} InitSourcesWhen(t: Registry, cs: seq<SourceConfig>, names: set<string>)
    ensures InitSources(t, cs, names).Some? <==> WellNamed(t, cs)
    decreases |cs|
  {
    if cs != [] {
      WellNamedSplit(t, cs, cs[0].name in names);
      InitSourcesWhen(AddPlain(t, cs[0].name, cs[0].name in names), cs[1..], names);
    }
  }

  ghost predicate WellGrouped(t: Registry, gs: seq<GroupSetup>) {
    && (forall i | 0 <= i < |gs| :: Acceptable(t, gs[i].cfg, gs[i].fencing, gs[i].lossy))
    && (forall i, j | 0 <= i < j < |gs| :: gs[i].cfg.name != gs[j].cfg.name)
  }

  lemma AcceptableBeside(t: Registry, name: string, s: Source, g: GroupSetup)
    ensures var u := t.(sources := t.sources[name := s], next := t.next + 1);
            Acceptable(u, g.cfg, g.fencing, g.lossy)
            <==> Acceptable(t, g.cfg, g.fencing, g.lossy) && g.cfg.name != name
  {
  }

  lemma WellGroupedSplit(t: Registry, gs: seq<GroupSetup>, s: Source)
    requires gs != []
    ensures var u := t.(sources := t.sources[gs[0].cfg.name := s], next := t.next + 1);
            WellGrouped(t, gs) <==> Acceptable(t, gs[0].cfg, gs[0].fencing, gs[0].lossy) && WellGrouped(u, gs[1..])
  {
    var rest := gs[1..];
    assert forall i | 0 < i < |gs| :: gs[i] == rest[i - 1];
    forall i | 0 < i < |gs| {
      AcceptableBeside(t, gs[0].cfg.name, s, gs[i]);
    }
  }

  lemma {:induction false} InitGroupsWhen(t: Registry, gs: seq<GroupSetup>)
    ensures InitGroups(t, gs).Some? <==> WellGrouped(t, gs)
    decreases |gs|
  {
    if gs != [] {
      var g := MakeGroup(t, gs[0].cfg);
      WellGroupedSplit(t, gs, g);
      InitGroupsWhen(t.(sources := t.sources[gs[0].cfg.name := g], next := t.next + 1), gs[1..]);
    }
  }

  /** An initialisation succeeds exactly if there is a data source, their names are different and
      their drivers known, every group is acceptable under a name of its own, the default exists,
      and every shadow asked for fits. */
  lemma InitWhen(setup: Setup, order: seq<string>)
    ensures var empty := Registry({}, map[], setup.defaultName, 0);
            Init(setup, order).Some? <==>
              && setup.sources != [] && WellNamed(empty, setup.sources)
              && var t := InitSources(empty, setup.sources, ReplicaNames(setup.groups));
              && t.Some? && WellGrouped(t.value, setup.groups)
              && var u := InitGroups(t.value, setup.groups);
              && u.Some? && setup.defaultName in u.value.sources
              && forall k | k in order && Asks(u.value, k) :: ShadowFits(u.value, u.value.sources[k])
  {
    var empty := Registry({}, map[], setup.defaultName, 0);
    var names := ReplicaNames(setup.groups);
    InitSourcesWhen(empty, setup.sources, names);
    if InitSources(empty, setup.sources, names).Some? {
      var t := InitSources(empty, setup.sources, names).value;
      InitGroupsWhen(t, setup.groups);
      if InitGroups(t, setup.groups).Some? {
        ResolvedWhen(InitGroups(t, setup.groups).value, order);
      }
    }
  }

  // ----- Runs -----

  /** The critical sections of the operations of any number of threads. */
  datatype Event =
    | AddingSource(name: string, known: bool)
    | RemovingSource(name: string)
    | InsertingGroup(cfg: GroupConfig, fencing: bool, lossy: bool)
    | Resolving(order: seq<string>)
    | RollingBack(name: string)
    | RemovingGroup(name: string, order: seq<string>)

  /** Removing a group visits whatever else is in the table. */
  ghost predicate Enabled(t: Registry, e: Event) {
    e.RemovingGroup? ==> Lists(e.order, (t.sources - {e.name}).Keys)
  }

  /** The event undoes an insertion whose name by now belongs to a data source, or is the default. */
  predicate Overtaken(t: Registry, e: Event) {
    e.RollingBack? && (e.name in t.pools || e.name == t.defaultName)
  }

  function Step(t: Registry, e: Event): Registry {
    match e
    case AddingSource(name, known) => AddDataSource(t, name, known).0
    case RemovingSource(name) => RemoveDataSource(t, name).0
    case InsertingGroup(cfg, fencing, lossy) => InsertGroup(t, cfg, fencing, lossy).0
    case Resolving(order) => ResolveShadows(t, order).0
    case RollingBack(name) => Rollback(t, name)
    case RemovingGroup(name, order) => RemoveGroup(t, name, order).0
  }

  /** A step keeps the registry closed exactly if it is not an overtaken undoing. */
  lemma StepClosed(t: Registry, e: Event)
    requires Closed(t) && Enabled(t, e)
    ensures Closed(Step(t, e)) <==> !Overtaken(t, e)
  {
    match e
    case AddingSource(name, known) =>
      if AddDataSource(t, name, known).1 == Ok {
        AddPlainStructured(t, name, false);
      }
    case RemovingSource(name) =>
      if RemoveDataSource(t, name).1 == Ok {
        DropStructured(t, name);
      }
    case InsertingGroup(cfg, fencing, lossy) =>
      if Acceptable(t, cfg, fencing, lossy) {
        InsertedGroup(t, cfg);
      }
    case Resolving(order) => ResolveStructured(t, order);
    case RollingBack(name) => RollbackClosedWhen(t, name);
    case RemovingGroup(name, order) => RemoveGroupClosed(t, name, order);
  }

  ghost predicate Run(t: Registry, es: seq<Event>, u: Registry)
    decreases |es|
  {
    if es == [] then t == u else Enabled(t, es[0]) && Run(Step(t, es[0]), es[1..], u)
  }

  ghost predicate NeverOvertaken(t: Registry, es: seq<Event>)
    decreases |es|
  {
    es == [] || (!Overtaken(t, es[0]) && NeverOvertaken(Step(t, es[0]), es[1..]))
  }

  ghost predicate AlwaysClosed(t: Registry, es: seq<Event>)
    decreases |es|
  {
    Closed(t) && (es == [] || AlwaysClosed(Step(t, es[0]), es[1..]))
  }

  lemma {:induction false} RunClosed(t: Registry, es: seq<Event>, u: Registry)
    requires Closed(t) && Run(t, es, u)
    ensures AlwaysClosed(t, es) <==> NeverOvertaken(t, es)
    ensures AlwaysClosed(t, es) ==> Closed(u)
    decreases |es|
  {
    if es != [] {
      StepClosed(t, es[0]);
      if !Overtaken(t, es[0]) {
        RunClosed(Step(t, es[0]), es[1..], u);
      }
    }
  }

  /** From a successful initialisation, a run stays closed throughout exactly if none of its steps
      is an overtaken undoing.  It then leaves every group's primary, replicas, failover
      candidates and shadow registered as plain data sources with a pool, every listed replica
      flagged, group names apart from pool names, and the default registered. */
  lemma StaysClosed(setup: Setup, order: seq<string>, es: seq<Event>, u: Registry, k: string)
    requires Init(setup, order).Some? && Run(Init(setup, order).value, es, u)
    ensures var t := Init(setup, order).value;
            && (AlwaysClosed(t, es) <==> NeverOvertaken(t, es))
            && (NeverOvertaken(t, es) ==>
                && u.defaultName in u.sources
                && (k in u.pools <==> k in u.sources && u.sources[k].Plain?)
                && (k in u.sources && u.sources[k].Group? ==> k !in u.pools && GroupClosed(u, u.sources[k])))
  {
    InitClosed(setup, order);
    RunClosed(Init(setup, order).value, es, u);
  }

  ghost predicate FlaggedIn(t: Registry, r: Ref) { Registered(t, r) && t.sources[r.name].readReplica }

  lemma InsertedGroup(t: Registry, cfg: GroupConfig)
    requires Closed(t) && RefsKnown(t, cfg) && cfg.name != "" && cfg.name !in t.sources
    ensures var u := PutGroup(t, cfg);
            && Closed(u) && u.sources.Keys == t.sources.Keys + {cfg.name} && u.pools == t.pools
            && u.defaultName == t.defaultName
            && forall i | 0 <= i < |cfg.replicas| :: FlaggedIn(u, RefTo(t, cfg.replicas[i].name))
  {
    PutGroupStructured(t, cfg);
    FlagNamesRaises(t.sources, cfg.replicas);
  }

  /** Undoing an insertion that nothing overtook. */
  lemma UndoneGroup(t: Registry, name: string)
    requires Closed(t) && name !in t.pools && name != t.defaultName
    ensures Closed(Rollback(t, name)) && Rollback(t, name).sources.Keys == t.sources.Keys - {name}
    ensures forall r | FlaggedIn(t, r) :: FlaggedIn(Rollback(t, name), r)
  {
    RollbackClosedWhen(t, name);
  }

  lemma FinishedGroup(t: Registry, name: string, order: seq<string>)
    requires Closed(t) && name !in t.pools && name != t.defaultName
    ensures var (u, st) := FinishGroup(t, name, order);
            && Closed(u) && u.sources.Keys == (if st == Ok then t.sources.Keys else t.sources.Keys - {name})
            && forall r | FlaggedIn(t, r) :: FlaggedIn(u, r)
  {
    ResolveStructured(t, order);
    var v := ResolveShadows(t, order).0;
    assert forall r | FlaggedIn(t, r) :: FlaggedIn(v, r);
    UndoneGroup(v, name);
  }

  /** Adding a group when nothing comes in between: closed either way, all or nothing in names,
      and a group that is taken back leaves the flags that it raised. */
  lemma AddGroupClosed(t: Registry, cfg: GroupConfig, fencing: bool, lossy: bool, order: seq<string>)
    requires Closed(t)
    ensures var (u, st) := AddGroup(t, cfg, fencing, lossy, order);
            && Closed(u)
            && u.sources.Keys == (if st == Ok then t.sources.Keys + {cfg.name} else t.sources.Keys)
            && (Acceptable(t, cfg, fencing, lossy) ==>
                forall i | 0 <= i < |cfg.replicas| :: FlaggedIn(u, RefTo(t, cfg.replicas[i].name)))
  {
    if Acceptable(t, cfg, fencing, lossy) {
      InsertedGroup(t, cfg);
      FinishedGroup(PutGroup(t, cfg), cfg.name, order);
      assert t.sources.Keys + {cfg.name} - {cfg.name} == t.sources.Keys;
    }
  }

  // ----- An overtaken undoing -----

  /** The group's shadow is asked for but is not a plain data source. */
  predicate Unfit(t: Registry, k: string) {
    && k in t.sources && t.sources[k].Group? && t.sources[k].shadowName != ""
    && (t.sources[k].shadowName in t.sources ==> t.sources[t.sources[k].shadowName].Group?)
  }

  /** Whatever the order, the shadow loop cannot get past such a group. */
  lemma {:induction false} UnfitStops(t: Registry, order: seq<string>, k: string)
    requires Unfit(t, k) && k in order
    ensures ResolveShadows(t, order).1 == ConfigError
    decreases |order|
  {
    if order[0] != k && ResolveOne(t, order[0]).Some? {
      var u := ResolveOne(t, order[0]).value;
      assert Unfit(u, k);
      UnfitStops(u, order[1..], k);
    }
  }

  /** The group's shadow is an unknown name, or its own. */
  predicate ShadowMissing(t: Registry, k: string) {
    && k in t.sources && t.sources[k].Group? && t.sources[k].shadowName != ""
    && (t.sources[k].shadowName in t.sources ==> t.sources[k].shadowName == k)
  }

  /** It stays so when another name is registered. */
  lemma StillMissing(t: Registry, k: string, name: string)
    requires ShadowMissing(t, k) && name !in t.sources && name !in t.pools && name != "" && name != t.sources[k].shadowName
    ensures Unfit(AddDataSource(t, name, true).0, k)
  {
  }

  /** A group between two other operations leaves the remaining entries as they were, except for
      flags. */
  lemma InsertThenRemove(t: Registry, cfg: GroupConfig, fencing: bool, lossy: bool, order: seq<string>)
    requires Closed(t) && Acceptable(t, cfg, fencing, lossy) && Lists(order, t.sources.Keys)
    ensures var b := RemoveGroup(PutGroup(t, cfg), cfg.name, order);
            && b.1 == Ok && Closed(b.0) && b.0.sources.Keys == t.sources.Keys && b.0.pools == t.pools
            && forall k | k in t.sources && t.sources[k].Group? :: b.0.sources[k] == t.sources[k]
  {
    var a := PutGroup(t, cfg);
    InsertedGroup(t, cfg);
    FlagNamesRaises(t.sources, cfg.replicas);
    var rest := a.sources - {cfg.name};
    assert rest.Keys == t.sources.Keys;
    assert cfg.name != a.defaultName;
    RemoveGroupClosed(a, cfg.name, order);
    FlagGroupsExact(ClearFlags(rest), order, "");
  }

  /** Finishing under a name that a data source took over, while some group's shadow is unfit. */
  lemma FinishTearsOut(t: Registry, name: string, order: seq<string>, k: string)
    requires Closed(t) && Unfit(t, k) && k in order && name in t.pools
    ensures var d := FinishGroup(t, name, order);
            ResolveShadows(t, order).1 == d.1 == ConfigError && !Closed(d.0) && name in d.0.pools && name !in d.0.sources
  {
    UnfitStops(t, order, k);
    ResolveStructured(t, order);
    RollbackClosedWhen(ResolveShadows(t, order).0, name);
  }

  lemma AddUnderNewName(t: Registry, name: string)
    requires Closed(t) && name != "" && name !in t.sources
    ensures var c := AddDataSource(t, name, true); c.1 == Ok && Closed(c.0) && name in c.0.pools
  {
    AddPlainStructured(t, name, false);
  }

  /** An interleaving of four threads.  One inserts a group whose shadow is unknown and goes no
      further.  The second inserts another group; the third removes that group and the fourth
      registers a data source under its name.  Now the second resolves the shadows, fails at the
      first thread's group, and undoes its own insertion: the data source is torn out, and its
      pool stays. */
  lemma OvertakenRollback(t: Registry, other: GroupConfig, cfg: GroupConfig, fencing: bool, lossy: bool,
                          order: seq<string>, listing: seq<string>)
    requires Closed(t) && Acceptable(t, other, fencing, lossy) && Acceptable(t, cfg, fencing, lossy)
    requires other.name != cfg.name && other.shadow != "" && other.shadow !in t.sources && other.shadow != cfg.name
    requires Lists(order, t.sources.Keys + {other.name})
    requires Lists(listing, t.sources.Keys + {other.name, cfg.name})
    ensures var h := InsertGroup(t, other, fencing, lossy);
            var a := InsertGroup(h.0, cfg, fencing, lossy);
            var b := RemoveGroup(a.0, cfg.name, order);
            var c := AddDataSource(b.0, cfg.name, true);
            var d := FinishGroup(c.0, cfg.name, listing);
            && h.1 == a.1 == b.1 == c.1 == Ok && Closed(c.0)
            && ResolveShadows(c.0, listing).1 == d.1 == ConfigError
            && !Closed(d.0) && cfg.name in d.0.pools && cfg.name !in d.0.sources
  {
    var h := PutGroup(t, other);
    InsertedGroup(t, other);
    TakenOver(h, other.name, cfg, fencing, lossy, order, listing);
  }

  /** The last three threads. */
  lemma TakenOver(h: Registry, k: string, cfg: GroupConfig, fencing: bool, lossy: bool,
                  order: seq<string>, listing: seq<string>)
    requires Closed(h) && Acceptable(h, cfg, fencing, lossy) && ShadowMissing(h, k) && h.sources[k].shadowName != cfg.name
    requires Lists(order, h.sources.Keys) && Lists(listing, h.sources.Keys + {cfg.name})
    ensures var b := RemoveGroup(PutGroup(h, cfg), cfg.name, order);
            var c := AddDataSource(b.0, cfg.name, true);
            var d := FinishGroup(c.0, cfg.name, listing);
            && b.1 == c.1 == Ok && Closed(c.0) && ResolveShadows(c.0, listing).1 == d.1 == ConfigError
            && !Closed(d.0) && cfg.name in d.0.pools && cfg.name !in d.0.sources
  {
    InsertThenRemove(h, cfg, fencing, lossy, order);
    var b := RemoveGroup(PutGroup(h, cfg), cfg.name, order).0;
    AddUnderNewName(b, cfg.name);
    StillMissing(b, k, cfg.name);
    FinishTearsOut(AddDataSource(b, cfg.name, true).0, cfg.name, listing, k);
  }

  // ----- The code -----

  class Manager {
    var pools: set<string>
    var datasources: map<string, Source>
    var defaultName: string
    var nextId: nat

    ghost function View(): Registry
      reads this
    {
      Registry(pools, datasources, defaultName, nextId)
    }

    /** The state that an initialisation leaves. */
    constructor (start: Registry)
      ensures View() == start
    {
      pools, datasources, defaultName, nextId := start.pools, start.sources, start.defaultName, start.next;
    }

    method Add(name: string, known: bool) returns (st: Status)
      modifies this`pools, this`datasources, this`nextId
      ensures (View(), st) == AddDataSource(old(View()), name, known)
    {
      if name == "" || name in pools || name in datasources {
        return ConfigError;
      }
      if !known {
        return UnknownDriver;
      }
      pools := pools + {name};
      datasources := datasources[name := Plain(nextId, false)];
      nextId := nextId + 1;
      return Ok;
    }

    /** Looks for a group that still needs the name, in the table's order. */
    method FindUse(name: string, order: seq<string>) returns (used: bool)
      requires Lists(order, datasources.Keys)
      ensures used == InUse(View(), name)
    {
      for i := 0 to |order|
        invariant forall j | 0 <= j < i :: order[j] == name || !Mentions(datasources[order[j]], name)
      {
        assert order[i] in order;
        if order[i] == name {
          continue;
        }
        if Mentions(datasources[order[i]], name) {
          return true;
        }
      }
      assert forall k | k in datasources :: k in order;
      return false;
    }

    method Remove(name: string, order: seq<string>) returns (st: Status)
      requires Lists(order, datasources.Keys)
      modifies this`pools, this`datasources
      ensures (View(), st) == RemoveDataSource(old(View()), name)
    {
      if name !in pools || name == defaultName {
        return ConfigError;
      }
      var used := FindUse(name, order);
      if used {
        return ConfigError;
      }
      pools := pools - {name};
      datasources := datasources - {name};
      return Ok;
    }

    method CheckRefs(cfg: GroupConfig) returns (ok: bool)
      ensures ok == RefsKnown(View(), cfg)
    {
      if cfg.primary !in pools {
        return false;
      }
      for i := 0 to |cfg.replicas|
        invariant forall j | 0 <= j < i :: cfg.replicas[j].name in pools
      {
        if cfg.replicas[i].name !in pools {
          return false;
        }
      }
      for i := 0 to |cfg.failover|
        invariant forall j | 0 <= j < i :: cfg.failover[j] in pools
      {
        if cfg.failover[i] !in pools {
          return false;
        }
      }
      return true;
    }

    method WeightReplicas(replicas: seq<Replica>) returns (refs: seq<Ref>)
      ensures refs == Weighted(View(), replicas)
    {
      refs := [];
      for i := 0 to |replicas|
        invariant refs + Weighted(View(), replicas[i..]) == Weighted(View(), replicas)
      {
        assert replicas[i..][1..] == replicas[i + 1..];
        var r := RefTo(Registry(pools, datasources, defaultName, nextId), replicas[i].name);
        var copies := Repeat(r, replicas[i].weight);
        Assoc(refs, copies, Weighted(View(), replicas[i + 1..]));
        refs := refs + copies;
      }
    }

    method CollectCandidates(primary: string, names: seq<string>) returns (refs: seq<Ref>)
      ensures refs == Candidates(View(), names, {primary})
    {
      refs := [];
      var seen := {primary};
      for i := 0 to |names|
        invariant refs + Candidates(View(), names[i..], seen) == Candidates(View(), names, {primary})
      {
        assert names[i..][1..] == names[i + 1..];
        if names[i] in seen {
          continue;
        }
        var r := RefTo(Registry(pools, datasources, defaultName, nextId), names[i]);
        seen := seen + {names[i]};
        Assoc(refs, [r], Candidates(View(), names[i + 1..], seen));
        refs := refs + [r];
      }
    }

    method FlagReplicas(replicas: seq<Replica>)
      modifies this`datasources
      ensures datasources == FlagNames(old(datasources), replicas)
    {
      for i := 0 to |replicas|
        invariant FlagNames(datasources, replicas[i..]) == FlagNames(old(datasources), replicas)
      {
        assert replicas[i..][1..] == replicas[i + 1..];
        var name := replicas[i].name;
        if name in datasources {
          datasources := datasources[name := Flagged(datasources[name])];
        }
      }
    }

    /** The locked part of adding a group. */
    method Insert(cfg: GroupConfig, fencing: bool, lossy: bool) returns (st: Status)
      modifies this`datasources, this`nextId
      ensures (View(), st) == InsertGroup(old(View()), cfg, fencing, lossy)
    {
      if cfg.name == "" || cfg.name in pools || cfg.name in datasources {
        return ConfigError;
      }
      if cfg.failover != [] && !fencing {
        return ConfigError;
      }
      if cfg.buffered && !lossy {
        return ConfigError;
      }
      var known := CheckRefs(cfg);
      if !known || (cfg.readOnly && cfg.buffered) {
        return ConfigError;
      }
      var primary := RefTo(Registry(pools, datasources, defaultName, nextId), cfg.primary);
      var replicas := WeightReplicas(cfg.replicas);
      var failover := [];
      if cfg.failover != [] {
        failover := CollectCandidates(cfg.primary, cfg.failover);
        failover := [primary] + failover;
      }
      FlagReplicas(cfg.replicas);
      datasources := datasources[cfg.name := Group(nextId, primary, replicas, failover, cfg.shadow, None)];
      nextId := nextId + 1;
      return Ok;
    }

    method Resolve(order: seq<string>) returns (st: Status)
      modifies this`datasources
      ensures (View(), st) == ResolveShadows(old(View()), order)
    {
      for i := 0 to |order|
        invariant ResolveShadows(View(), order[i..]) == ResolveShadows(old(View()), order)
      {
        assert order[i..][1..] == order[i + 1..];
        var now := Registry(pools, datasources, defaultName, nextId);
        var k := order[i];
        if k !in datasources || !datasources[k].Group? || datasources[k].shadowName == "" {
          continue;
        }
        var g := datasources[k];
        if !ShadowFits(now, g) {
          return ConfigError;
        }
        datasources := datasources[k := g.(shadow := Some(RefTo(now, g.shadowName)))];
      }
      return Ok;
    }

    method Undo(name: string)
      modifies this`datasources
      ensures View() == Rollback(old(View()), name)
    {
      datasources := datasources - {name};
    }

    method MarkReplicas(refs: seq<Ref>)
      modifies this`datasources
      ensures datasources == FlagRefs(old(datasources), refs)
    {
      for i := 0 to |refs|
        invariant FlagRefs(datasources, refs[i..]) == FlagRefs(old(datasources), refs)
      {
        assert refs[i..][1..] == refs[i + 1..];
        datasources := FlagRef(datasources, refs[i]);
      }
    }

    method DropGroup(name: string, order: seq<string>) returns (st: Status)
      modifies this`datasources
      ensures (View(), st) == RemoveGroup(old(View()), name, order)
    {
      if name !in datasources || name in pools || name == defaultName {
        return ConfigError;
      }
      datasources := ClearFlags(datasources - {name});
      ghost var cleared := datasources;
      for i := 0 to |order|
        invariant FlagGroups(datasources, order[i..]) == FlagGroups(cleared, order)
      {
        assert order[i..][1..] == order[i + 1..];
        if order[i] in datasources && datasources[order[i]].Group? {
          MarkReplicas(datasources[order[i]].replicas);
        }
      }
      return Ok;
    }
  }

  method Repeat(r: Ref, n: int) returns (rs: seq<Ref>)
    ensures rs == Times(r, n)
  {
    rs := [];
    var i := 0;
    while i < n
      invariant 0 <= i && (n >= 0 ==> i <= n) && rs + Times(r, n - i) == Times(r, n)
    {
      Assoc(rs, [r], Times(r, n - i - 1));
      rs := rs + [r];
      i := i + 1;
    }
  }
}
