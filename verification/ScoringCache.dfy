/** The per-tenant scoring-config cache: a TTL map filled from score_engine rows and
    invalidated after writes, with loads, writes, invalidations, sweeps and hits
    interleaving freely. */
module ScoringCache {
  import opened Basics
  import opened ScoreEngine

  datatype Config = Config(
    ai: real, rspamd: real, attachments: real, links: real, pass: Option<int>, flag: Option<int>)

  /** What a loaded row means to the evaluator and the Tier 2 router. */
  datatype Derived = Derived(config: Config, tier2: string)

  const NO_OVERRIDE := Derived(Config(0.0, 0.0, 0.0, 0.0, None, None), "")

  function Derive(row: Option<Row>): Derived {
    match row
    case None => NO_OVERRIDE
    case Some(r) =>
      Derived(
        Config(r.weights.ai as real / 100.0, r.weights.rspamd as real / 100.0,
               r.weights.attachments as real / 100.0, r.weights.links as real / 100.0,
               Some(r.thresholds.passBelow), Some(r.thresholds.flagAbove)),
        if r.others.tier2.Some? then r.others.tier2.value else "")
  }

  /** The derived entry determines every column it draws on, each from its own field; a
      missing row overrides nothing. */
  lemma DerivedReadsBack(row: Row)
    ensures var d := Derive(Some(row));
            && d.config.ai * 100.0 == row.weights.ai as real
            && d.config.rspamd * 100.0 == row.weights.rspamd as real
            && d.config.attachments * 100.0 == row.weights.attachments as real
            && d.config.links * 100.0 == row.weights.links as real
            && d.config.pass == Some(row.thresholds.passBelow) && d.config.flag == Some(row.thresholds.flagAbove)
            && (row.others.tier2.Some? ==> d.tier2 == row.others.tier2.value)
            && (row.others.tier2.None? ==> d.tier2 == "")
    ensures Derive(None) == Derived(Config(0.0, 0.0, 0.0, 0.0, None, None), "")
  {
  }

  datatype Entry = Entry(value: Derived, expiresAt: nat)

  predicate Live(e: Entry, now: nat) {
    now <= e.expiresAt
  }

  /** What a lookup of `tenant` answers at time `now`. */
  function Answer(cache: map<string, Entry>, tenant: string, now: nat): Option<Derived> {
    if tenant in cache && Live(cache[tenant], now) then Some(cache[tenant].value) else None
  }

  function EntryIn(cache: map<string, Entry>, tenant: string): Option<Entry> {
    if tenant in cache then Some(cache[tenant]) else None
  }

  /** The tenant's entry after a load that looks up at `now` and, on a miss, reads `row`
      and stores at `storing`. */
  function Refreshed(entry: Option<Entry>, row: Option<Row>, now: nat, storing: nat, ttl: nat): Entry {
    if entry.Some? && Live(entry.value, now) then entry.value else Entry(Derive(row), storing + ttl)
  }

  class TenantScoringConfigAdapter {
    const ttl: nat
    var cache: map<string, Entry>

    constructor (ttl: int)
      ensures cache == map[] && this.ttl == if ttl <= 0 then 60 else ttl
    {
      this.ttl := if ttl <= 0 then 60 else ttl;
      cache := map[];
    }

    method Lookup(tenant: string, now: nat) returns (hit: Option<Config>)
      ensures hit == match Answer(cache, tenant, now) case None => None case Some(d) => Some(d.config)
    {
      if tenant !in cache || now > cache[tenant].expiresAt {
        return None;
      }
      return Some(cache[tenant].value.config);
    }

    method LookupTier2Provider(tenant: string, now: nat) returns (hit: Option<string>)
      ensures hit == match Answer(cache, tenant, now) case None => None case Some(d) => Some(d.tier2)
    {
      if tenant !in cache || now > cache[tenant].expiresAt {
        return None;
      }
      return Some(cache[tenant].value.tier2);
    }

    method StoreFull(tenant: string, value: Derived, now: nat)
      modifies this
      ensures cache == old(cache)[tenant := Entry(value, now + ttl)]
    {
      cache := cache[tenant := Entry(value, now + ttl)];
    }

    method Invalidate(tenant: string)
      modifies this
      ensures cache == old(cache) - {tenant}
    {
      cache := cache - {tenant};
    }

    /** Evicts exactly the entries expired at `now`. */
    method SweepExpired(now: nat) returns (removed: nat)
      modifies this
      ensures cache == map t | t in old(cache) && Live(old(cache)[t], now) :: old(cache)[t]
      ensures removed == |old(cache)| - |cache|
    {
      removed := 0;
      var todo := cache.Keys;
      while todo != {}
        invariant todo <= cache.Keys <= old(cache).Keys
        invariant forall t :: t in cache ==> cache[t] == old(cache)[t]
        invariant forall t :: t in old(cache) && t !in todo ==> (t in cache <==> Live(old(cache)[t], now))
        invariant removed + |cache| == |old(cache)|
        decreases todo
      {
        var t :| t in todo;
        if now > cache[t].expiresAt {
          assert (cache - {t}).Keys == cache.Keys - {t};
          cache := cache - {t};
          removed := removed + 1;
        }
        todo := todo - {t};
      }
    }

    /** A miss loads the row, derives the entry once for both lookups and stores it;
        a missing row is cached as "no override", a failed read is not cached. The clock
        is read for the lookup and again for the store. */
    method LoadTenant(tenant: string, now: nat, read: Option<Option<Row>>, storing: nat) returns (r: Option<Derived>)
      modifies this
      ensures tenant == "" ==> r == Some(NO_OVERRIDE) && cache == old(cache)
      ensures tenant != "" && read.None? ==> r == Answer(old(cache), tenant, now) && cache == old(cache)
      ensures tenant != "" && read.Some? ==>
                var e := Refreshed(EntryIn(old(cache), tenant), read.value, now, storing, ttl);
                r == Some(e.value) && cache == old(cache)[tenant := e]
    {
      if tenant == "" {
        return Some(NO_OVERRIDE);
      }
      if tenant in cache && now <= cache[tenant].expiresAt {
        return Some(cache[tenant].value);
      }
      if read.None? {
        return None;
      }
      StoreFull(tenant, Derive(read.value), storing);
      return Some(Derive(read.value));
    }
  }

  // ----- interleavings, for one tenant ---------------------------------------------

  /** A row version: its contents, the step that wrote it, and the step at which the
      writer's Invalidate completed, if it has. Version 0 is the initial row. */
  datatype Version = Version(row: Option<Row>, writtenAt: nat, invalidatedAt: Option<nat>)

  /** A load between its repository read and its store. */
  datatype Load = Load(version: nat, readAt: nat)

  /** The cached entry with its provenance: the version it derives from, the steps of
      its read and its store, and the clock at the store. */
  datatype Cached = Cached(entry: Entry, version: nat, readAt: nat, storedAt: nat, storeClock: nat)

  /** An answer served from the cache. */
  datatype Hit = Hit(cached: Cached, at: nat, clock: nat)

  datatype World = World(
    step: nat, clock: nat, versions: seq<Version>, cached: Option<Cached>,
    missed: set<nat>, loads: map<nat, Load>, hits: seq<Hit>)

  datatype Event =
    | Tick(seconds: nat)
    | Write(row: Option<Row>)
    | Invalidate(version: nat)
    | Lookup(loader: nat)          // serves a hit, or makes the loader go to the repository
    | Read(loader: nat)
    | ReadFails(loader: nat)
    | Store(loader: nat)
    | Sweep(at: nat)

  function Initial(row: Option<Row>): World {
    World(1, 0, [Version(row, 0, Some(0))], None, {}, map[], [])
  }

  function Perform(w: World, e: Event, ttl: nat): World {
    match e
    case Tick(seconds) => w.(clock := w.clock + seconds)
    case Write(row) => w.(versions := w.versions + [Version(row, w.step, None)])
    case Invalidate(v) =>
      if v < |w.versions| && w.versions[v].invalidatedAt.None?
      then w.(cached := None, versions := w.versions[v := w.versions[v].(invalidatedAt := Some(w.step))])
      else w
    case Lookup(loader) =>
      if w.cached.Some? && Live(w.cached.value.entry, w.clock)
      then w.(hits := w.hits + [Hit(w.cached.value, w.step, w.clock)])
      else w.(missed := w.missed + {loader})
    case Read(loader) =>
      if loader in w.missed && w.versions != []
      then w.(missed := w.missed - {loader}, loads := w.loads[loader := Load(|w.versions| - 1, w.step)])
      else w
    case ReadFails(loader) => w.(missed := w.missed - {loader})
    case Store(loader) =>
      if loader in w.loads && w.loads[loader].version < |w.versions| then
        var l := w.loads[loader];
        var entry := Entry(Derive(w.versions[l.version].row), w.clock + ttl);
        w.(loads := w.loads - {loader}, cached := Some(Cached(entry, l.version, l.readAt, w.step, w.clock)))
      else w
    case Sweep(at) =>
      if w.cached.Some? && at <= w.clock && !Live(w.cached.value.entry, at) then w.(cached := None) else w
  }

  /** One interleaving step. */
  function Step(w: World, e: Event, ttl: nat): World {
    var next := Perform(w, e, ttl);
    next.(step := w.step + 1)
  }

  function After(row: Option<Row>, events: seq<Event>, ttl: nat): World {
    if events == [] then Initial(row)
    else Step(After(row, events[..|events| - 1], ttl), events[|events| - 1], ttl)
  }

  /** Version `v` was the one the repository held at step `at`. */
  ghost predicate HeldAt(versions: seq<Version>, v: nat, at: nat) {
    && v < |versions| && versions[v].writtenAt < at
    && forall u :: v < u < |versions| ==> at < versions[u].writtenAt
  }

  ghost predicate LoadOk(w: World, l: Load) {
    l.readAt < w.step && HeldAt(w.versions, l.version, l.readAt)
  }

  /** An entry older than a version whose Invalidate completed before step `before`
      was read before that write and stored after that Invalidate. */
  ghost predicate StaleOnlyByRace(versions: seq<Version>, c: Cached, before: nat) {
    forall v :: c.version < v < |versions|
                && versions[v].invalidatedAt.Some? && versions[v].invalidatedAt.value < before
      ==> c.readAt < versions[v].writtenAt && versions[v].invalidatedAt.value < c.storedAt
  }

  ghost predicate CachedOk(w: World, c: Cached, ttl: nat) {
    && c.readAt < c.storedAt < w.step
    && HeldAt(w.versions, c.version, c.readAt)
    && c.entry == Entry(Derive(w.versions[c.version].row), c.storeClock + ttl)
    && c.storeClock <= w.clock
  }

  ghost predicate HitOk(w: World, h: Hit, ttl: nat) {
    && CachedOk(w, h.cached, ttl)
    && h.cached.storedAt < h.at < w.step && h.clock <= w.clock
    && h.cached.storeClock <= h.clock <= h.cached.storeClock + ttl
    && StaleOnlyByRace(w.versions, h.cached, h.at)
  }

  ghost predicate VersionsOk(w: World) {
    && w.versions != []
    && (forall v :: 0 <= v < |w.versions| ==> w.versions[v].writtenAt < w.step)
    && (forall v :: 0 <= v < |w.versions| && w.versions[v].invalidatedAt.Some? ==>
          w.versions[v].writtenAt <= w.versions[v].invalidatedAt.value < w.step)
  }

  ghost predicate Inv(w: World, ttl: nat) {
    && VersionsOk(w)
    && (forall id :: id in w.loads ==> LoadOk(w, w.loads[id]))
    && (w.cached.Some? ==> CachedOk(w, w.cached.value, ttl) && StaleOnlyByRace(w.versions, w.cached.value, w.step))
    && (forall i :: 0 <= i < |w.hits| ==> HitOk(w, w.hits[i], ttl))
  }

  /** What any step does to the versions and the clocks: known rows stay, a new
      version is written now, an Invalidate completes now. */
  ghost predicate Grows(w: World, x: World) {
    && x.step == w.step + 1 && w.clock <= x.clock && |w.versions| <= |x.versions|
    && (forall v :: 0 <= v < |w.versions| ==>
          && x.versions[v].row == w.versions[v].row && x.versions[v].writtenAt == w.versions[v].writtenAt
          && (|| x.versions[v].invalidatedAt == w.versions[v].invalidatedAt
              || x.versions[v].invalidatedAt == Some(w.step)))
    && (forall v :: |w.versions| <= v < |x.versions| ==> x.versions[v] == Version(x.versions[v].row, w.step, None))
  }

  lemma StepGrows(w: World, e: Event, ttl: nat)
    ensures Grows(w, Step(w, e, ttl))
  {
  }

  lemma HeldStaysHeld(w: World, x: World, v: nat, at: nat)
    requires Grows(w, x) && HeldAt(w.versions, v, at) && at < w.step
    ensures HeldAt(x.versions, v, at)
  {
    forall u | v < u < |x.versions| ensures at < x.versions[u].writtenAt {
      if u >= |w.versions| {
        assert x.versions[u].writtenAt == w.step;
      }
    }
  }

  lemma CachedStaysOk(w: World, x: World, c: Cached, ttl: nat)
    requires Grows(w, x) && CachedOk(w, c, ttl)
    ensures CachedOk(x, c, ttl)
  {
    HeldStaysHeld(w, x, c.version, c.readAt);
  }

  lemma RaceStaysTheOnlyWay(w: World, x: World, c: Cached, before: nat)
    requires Grows(w, x) && StaleOnlyByRace(w.versions, c, before) && before <= w.step
    ensures StaleOnlyByRace(x.versions, c, before)
  {
  }

  lemma HitStaysOk(w: World, x: World, h: Hit, ttl: nat)
    requires Grows(w, x) && HitOk(w, h, ttl)
    ensures HitOk(x, h, ttl)
  {
    hide Grows, CachedOk, StaleOnlyByRace;
    CachedStaysOk(w, x, h.cached, ttl);
    RaceStaysTheOnlyWay(w, x, h.cached, h.at);
    GrowsForward(w, x);
  }

  lemma GrowsForward(w: World, x: World)
    requires Grows(w, x)
    ensures x.step == w.step + 1 && w.clock <= x.clock
  {
  }

  lemma VersionsStayOk(w: World, e: Event, ttl: nat)
    requires VersionsOk(w)
    ensures VersionsOk(Step(w, e, ttl))
  {
  }

  /** A fresh entry postdates every completed Invalidate. */
  lemma StoreIsFresh(w: World, loader: nat, ttl: nat)
    requires Inv(w, ttl) && loader in w.loads
    ensures var x := Step(w, Store(loader), ttl);
            x.cached.Some? && CachedOk(x, x.cached.value, ttl) && StaleOnlyByRace(x.versions, x.cached.value, x.step)
  {
    assert LoadOk(w, w.loads[loader]);
  }

  lemma CachedEntryStaysOk(w: World, e: Event, ttl: nat)
    requires Inv(w, ttl)
    ensures var x := Step(w, e, ttl);
            x.cached.Some? ==> CachedOk(x, x.cached.value, ttl) && StaleOnlyByRace(x.versions, x.cached.value, x.step)
  {
    var x := Step(w, e, ttl);
    if e.Store? && e.loader in w.loads {
      StoreIsFresh(w, e.loader, ttl);
    } else if x.cached.Some? {
      assert x.cached == w.cached;
      StepGrows(w, e, ttl);
      CachedStaysOk(w, x, w.cached.value, ttl);
      RaceStaysTheOnlyWay(w, x, w.cached.value, w.step);
      assert StaleOnlyByRace(x.versions, w.cached.value, x.step) by {
        assert forall v :: 0 <= v < |x.versions| ==> x.versions[v].invalidatedAt != Some(w.step);
      }
    }
  }

  lemma StepKeepsInv(w: World, e: Event, ttl: nat)
    requires Inv(w, ttl)
    ensures Inv(Step(w, e, ttl), ttl)
  {
    hide CachedOk, HitOk, StaleOnlyByRace, HeldAt, Grows;
    var x := Step(w, e, ttl);
    StepGrows(w, e, ttl);
    GrowsForward(w, x);
    VersionsStayOk(w, e, ttl);
    CachedEntryStaysOk(w, e, ttl);
    forall id | id in x.loads ensures LoadOk(x, x.loads[id]) {
      if id in w.loads && x.loads[id] == w.loads[id] {
        HeldStaysHeld(w, x, w.loads[id].version, w.loads[id].readAt);
      } else {
        ReadIsCurrent(w, x);
      }
    }
    forall i | 0 <= i < |x.hits| ensures HitOk(x, x.hits[i], ttl) {
      if i < |w.hits| {
        HitStaysOk(w, x, w.hits[i], ttl);
      } else {
        NewHitIsOk(w, x, ttl);
      }
    }
  }

  lemma ReadIsCurrent(w: World, x: World)
    requires VersionsOk(w) && x.versions == w.versions
    ensures HeldAt(x.versions, |w.versions| - 1, w.step)
  {
  }

  lemma NewHitIsOk(w: World, x: World, ttl: nat)
    requires Inv(w, ttl) && w.cached.Some? && Live(w.cached.value.entry, w.clock) && Grows(w, x)
    requires x.versions == w.versions && x.clock == w.clock
    ensures HitOk(x, Hit(w.cached.value, w.step, w.clock), ttl)
  {
    CachedStaysOk(w, x, w.cached.value, ttl);
  }

  lemma {:induction false} ReachableInv(row: Option<Row>, events: seq<Event>, ttl: nat)
    ensures Inv(After(row, events, ttl), ttl)
  {
    if events != [] {
      ReachableInv(row, events[..|events| - 1], ttl);
      StepKeepsInv(After(row, events[..|events| - 1], ttl), events[|events| - 1], ttl);
    }
  }

  /** Every hit of every interleaving is the derivation of a row the repository held
      when that load read it, served no later than one TTL after it was stored; and it
      is older than a write whose Invalidate has completed only if its load read
      before that write and stored after that Invalidate. */
  lemma EveryHitIsExplained(row: Option<Row>, events: seq<Event>, ttl: nat, i: nat, v: nat)
    requires i < |After(row, events, ttl).hits|
    ensures var w := After(row, events, ttl);
            var h := w.hits[i];
            var c := h.cached;
            && HeldAt(w.versions, c.version, c.readAt)
            && c.entry.value == Derive(w.versions[c.version].row)
            && c.storeClock <= h.clock <= c.storeClock + ttl
            && (c.version < v < |w.versions|
                && w.versions[v].invalidatedAt.Some? && w.versions[v].invalidatedAt.value < h.at
                ==> c.readAt < w.versions[v].writtenAt && w.versions[v].invalidatedAt.value < c.storedAt)
  {
    ReachableInv(row, events, ttl);
    assert HitOk(After(row, events, ttl), After(row, events, ttl).hits[i], ttl);
  }

  /** What a load stores is answered for exactly one TTL, to both lookups and for that
      tenant alone. */
  lemma StoredIsAnsweredForOneTtl(
      cache: map<string, Entry>, tenant: string, value: Derived, stored: nat, ttl: nat, later: nat, other: string)
    ensures var next := cache[tenant := Entry(value, stored + ttl)];
            && Answer(next, tenant, later) == (if later <= stored + ttl then Some(value) else None)
            && (other != tenant ==> Answer(next, other, later) == Answer(cache, other, later))
  {
  }

  function EntryOf(w: World): Option<Entry> {
    if w.cached.Some? then Some(w.cached.value.entry) else None
  }

  /** A load that meets no other step leaves the entry LoadTenant leaves; time may pass
      between its lookup, its read and its store. */
  lemma SoloLoadIsLoadTenant(w: World, loader: nat, a: nat, b: nat, ttl: nat)
    requires w.versions != [] && loader !in w.missed && loader !in w.loads
    ensures var w1 := Step(Step(w, Lookup(loader), ttl), Tick(a), ttl);
            var w2 := Step(Step(w1, Read(loader), ttl), Tick(b), ttl);
            var x := Step(w2, Store(loader), ttl);
            var row := w.versions[|w.versions| - 1].row;
            && EntryOf(x) == Some(Refreshed(EntryOf(w), row, w.clock, w.clock + a + b, ttl))
            && x.missed == w.missed && x.loads == w.loads
  {
    hide Derive;
    var w1 := Step(Step(w, Lookup(loader), ttl), Tick(a), ttl);
    var w2 := Step(Step(w1, Read(loader), ttl), Tick(b), ttl);
    assert w.loads[loader := Load(|w.versions| - 1, w.step + 2)] - {loader} == w.loads;
    assert w.missed + {loader} - {loader} == w.missed;
  }

  /** The race is real: a load that read the old row and stores it after the write's
      Invalidate serves the old row again. */
  lemma StaleHitIsPossible(before: Row, after: Row, ttl: nat)
    ensures var events := [Lookup(0), Read(0), Write(Some(after)), Invalidate(1), Store(0), Lookup(1)];
            var w := After(Some(before), events, ttl);
            |w.hits| == 1 && w.hits[0].cached.entry.value == Derive(Some(before))
  {
    hide After, Derive;
    var row := Some(before);
    AfterNothing(row, ttl);
    var e1 := [] + [Lookup(0)];
    AfterNext(row, [], Lookup(0), ttl);
    var e2 := e1 + [Read(0)];
    AfterNext(row, e1, Read(0), ttl);
    var w2 := After(row, e2, ttl);
    assert w2.loads == map[0 := Load(0, 2)] && w2.cached.None? && w2.hits == [] && w2.versions[0].row == row;
    var e3 := e2 + [Write(Some(after))];
    AfterNext(row, e2, Write(Some(after)), ttl);
    var e4 := e3 + [Invalidate(1)];
    AfterNext(row, e3, Invalidate(1), ttl);
    var w4 := After(row, e4, ttl);
    assert w4.loads == map[0 := Load(0, 2)] && w4.cached.None? && w4.hits == [] && w4.versions[0].row == row;
    var e5 := e4 + [Store(0)];
    AfterNext(row, e4, Store(0), ttl);
    var w5 := After(row, e5, ttl);
    assert w5.cached.Some? && w5.cached.value.entry == Entry(Derive(row), w5.clock + ttl);
    AfterNext(row, e5, Lookup(1), ttl);
    assert e5 + [Lookup(1)] == [Lookup(0), Read(0), Write(Some(after)), Invalidate(1), Store(0), Lookup(1)];
  }

  lemma AfterNothing(row: Option<Row>, ttl: nat)
    ensures After(row, [], ttl) == Initial(row)
  {
  }

  lemma AfterNext(row: Option<Row>, events: seq<Event>, e: Event, ttl: nat)
    ensures After(row, events + [e], ttl) == Step(After(row, events, ttl), e, ttl)
  {
    assert (events + [e])[..|events|] == events;
  }
}
