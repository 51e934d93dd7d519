/** From a tuning write to the evaluator: what is stored is what a load hands out. */
module TuningRoundTrip {
  import opened Basics
  import opened ScoreEngine
  import opened ConfigStore
  import Cache = ScoringCache

  /** `x` is `w`, cut to the range 0 to 1, up to half a percent. */
  predicate WithinHalfPercent(x: real, w: real) {
    var cut := if w < 0.0 then 0.0 else if w > 1.0 then 1.0 else w;
    -0.005 <= x - cut <= 0.005
  }

  /** Each field of the loaded config is near the same field of the written weights. */
  predicate Arrives(c: Cache.Config, w: ScoreWeights) {
    && WithinHalfPercent(c.ai, w.ai) && WithinHalfPercent(c.rspamd, w.rspamd)
    && WithinHalfPercent(c.attachments, w.attachments) && WithinHalfPercent(c.links, w.links)
  }

  lemma FractionIsNear(p: int, w: real)
    requires NearPercent(p, w)
    ensures WithinHalfPercent(p as real / 100.0, w)
  {
    var x := p as real / 100.0;
    assert x * 100.0 == p as real;
  }

  /** Whatever else the row holds, loading it after a weight update gives back the weights,
      field by field. */
  lemma StoredWeightsArrive(row: Row, w: ScoreWeights)
    requires NearPercent(row.weights.ai, w.ai) && NearPercent(row.weights.rspamd, w.rspamd)
    requires NearPercent(row.weights.attachments, w.attachments) && NearPercent(row.weights.links, w.links)
    ensures Arrives(Cache.Derive(Some(row)).config, w)
  {
    FractionIsNear(row.weights.ai, w.ai);
    FractionIsNear(row.weights.rspamd, w.rspamd);
    FractionIsNear(row.weights.attachments, w.attachments);
    FractionIsNear(row.weights.links, w.links);
  }

  /** A tuning write, the eviction it triggers, and the evaluator's next load. */
  method TuneThenLoad(
      store: PostgresConfigStore, adapter: Cache.TenantScoringConfigAdapter,
      tenant: string, w: ScoreWeights, f: Faults, now: nat, storing: nat)
    returns (r: Outcome, loaded: Option<Cache.Derived>)
    requires store.repo.Valid() && tenant != ""
    modifies store, store.repo, adapter
    ensures r.Ok? ==> loaded.Some? && tenant in store.repo.rows && Arrives(loaded.value.config, w)
    ensures r.Ok? ==>
              var row := store.repo.rows[tenant];
              && loaded.value.config.pass == Some(row.thresholds.passBelow)
              && loaded.value.config.flag == Some(row.thresholds.flagAbove)
              && loaded.value.tier2 == (if row.others.tier2.Some? then row.others.tier2.value else "")
    ensures r.DbError? ==> loaded.None? && adapter.cache == old(adapter.cache)
  {
    loaded := None;
    r := store.UpdateWeights(tenant, w, f);
    if r.Ok? {
      adapter.Invalidate(tenant);
      var read := store.repo.Get(tenant, false);
      loaded := adapter.LoadTenant(tenant, now, read, storing);
      StoredWeightsArrive(store.repo.rows[tenant], w);
    }
  }
}
