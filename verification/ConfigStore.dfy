/** The score_engine config store: column-scoped updates when the tenant's row
    exists, a read-then-upsert of the full row when it does not. */
module ConfigStore {
  import opened Basics
  import opened ScoreEngine

  /** The schema defaults a missing row is seeded with. */
  const SEED := Row(Weights(60, 10, 15, 15), Thresholds(85, 70, 50, 30, 15, 20, 60), Others(100, false, "", None))

  /** The columns one update writes. */
  datatype Change = SetWeights(weights: Weights) | SetThresholds(thresholds: Thresholds)

  function Apply(row: Row, c: Change): Row {
    match c
    case SetWeights(w) => row.(weights := w)
    case SetThresholds(t) => row.(thresholds := t)
  }

  /** The two schema CHECKs: banner thresholds strictly descending, and pass below flag. */
  predicate WellOrdered(t: Thresholds) {
    t.blocked > t.high > t.warning > t.caution > t.info && t.passBelow < t.flagAbove
  }

  predicate Checked(row: Row) {
    WellOrdered(row.thresholds)
  }

  predicate Admissible(c: Change) {
    c.SetThresholds? ==> WellOrdered(c.thresholds)
  }

  /** The database calls that fail for reasons of their own. */
  datatype Faults = Faults(update: bool, get: bool, upsert: bool)

  function Seeded(row: Option<Row>): Row {
    if row.Some? then row.value else SEED
  }

  /** A call succeeds unless a database call it makes fails or a CHECK rejects the row;
      only a missing row makes it read and upsert. */
  predicate Succeeds(row: Option<Row>, c: Change, f: Faults) {
    !f.update && Admissible(c) && (row.None? ==> !f.get && !f.upsert)
  }

  /** The tenant's row after a call that meets no other. */
  function Stored(row: Option<Row>, c: Change, f: Faults): Option<Row> {
    if Succeeds(row, c, f) then Some(Apply(Seeded(row), c)) else row
  }

  // ----- weights as percentages ---------------------------------------------------

  /** The nearest percentage, halves upwards, cut to 0..100. */
  predicate NearPercent(p: int, w: real) {
    && 0 <= p <= 100 && (w <= 0.0 ==> p == 0) && (w >= 1.0 ==> p == 100)
    && (0.0 < w < 1.0 ==> -0.5 <= w * 100.0 - p as real < 0.5)
  }

  function ClampToPercent(w: real): (p: int)
    ensures NearPercent(p, w)
  {
    if w <= 0.0 then 0 else if w >= 1.0 then 100 else (w * 100.0 + 0.5).Floor
  }

  /** Writing back a weight read as `percent / 100` stores the same percentage. */
  lemma PercentRoundTrips(p: int)
    requires 0 <= p <= 100
    ensures ClampToPercent(p as real / 100.0) == p
  {
    assert p as real / 100.0 * 100.0 == p as real;
  }

  // ----- the store, called sequentially ---------------------------------------------

  datatype Outcome = Ok | DbError
  datatype Reply = Done | NotFound | Failed

  /** The agent's weights as fractions. */
  datatype ScoreWeights = ScoreWeights(ai: real, rspamd: real, attachments: real, links: real)

  function Percentages(w: ScoreWeights): Weights {
    Weights(ClampToPercent(w.ai), ClampToPercent(w.rspamd), ClampToPercent(w.attachments), ClampToPercent(w.links))
  }

  /** Each stored column is the nearest percentage of the same field. */
  predicate NearWeights(p: Weights, w: ScoreWeights) {
    && NearPercent(p.ai, w.ai) && NearPercent(p.rspamd, w.rspamd)
    && NearPercent(p.attachments, w.attachments) && NearPercent(p.links, w.links)
  }

  function RowIn(rows: map<string, Row>, tenant: string): Option<Row> {
    if tenant in rows then Some(rows[tenant]) else None
  }

  class ScoreEngines {
    var rows: map<string, Row>

    /** The table holds no row a CHECK would reject. */
    ghost predicate Valid()
      reads this
    {
      forall t :: t in rows ==> Checked(rows[t])
    }

    constructor ()
      ensures rows == map[] && Valid()
    {
      rows := map[];
    }

    /** One column-scoped UPDATE, which leaves the other columns and tenants alone. */
    method UpdateColumns(tenant: string, c: Change, fails: bool) returns (r: Reply)
      requires Valid()
      modifies this
      ensures Valid()
      ensures r.Done? <==> !fails && tenant in old(rows) && Admissible(c)
      ensures r.NotFound? <==> !fails && tenant !in old(rows)
      ensures rows == if r.Done? then old(rows)[tenant := Apply(old(rows)[tenant], c)] else old(rows)
    {
      if fails {
        return Failed;
      }
      if tenant !in rows {
        return NotFound;
      }
      var next := Apply(rows[tenant], c);
      if !Checked(next) {
        return Failed;
      }
      rows := rows[tenant := next];
      r := Done;
    }

    /** `None` is a failed read, `Some(None)` a missing row. */
    method Get(tenant: string, fails: bool) returns (r: Option<Option<Row>>)
      ensures r == if fails then None else Some(RowIn(rows, tenant))
    {
      r := if fails then None else Some(if tenant in rows then Some(rows[tenant]) else None);
    }

    method Upsert(tenant: string, row: Row, fails: bool) returns (r: Reply)
      requires Valid()
      modifies this
      ensures Valid() && !r.NotFound?
      ensures r.Done? <==> !fails && Checked(row)
      ensures rows == if r.Done? then old(rows)[tenant := row] else old(rows)
    {
      if fails || !Checked(row) {
        return Failed;
      }
      rows := rows[tenant := row];
      r := Done;
    }
  }

  class PostgresConfigStore {
    const repo: ScoreEngines
    var invalidated: seq<string>

    constructor (repo: ScoreEngines)
      ensures this.repo == repo && invalidated == []
    {
      this.repo := repo;
      invalidated := [];
    }

    /** UpdateWeights and UpdateThresholds share this shape: update the owned columns,
        or seed the row from the schema defaults, then evict the tenant's cache entry. */
    method Update(tenant: string, c: Change, f: Faults) returns (r: Outcome)
      requires repo.Valid()
      modifies this, repo
      ensures repo.Valid()
      ensures r.Ok? <==> Succeeds(RowIn(old(repo.rows), tenant), c, f)
      ensures RowIn(repo.rows, tenant) == Stored(RowIn(old(repo.rows), tenant), c, f)
      ensures repo.rows - {tenant} == old(repo.rows) - {tenant}
      ensures invalidated == old(invalidated) + if r.Ok? then [tenant] else []
    {
      var reply := repo.UpdateColumns(tenant, c, f.update);
      if reply.Failed? {
        return DbError;
      }
      if reply.NotFound? {
        var got := repo.Get(tenant, f.get);
        if got.None? {
          return DbError;
        }
        var row := match got.value case Some(r) => r case None => SEED;
        var put := repo.Upsert(tenant, Apply(row, c), f.upsert);
        if put.Failed? {
          return DbError;
        }
      }
      invalidated := invalidated + [tenant];
      r := Ok;
    }

    method UpdateWeights(tenant: string, w: ScoreWeights, f: Faults) returns (r: Outcome)
      requires repo.Valid()
      modifies this, repo
      ensures repo.Valid()
      ensures r.Ok? <==> !f.update && (tenant !in old(repo.rows) ==> !f.get && !f.upsert)
      ensures r.DbError? ==> repo.rows == old(repo.rows)
      ensures r.Ok? ==> tenant in repo.rows && NearWeights(repo.rows[tenant].weights, w)
      ensures r.Ok? && tenant !in old(repo.rows) ==>
                && repo.rows[tenant].thresholds == Thresholds(85, 70, 50, 30, 15, 20, 60)
                && repo.rows[tenant].others == Others(100, false, "", None)
      ensures r.Ok? && tenant in old(repo.rows) ==>
                repo.rows[tenant].thresholds == old(repo.rows)[tenant].thresholds
                && repo.rows[tenant].others == old(repo.rows)[tenant].others
      ensures repo.rows - {tenant} == old(repo.rows) - {tenant}
    {
      r := Update(tenant, SetWeights(Percentages(w)), f);
      RowsAreSplit(repo.rows, old(repo.rows), tenant);
    }

    method UpdateThresholds(tenant: string, t: Thresholds, f: Faults) returns (r: Outcome)
      requires repo.Valid()
      modifies this, repo
      ensures repo.Valid()
      ensures r.Ok? <==>
              && t.blocked > t.high && t.high > t.warning && t.warning > t.caution && t.caution > t.info
              && t.passBelow < t.flagAbove
              && !f.update && (tenant !in old(repo.rows) ==> !f.get && !f.upsert)
      ensures r.DbError? ==> repo.rows == old(repo.rows)
      ensures r.Ok? ==> tenant in repo.rows && repo.rows[tenant].thresholds == t
      ensures r.Ok? && tenant !in old(repo.rows) ==>
                && repo.rows[tenant].weights == Weights(60, 10, 15, 15)
                && repo.rows[tenant].others == Others(100, false, "", None)
      ensures r.Ok? && tenant in old(repo.rows) ==>
                repo.rows[tenant].weights == old(repo.rows)[tenant].weights
                && repo.rows[tenant].others == old(repo.rows)[tenant].others
      ensures repo.rows - {tenant} == old(repo.rows) - {tenant}
    {
      r := Update(tenant, SetThresholds(t), f);
      RowsAreSplit(repo.rows, old(repo.rows), tenant);
    }
  }

  lemma RowsAreSplit(a: map<string, Row>, b: map<string, Row>, tenant: string)
    requires a - {tenant} == b - {tenant}
    ensures RowIn(a, tenant) == RowIn(b, tenant) ==> a == b
  {
    forall t | t != tenant ensures t in a <==> t in b {
      assert t in a - {tenant} <==> t in b - {tenant};
    }
    forall t | t in a && t in b && t != tenant ensures a[t] == b[t] {
      assert (a - {tenant})[t] == (b - {tenant})[t];
    }
    if RowIn(a, tenant) == RowIn(b, tenant) {
      assert a.Keys == b.Keys;
    }
  }

  // ----- concurrent calls against one tenant ------------------------------------------

  /** Where a call is: about to read for seeding, holding the full row it will upsert,
      or committed and about to invalidate. */
  datatype Call = Seeding(change: Change) | Holding(change: Change, row: Row) | Committed

  /** The tenant's row, the calls in flight, and the last value committed for each
      column group. */
  datatype World = World(
    row: Option<Row>, calls: map<nat, Call>, lastWeights: Option<Weights>, lastThresholds: Option<Thresholds>)

  datatype Event =
    | Attempt(id: nat, change: Change, dbFails: bool)  // the column-scoped UPDATE
    | SeedRead(id: nat, dbFails: bool)
    | SeedWrite(id: nat, dbFails: bool)
    | Invalidate(id: nat)

  function Commit(w: World, id: nat, row: Row, c: Change): World {
    var next := w.(row := Some(row), calls := w.calls[id := Committed]);
    match c
    case SetWeights(x) => next.(lastWeights := Some(x))
    case SetThresholds(x) => next.(lastThresholds := Some(x))
  }

  function Drop(w: World, id: nat): World {
    w.(calls := w.calls - {id})
  }

  function Step(w: World, e: Event): World {
    match e
    case Attempt(id, c, dbFails) =>
      if id in w.calls || dbFails then w
      else if w.row.None? then w.(calls := w.calls[id := Seeding(c)])
      else if !Checked(Apply(w.row.value, c)) then w
      else Commit(w, id, Apply(w.row.value, c), c)
    case SeedRead(id, dbFails) =>
      if id !in w.calls || !w.calls[id].Seeding? then w
      else if dbFails then Drop(w, id)
      else
        var c := w.calls[id].change;
        w.(calls := w.calls[id := Holding(c, Apply(Seeded(w.row), c))])
    case SeedWrite(id, dbFails) =>
      if id !in w.calls || !w.calls[id].Holding? then w
      else if dbFails || !Checked(w.calls[id].row) then Drop(w, id)
      else Commit(w, id, w.calls[id].row, w.calls[id].change)
    case Invalidate(id) =>
      if id in w.calls && w.calls[id].Committed? then Drop(w, id) else w
  }

  function After(w: World, events: seq<Event>): World {
    if events == [] then w else Step(After(w, events[..|events| - 1]), events[|events| - 1])
  }

  /** A call that meets no other does to the tenant's row what Update does, and leaves
      nothing in flight. */
  lemma SoloCallIsUpdate(w: World, id: nat, c: Change, f: Faults)
    requires id !in w.calls && (w.row.Some? ==> Checked(w.row.value))
    ensures var events := [Attempt(id, c, f.update), SeedRead(id, f.get), SeedWrite(id, f.upsert), Invalidate(id)];
            var x := After(w, events);
            x.row == Stored(w.row, c, f) && x.calls == w.calls
  {
    hide After, SEED, WellOrdered;
    var e := [Attempt(id, c, f.update), SeedRead(id, f.get), SeedWrite(id, f.upsert), Invalidate(id)];
    AfterNext(w, e, 0);
    var w1 := After(w, e[..1]);
    AfterNext(w, e, 1);
    var w2 := After(w, e[..2]);
    AfterNext(w, e, 2);
    var w3 := After(w, e[..3]);
    AfterNext(w, e, 3);
    assert e[..4] == e;
    SeedIsChecked(c);
    assert w3.row == Stored(w.row, c, f);
    assert w3.calls == (if Succeeds(w.row, c, f) then w.calls[id := Committed] else w.calls);
    assert w.calls[id := Committed] - {id} == w.calls;
  }

  lemma SeedIsChecked(c: Change)
    ensures Checked(Apply(SEED, c)) <==> Admissible(c)
  {
  }

  /** No row yet, or the last committed weights and the last committed thresholds are
      both in the row. */
  predicate LastWritesWin(w: World) {
    && (w.lastWeights.Some? ==> w.row.Some? && w.row.value.weights == w.lastWeights.value)
    && (w.lastThresholds.Some? ==> w.row.Some? && w.row.value.thresholds == w.lastThresholds.value)
  }

  /** Nothing committed yet and no call in flight. */
  predicate Quiet(w: World) {
    w.calls == map[] && w.lastWeights.None? && w.lastThresholds.None?
  }

  /** The row exists and no call is on the seeding path. */
  ghost predicate Steady(w: World) {
    w.row.Some? && forall id :: id in w.calls ==> w.calls[id].Committed?
  }

  /** In steady state every interleaving keeps the last committed write of each column
      group, and whatever no call wrote is as it was. */
  lemma {:induction false} SteadyStateLosesNothing(w: World, events: seq<Event>)
    requires Steady(w) && w.lastWeights.None? && w.lastThresholds.None?
    ensures var x := After(w, events);
            && Steady(x) && LastWritesWin(x)
            && x.row.value.others == w.row.value.others
            && (x.lastWeights.None? ==> x.row.value.weights == w.row.value.weights)
            && (x.lastThresholds.None? ==> x.row.value.thresholds == w.row.value.thresholds)
  {
    if events != [] {
      SteadyStateLosesNothing(w, events[..|events| - 1]);
    }
  }

  /** Two first writers: both read "no row", then the second upsert overwrites the
      columns of the first with the schema defaults. */
  function FirstWriters(x: Weights, y: Thresholds): seq<Event> {
    [Attempt(0, SetWeights(x), false), Attempt(1, SetThresholds(y), false),
     SeedRead(0, false), SeedRead(1, false), SeedWrite(0, false), SeedWrite(1, false)]
  }

  lemma FirstWritersLoseWeights(w: World, x: Weights, y: Thresholds)
    requires Quiet(w) && w.row.None? && x != SEED.weights && WellOrdered(y)
    ensures !LastWritesWin(After(w, FirstWriters(x, y)))
  {
    hide After, SEED;
    var e := FirstWriters(x, y);
    BothReadNoRow(w, x, y);
    SeedIsChecked(SetWeights(x));
    SeedIsChecked(SetThresholds(y));
    AfterNext(w, e, 4);
    AfterNext(w, e, 5);
    assert e[..6] == e;
    var w6 := After(w, e);
    assert w6.lastWeights == Some(x) && w6.row == Some(SEED.(thresholds := y));
  }

  lemma BothReadNoRow(w: World, x: Weights, y: Thresholds)
    requires Quiet(w) && w.row.None?
    ensures After(w, FirstWriters(x, y)[..4]) == w.(calls :=
              map[0 := Holding(SetWeights(x), SEED.(weights := x)),
                  1 := Holding(SetThresholds(y), SEED.(thresholds := y))])
  {
    hide After, SEED;
    var e := FirstWriters(x, y);
    AfterNext(w, e, 0);
    AfterNext(w, e, 1);
    var w2 := After(w, e[..2]);
    assert w2.calls == map[0 := Seeding(SetWeights(x)), 1 := Seeding(SetThresholds(y))] && w2.row.None?;
    AfterNext(w, e, 2);
    AfterNext(w, e, 3);
  }

  lemma AfterNext(w: World, events: seq<Event>, k: nat)
    requires k < |events|
    ensures After(w, events[..0]) == w
    ensures After(w, events[..k + 1]) == Step(After(w, events[..k]), events[k])
  {
    assert events[..k + 1][..k] == events[..k];
  }

  /** Starting with no call in flight, no interleaving loses an update if and only if
      the tenant's row already exists. */
  lemma NoLostUpdateIffRowExists(w: World)
    requires Quiet(w)
    ensures (forall events :: LastWritesWin(After(w, events))) <==> w.row.Some?
  {
    if w.row.Some? {
      forall events ensures LastWritesWin(After(w, events)) {
        SteadyStateLosesNothing(w, events);
      }
    } else {
      FirstWritersLoseWeights(w, Weights(0, 0, 0, 100), SEED.thresholds);
      assert !LastWritesWin(After(w, FirstWriters(Weights(0, 0, 0, 100), SEED.thresholds)));
    }
  }
}
