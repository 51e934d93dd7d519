/** The tenant linter on already extracted facts: which tenant-scoped tables of a
    SQL literal lack a tenant predicate, and which diagnostics the scan emits.
    `tables` is the list of tenant-scoped tables; every result holds for any list. */
module TenantLint {
  import opened Basics
  import opened QualifierForest

  /** The FROM/JOIN/UPDATE/DELETE/INSERT references (alias to table), the directly
      bound qualifiers and the tenant joins of one statement. */
  datatype Query = Query(refs: map<string, string>, direct: set<string>, joins: seq<Join>) {
    ghost function ScopedRefs(tables: set<string>): map<string, string> {
      map a | a in refs && refs[a] in tables :: refs[a]
    }

    ghost function ScopedNames(): set<string> {
      Scoped(direct, joins)
    }

    /** SQL accepts a qualified column only when the qualifier is an alias. */
    ghost predicate WellFormed() {
      && direct <= refs.Keys
      && forall i :: 0 <= i < |joins| ==> joins[i].left in refs && joins[i].right in refs
    }
  }

  /** The tables reported as missing a predicate: some reference to the table is
      scoped neither by its alias nor by its table name. */
  ghost function Missing(tables: set<string>, q: Query): set<string> {
    var r := q.ScopedRefs(tables);
    if |r| < 2 then {}
    else set a | a in r && a !in q.ScopedNames() && r[a] !in q.ScopedNames() :: r[a]
  }

  method MissingPerTablePredicates(tables: set<string>, q: Query) returns (missing: set<string>)
    ensures missing == Missing(tables, q)
  {
    var refs := map a | a in q.refs && q.refs[a] in tables :: q.refs[a];
    if |refs| < 2 {
      return {};
    }
    var scoped := ScopedQualifiers(q.direct, q.joins);
    missing := {};
    var todo := refs.Keys;
    while todo != {}
      invariant todo <= refs.Keys
      invariant missing == set a | a in refs.Keys - todo && a !in scoped && refs[a] !in scoped :: refs[a]
      decreases todo
    {
      var alias :| alias in todo;
      if alias !in scoped && refs[alias] !in scoped {
        missing := missing + {refs[alias]};
      }
      assert refs.Keys - (todo - {alias}) == (refs.Keys - todo) + {alias};
      todo := todo - {alias};
    }
    assert refs.Keys - todo == refs.Keys;
  }

  // ----- what a clean report means -----------------------------------------

  datatype Row = Row(tenant: nat, id: nat)
  type Database = map<string, set<Row>>
  type Binding = map<string, Row>

  /** `b` picks a row for every reference and passes the tenant conditions. Any
      further condition of the statement only removes answers. */
  ghost predicate Answer(q: Query, db: Database, allowed: set<nat>, b: Binding)
    requires q.WellFormed()
  {
    && b.Keys == q.refs.Keys
    && (forall a :: a in b ==> q.refs[a] in db && b[a] in db[q.refs[a]])
    && (forall d :: d in q.direct ==> b[d].tenant in allowed)
    && (forall i :: 0 <= i < |q.joins| ==> b[q.joins[i].left].tenant == b[q.joins[i].right].tenant)
  }

  ghost predicate Populated(db: Database, tenants: set<nat>) {
    forall t, r :: t in db && r in db[t] ==> r.tenant in tenants
  }

  /** Some database makes the statement read a row of a tenant outside `allowed`
      through the alias `a`. */
  ghost predicate Leaks(q: Query, tenants: set<nat>, allowed: set<nat>, a: string)
    requires q.WellFormed() && a in q.refs
  {
    exists db: Database, b: Binding ::
      Populated(db, tenants) && Answer(q, db, allowed, b) && b[a].tenant !in allowed
  }

  ghost predicate TwoKindsOfTenant(tenants: set<nat>, allowed: set<nat>) {
    allowed != {} && allowed <= tenants && tenants - allowed != {}
  }

  lemma ScopedAliasIsIsolated(q: Query, tenants: set<nat>, allowed: set<nat>, a: string, db: Database, b: Binding)
    requires q.WellFormed() && TwoKindsOfTenant(tenants, allowed) && a in q.ScopedNames() && a in q.refs
    requires Populated(db, tenants) && Answer(q, db, allowed, b)
    ensures b[a].tenant in allowed
  {
    var t :| t in allowed;
    var sigma: Assignment := (x: string) => if x in b then b[x].tenant else t;
    forall x ensures sigma(x) in tenants {
      if x in b { assert b[x] in db[q.refs[x]]; }
    }
    assert Satisfies(sigma, q.direct, q.joins, tenants, allowed);
    ScopedIsExact(q.direct, q.joins, tenants, allowed, a);
    assert sigma(a) in allowed;
  }

  /** Each referenced table holds a row of tenant `t` and a row of tenant `u`. */
  ghost function TwoTenantDatabase(q: Query, t: nat, u: nat): Database {
    map table | table in q.refs.Values :: {Row(t, 0), Row(u, 0)}
  }

  ghost function RowsFor(q: Query, sigma: Assignment): Binding {
    map x | x in q.refs :: Row(sigma(x), 0)
  }

  lemma AssignmentAnswers(q: Query, tenants: set<nat>, allowed: set<nat>, sigma: Assignment, t: nat, u: nat)
    requires q.WellFormed() && Satisfies(sigma, q.direct, q.joins, tenants, allowed)
    requires forall x :: sigma(x) == t || sigma(x) == u
    ensures Answer(q, TwoTenantDatabase(q, t, u), allowed, RowsFor(q, sigma))
  {
    var db, b := TwoTenantDatabase(q, t, u), RowsFor(q, sigma);
    forall x | x in b ensures q.refs[x] in db && b[x] in db[q.refs[x]] {
      assert q.refs[x] in q.refs.Values;
    }
  }

  lemma RefuterValues(direct: set<string>, joins: seq<Join>, t: nat, u: nat)
    ensures forall x :: Refuter(direct, joins, t, u)(x) == if x in Scoped(direct, joins) then t else u
  {
  }

  lemma UnscopedAliasLeaks(q: Query, tenants: set<nat>, allowed: set<nat>, a: string)
    requires q.WellFormed() && TwoKindsOfTenant(tenants, allowed) && a !in q.ScopedNames() && a in q.refs
    ensures Leaks(q, tenants, allowed, a)
  {
    hide Answer, Satisfies, Scoped, Refuter;
    var t :| t in allowed;
    var u :| u in tenants - allowed;
    var sigma := Refuter(q.direct, q.joins, t, u);
    RefuterSatisfies(q.direct, q.joins, tenants, allowed, t, u);
    RefuterValues(q.direct, q.joins, t, u);
    AssignmentAnswers(q, tenants, allowed, sigma, t, u);
    var db, b := TwoTenantDatabase(q, t, u), RowsFor(q, sigma);
    assert Populated(db, tenants) && Answer(q, db, allowed, b) && b[a].tenant == u;
  }

  /** Exactness per reference: an alias is scoped if and only if no database can
      make the statement return a foreign row through it. */
  lemma AliasScopeIsExact(q: Query, tenants: set<nat>, allowed: set<nat>, a: string)
    requires q.WellFormed() && TwoKindsOfTenant(tenants, allowed) && a in q.refs
    ensures a in q.ScopedNames() <==> !Leaks(q, tenants, allowed, a)
  {
    if a in q.ScopedNames() {
      forall db: Database, b: Binding | Populated(db, tenants) && Answer(q, db, allowed, b)
        ensures b[a].tenant in allowed
      {
        ScopedAliasIsIsolated(q, tenants, allowed, a, db, b);
      }
    } else {
      UnscopedAliasLeaks(q, tenants, allowed, a);
    }
  }

  /** A table leaks when some reference to it does. */
  ghost predicate TableLeaks(tables: set<string>, q: Query, tenants: set<nat>, allowed: set<nat>, table: string)
    requires q.WellFormed()
  {
    exists a :: a in q.ScopedRefs(tables) && q.refs[a] == table && Leaks(q, tenants, allowed, a)
  }

  /** No reference is taken for scoped only because another alias, spelled like
      its table, is. */
  ghost predicate ShadowFree(tables: set<string>, q: Query) {
    forall a :: a in q.ScopedRefs(tables) && q.refs[a] in q.ScopedNames() ==> a in q.ScopedNames()
  }

  /** Every reported table leaks in some database: there are no false alarms. */
  lemma ReportedTablesLeak(tables: set<string>, q: Query, tenants: set<nat>, allowed: set<nat>, table: string)
    requires q.WellFormed() && TwoKindsOfTenant(tenants, allowed)
    requires table in Missing(tables, q)
    ensures TableLeaks(tables, q, tenants, allowed, table)
  {
    var r := q.ScopedRefs(tables);
    var a :| a in r && a !in q.ScopedNames() && r[a] == table;
    AliasScopeIsExact(q, tenants, allowed, a);
  }

  /** With two or more scoped references, the report names exactly the leaking
      tables if and only if no table name is shadowed by a scoped alias. */
  lemma ReportIsExactIffShadowFree(tables: set<string>, q: Query, tenants: set<nat>, allowed: set<nat>)
    requires q.WellFormed() && TwoKindsOfTenant(tenants, allowed)
    requires |q.ScopedRefs(tables)| >= 2
    ensures ShadowFree(tables, q)
            <==> forall table :: table in Missing(tables, q) <==> TableLeaks(tables, q, tenants, allowed, table)
  {
    if ShadowFree(tables, q) {
      forall table ensures table in Missing(tables, q) <==> TableLeaks(tables, q, tenants, allowed, table) {
        if TableLeaks(tables, q, tenants, allowed, table) {
          LeakingTableIsReported(tables, q, tenants, allowed, table);
        }
        if table in Missing(tables, q) {
          ReportedTablesLeak(tables, q, tenants, allowed, table);
        }
      }
    } else {
      var a :| a in q.ScopedRefs(tables) && q.refs[a] in q.ScopedNames() && a !in q.ScopedNames();
      ShadowedTableIsUnreported(tables, q, tenants, allowed, a);
    }
  }

  lemma LeakingTableIsReported(tables: set<string>, q: Query, tenants: set<nat>, allowed: set<nat>, table: string)
    requires q.WellFormed() && TwoKindsOfTenant(tenants, allowed)
    requires |q.ScopedRefs(tables)| >= 2 && ShadowFree(tables, q)
    requires TableLeaks(tables, q, tenants, allowed, table)
    ensures table in Missing(tables, q)
  {
    hide Leaks, Scoped;
    var r := q.ScopedRefs(tables);
    var a :| a in r && q.refs[a] == table && Leaks(q, tenants, allowed, a);
    AliasScopeIsExact(q, tenants, allowed, a);
    assert r[a] == table;
  }

  lemma ShadowedTableIsUnreported(tables: set<string>, q: Query, tenants: set<nat>, allowed: set<nat>, a: string)
    requires q.WellFormed() && TwoKindsOfTenant(tenants, allowed)
    requires a in q.ScopedRefs(tables) && q.refs[a] in q.ScopedNames() && a !in q.ScopedNames()
    ensures TableLeaks(tables, q, tenants, allowed, q.refs[a]) && q.refs[a] !in Missing(tables, q)
  {
    AliasScopeIsExact(q, tenants, allowed, a);
  }

  /** A caller who never spells an alias like the table of another reference is
      on the exact side. */
  lemma PlainAliasesAreShadowFree(tables: set<string>, q: Query)
    requires q.WellFormed()
    requires forall a :: a in q.ScopedRefs(tables) && q.refs[a] in q.refs ==> q.refs[a] == a
    ensures ShadowFree(tables, q)
  {
    forall a | a in q.ScopedRefs(tables) && q.refs[a] in q.ScopedNames() ensures a in q.ScopedNames() {
      ScopedAreMentioned(q.direct, q.joins, q.refs[a], q.refs.Keys);
    }
  }

  lemma {:induction false} ScopedAreMentioned(direct: set<string>, joins: seq<Join>, x: string, names: set<string>)
    requires direct <= names
    requires forall i :: 0 <= i < |joins| ==> joins[i].left in names && joins[i].right in names
    requires x in Scoped(direct, joins)
    ensures x in names
  {
    ClassKeysAreMentioned(joins, names);
  }

  lemma {:induction false} ClassKeysAreMentioned(joins: seq<Join>, names: set<string>)
    requires forall i :: 0 <= i < |joins| ==> joins[i].left in names && joins[i].right in names
    ensures ClassesOf(joins).Keys <= names
  {
    if joins != [] {
      var n := |joins| - 1;
      ClassKeysAreMentioned(joins[..n], names);
      MergeOfTouched(ClassesOf(joins[..n]), joins[n].left, joins[n].right);
    }
  }

  /** The blind spot is real: in `FROM users a JOIN groups users` with
      `users.tenant_id = $1`, nothing is reported although `a` is unbound. */
  lemma ShadowedTableIsMissed()
    ensures var q := Query(map["a" := "users", "users" := "groups"], {"users"}, []);
            && q.WellFormed()
            && Missing({"users", "groups"}, q) == {}
            && TableLeaks({"users", "groups"}, q, {0, 1}, {0}, "users")
  {
    var tables := {"users", "groups"};
    var q := Query(map["a" := "users", "users" := "groups"], {"users"}, []);
    var tenants, allowed := {0, 1}, {0};
    assert 1 in tenants - allowed;
    assert q.ScopedNames() == {"users"};
    var r := q.ScopedRefs(tables);
    assert r == q.refs;
    assert "a"[0] != "users"[0];
    AliasScopeIsExact(q, tenants, allowed, "a");
    assert "a" in r && q.refs["a"] == "users";
  }

  // ----- diagnostics --------------------------------------------------------

  datatype Statement = Select | With | Update | Delete | Insert | Upsert | MergeInto | Other

  /** The column list of an INSERT: its target and whether it names tenant_id. */
  datatype ColumnList = ColumnList(target: string, listsTenant: bool)

  /** What the patterns extract from one SQL literal. */
  datatype Facts = Facts(
    stmt: Statement,
    query: Query,
    updateTarget: bool,          // UPDATE <table> is recognised
    deleteTarget: bool,          // DELETE FROM <table> is recognised
    anyPredicate: bool,          // some tenant_id comparison appears, whatever its qualifier
    barePredicate: bool,         // one of them binds an unqualified tenant_id to a value
    columns: Option<ColumnList>, // INSERT INTO <table> (...)
    source: Option<string>)      // INSERT ... SELECT ... FROM <table>

  /** The statement kinds whose per-reference check is reached. */
  ghost predicate ChecksReferences(f: Facts) {
    f.stmt.Select? || f.stmt.With? || (f.stmt.Update? && f.updateTarget) || (f.stmt.Delete? && f.deleteTarget)
  }

  ghost predicate Unlisted(tables: set<string>, f: Facts) {
    f.columns.Some? && f.columns.value.target in tables && !f.columns.value.listsTenant
  }

  ghost predicate ScopedSource(tables: set<string>, f: Facts) {
    f.source.Some? && f.source.value in tables
  }

  /** The tables of `hits` a statement is reported for. */
  ghost function Reported(tables: set<string>, f: Facts, hits: set<string>): set<string> {
    var missing := Missing(tables, f.query);
    match f.stmt
    case Select | With | Update | Delete =>
      if !ChecksReferences(f) then {}
      else if missing != {} then missing * hits
      else if f.anyPredicate then {} else hits
    case Insert =>
      if Unlisted(tables, f) then {f.columns.value.target} * hits
      else if ScopedSource(tables, f) then (if f.anyPredicate then {} else {f.source.value} * hits)
      else if f.columns.None? && !f.anyPredicate then hits
      else {}
    case Upsert | MergeInto => if f.anyPredicate then {} else hits
    case Other => {}
  }

  method Violates(tables: set<string>, f: Facts, table: string) returns (bad: bool)
    ensures bad <==> table in Reported(tables, f, {table})
  {
    match f.stmt
    case Select | With =>
      bad := ViolatesReferences(tables, f, table);
    case Update =>
      if !f.updateTarget { return false; }
      bad := ViolatesReferences(tables, f, table);
    case Delete =>
      if !f.deleteTarget { return false; }
      bad := ViolatesReferences(tables, f, table);
    case Insert =>
      if f.columns.Some? && f.columns.value.target in tables && !f.columns.value.listsTenant {
        return table == f.columns.value.target;
      }
      if f.source.Some? && f.source.value in tables {
        if f.anyPredicate { return false; }
        return table == f.source.value;
      }
      return f.columns.None? && !f.anyPredicate;
    case Upsert | MergeInto =>
      bad := !f.anyPredicate;
    case Other =>
      bad := false;
  }

  method ViolatesReferences(tables: set<string>, f: Facts, table: string) returns (bad: bool)
    ensures bad <==> if Missing(tables, f.query) != {} then table in Missing(tables, f.query) else !f.anyPredicate
  {
    var missing := MissingPerTablePredicates(tables, f.query);
    if missing != {} {
      return table in missing;
    }
    bad := !f.anyPredicate;
  }

  lemma ReportedIsPointwise(tables: set<string>, f: Facts, hits: set<string>, table: string)
    requires table in hits
    ensures table in Reported(tables, f, {table}) <==> table in Reported(tables, f, hits)
  {
  }

  ghost predicate Distinct(s: seq<string>) {
    forall i, j :: 0 <= i < j < |s| ==> s[i] != s[j]
  }

  function Elements(s: seq<string>): set<string> {
    set t | t in s
  }

  // ----- what an INSERT does --------------------------------------------------------

  /** The tenant column of a written row. */
  datatype Cell = Unset | Set(tenant: nat)

  /** A row the INSERT may write into `table`: its tenant column takes a value only when
      the column list names it. */
  ghost predicate Writes(f: Facts, table: string, cell: Cell) {
    f.columns.Some? && f.columns.value.target == table && (cell.Set? <==> f.columns.value.listsTenant)
  }

  /** A row of `table` the INSERT may copy: any row of its source, or one of an allowed
      tenant when a comparison appears. */
  ghost predicate Copies(f: Facts, allowed: set<nat>, table: string, r: Row) {
    f.source == Some(table) && (f.anyPredicate ==> r.tenant in allowed)
  }

  ghost predicate LeavesUnset(f: Facts, table: string) {
    exists cell :: Writes(f, table, cell) && cell.Unset?
  }

  ghost predicate CopiesForeign(f: Facts, tenants: set<nat>, allowed: set<nat>, table: string) {
    exists r :: Copies(f, allowed, table, r) && r.tenant in tenants - allowed
  }

  /** The INSERT writes rows without a tenant into a scoped table; or it writes none such,
      and copies foreign rows out of one. */
  ghost predicate InsertOffends(tables: set<string>, f: Facts, tenants: set<nat>, allowed: set<nat>, table: string) {
    && table in tables
    && (|| LeavesUnset(f, table)
        || (CopiesForeign(f, tenants, allowed, table) && forall x :: x in tables ==> !LeavesUnset(f, x)))
  }

  lemma InsertVerdictIsExact(
      tables: set<string>, f: Facts, hits: set<string>, tenants: set<nat>, allowed: set<nat>, table: string)
    requires f.stmt.Insert? && (f.columns.Some? || ScopedSource(tables, f)) && TwoKindsOfTenant(tenants, allowed)
    ensures table in Reported(tables, f, hits) <==> table in hits && InsertOffends(tables, f, tenants, allowed, table)
  {
    forall x ensures LeavesUnset(f, x) <==> f.columns.Some? && f.columns.value == ColumnList(x, false) {
      assert Writes(f, x, Unset) || !LeavesUnset(f, x);
    }
    var u :| u in tenants - allowed;
    assert CopiesForeign(f, tenants, allowed, table) <==> f.source == Some(table) && !f.anyPredicate by {
      assert f.source == Some(table) && !f.anyPredicate ==> Copies(f, allowed, table, Row(u, 0));
    }
  }

  // ----- the scan -------------------------------------------------------------------

  /** A statement judged only by whether some comparison appears: an INSERT that lists no
      columns and reads no scoped table, an UPSERT or MERGE, and a query, UPDATE or DELETE
      with fewer than two scoped references. */
  ghost predicate JudgedByComparison(tables: set<string>, f: Facts) {
    || (f.stmt.Insert? && f.columns.None? && !(f.source.Some? && f.source.value in tables))
    || f.stmt.Upsert? || f.stmt.MergeInto?
    || ((f.stmt.Select? || f.stmt.With?) && |f.query.ScopedRefs(tables)| < 2)
    || (f.stmt.Update? && f.updateTarget && |f.query.ScopedRefs(tables)| < 2)
    || (f.stmt.Delete? && f.deleteTarget && |f.query.ScopedRefs(tables)| < 2)
  }

  /** The reporting loop: one diagnostic per offending table of `hits`. The last four
      clauses say, kind by kind, which tables those are. */
  method ScanLiteral(tables: set<string>, f: Facts, hits: seq<string>) returns (out: seq<string>)
    requires Distinct(hits)
    ensures Distinct(out)
    ensures Elements(out) == Reported(tables, f, Elements(hits))
    ensures f.stmt.Insert? && (f.columns.Some? || (f.source.Some? && f.source.value in tables)) ==>
              forall tenants, allowed, t :: TwoKindsOfTenant(tenants, allowed) ==>
                (t in out <==> t in hits && InsertOffends(tables, f, tenants, allowed, t))
    ensures JudgedByComparison(tables, f) ==> forall t :: t in out <==> t in hits && !f.anyPredicate
    ensures f.stmt.Other? || (f.stmt.Update? && !f.updateTarget) || (f.stmt.Delete? && !f.deleteTarget) ==> out == []
    ensures f.query.WellFormed() && ChecksReferences(f) && Extracted(f) && Mentions(tables, f, Elements(hits)) ==>
              forall tenants, allowed :: TwoKindsOfTenant(tenants, allowed) ==>
                (NamesLeaks(tables, f, Elements(out), tenants, allowed) <==> ShadowFree(tables, f.query))
  {
    hide Missing, NamesLeaks, ShadowFree;
    out := ScanEach(tables, f, hits);
    ghost var all := Elements(hits);
    assert forall t :: t in out <==> t in Elements(out);
    assert out != [] ==> out[0] in Elements(out);
    if f.stmt.Insert? && (f.columns.Some? || ScopedSource(tables, f)) {
      forall tenants, allowed, t | TwoKindsOfTenant(tenants, allowed)
        ensures t in out <==> t in hits && InsertOffends(tables, f, tenants, allowed, t)
      {
        InsertVerdictIsExact(tables, f, all, tenants, allowed, t);
      }
    }
    if JudgedByComparison(tables, f) { FewReferencesMissNothing(tables, f.query); }
    if f.query.WellFormed() && ChecksReferences(f) && Extracted(f) && Mentions(tables, f, all) {
      forall tenants, allowed | TwoKindsOfTenant(tenants, allowed)
        ensures NamesLeaks(tables, f, Elements(out), tenants, allowed) <==> ShadowFree(tables, f.query)
      {
        ScanIsExactIffShadowFree(tables, f, all, tenants, allowed);
      }
    }
  }

  lemma FewReferencesMissNothing(tables: set<string>, q: Query)
    ensures |q.ScopedRefs(tables)| < 2 ==> Missing(tables, q) == {}
  {
  }

  method ScanEach(tables: set<string>, f: Facts, hits: seq<string>) returns (out: seq<string>)
    requires Distinct(hits)
    ensures Distinct(out)
    ensures Elements(out) == Reported(tables, f, Elements(hits))
  {
    hide Reported;
    out := [];
    ghost var all := Elements(hits);
    for i := 0 to |hits|
      invariant Distinct(out)
      invariant forall t :: t in out <==> t in hits[..i] && t in Reported(tables, f, all)
    {
      var bad := Violates(tables, f, hits[i]);
      ReportedIsPointwise(tables, f, all, hits[i]);
      assert hits[..i + 1] == hits[..i] + [hits[i]];
      if bad {
        assert hits[i] !in hits[..i];
        out := out + [hits[i]];
      }
    }
    assert hits[..|hits|] == hits;
    ReportedIsMentioned(tables, f, all);
  }

  lemma ReportedIsMentioned(tables: set<string>, f: Facts, hits: set<string>)
    ensures Reported(tables, f, hits) <= hits
  {
  }

  /** When the per-reference check finds missing predicates, the whole scan names
      each of those tables exactly once and nothing else. */
  lemma ScanNamesMissingTables(tables: set<string>, f: Facts, hits: seq<string>, out: seq<string>)
    requires ChecksReferences(f) && Missing(tables, f.query) != {}
    requires Missing(tables, f.query) <= Elements(hits)
    requires Distinct(out) && Elements(out) == Reported(tables, f, Elements(hits))
    ensures Elements(out) == Missing(tables, f.query)
    ensures |out| == |Missing(tables, f.query)|
  {
    DistinctLength(out);
  }

  /** An INSERT with a column list, or one reading a scoped table, is reported at
      most once over all tables it mentions. */
  lemma InsertReportsOnce(tables: set<string>, f: Facts, hits: seq<string>, out: seq<string>)
    requires f.stmt.Insert? && (f.columns.Some? || ScopedSource(tables, f))
    requires Distinct(out) && Elements(out) == Reported(tables, f, Elements(hits))
    ensures |out| <= 1
    ensures out != [] && Unlisted(tables, f) ==> out[0] == f.columns.value.target
    ensures out != [] && !Unlisted(tables, f) ==> f.source == Some(out[0]) && !f.anyPredicate
  {
    var r := Reported(tables, f, Elements(hits));
    assert forall i :: 0 <= i < |out| ==> out[i] in r;
    DistinctLength(out);
    if r != {} {
      var x :| x in r;
      assert r == {x};
    }
  }

  // ----- the scan against the databases ---------------------------------------------

  /** The comparison pattern finds every binding and every join the other two find. */
  ghost predicate Extracted(f: Facts) {
    f.barePredicate || f.query.direct != {} || f.query.joins != [] ==> f.anyPredicate
  }

  /** The named tables are exactly the leaking ones. */
  ghost predicate NamesLeaks(tables: set<string>, f: Facts, named: set<string>, tenants: set<nat>, allowed: set<nat>)
    requires f.query.WellFormed()
  {
    forall table :: table in named <==> TableLeaks(tables, f.query, tenants, allowed, table)
  }

  /** There are two or more scoped references, and all their tables are mentioned. */
  ghost predicate Mentions(tables: set<string>, f: Facts, hits: set<string>) {
    |f.query.ScopedRefs(tables)| >= 2 && f.query.ScopedRefs(tables).Values <= hits
  }

  lemma ScopeNeedsABinding(q: Query, x: string)
    requires x in q.ScopedNames()
    ensures q.direct != {}
  {
  }

  /** With two or more scoped references, all mentioned, the diagnostics of the whole scan
      are the leaking tables if and only if no table name is shadowed. */
  lemma ScanIsExactIffShadowFree(tables: set<string>, f: Facts, hits: set<string>, tenants: set<nat>, allowed: set<nat>)
    requires f.query.WellFormed() && TwoKindsOfTenant(tenants, allowed)
    requires ChecksReferences(f) && Extracted(f)
    requires Mentions(tables, f, hits)
    ensures NamesLeaks(tables, f, Reported(tables, f, hits), tenants, allowed) <==> ShadowFree(tables, f.query)
  {
    hide TableLeaks, ShadowFree, Scoped;
    ReportIsExactIffShadowFree(tables, f.query, tenants, allowed);
    ScanReportsMissing(tables, f, hits);
  }

  lemma ScanReportsMissing(tables: set<string>, f: Facts, hits: set<string>)
    requires ChecksReferences(f) && Extracted(f)
    requires Mentions(tables, f, hits)
    ensures Reported(tables, f, hits) == Missing(tables, f.query)
  {
    hide Scoped;
    var q, r := f.query, f.query.ScopedRefs(tables);
    if Missing(tables, q) == {} {
      assert |r.Keys| == |r|;
      var a :| a in r;
      assert a in q.ScopedNames() || r[a] in q.ScopedNames() by {
        assert r[a] !in Missing(tables, q);
      }
      ScopeNeedsABinding(q, if a in q.ScopedNames() then a else r[a]);
    } else {
      assert forall a :: a in r ==> r[a] in r.Values;
    }
  }

  /** The statement a bare predicate stands for when `a` is the only reference whose table
      has the column. */
  ghost function Resolved(f: Facts, a: string): Query {
    if f.barePredicate then f.query.(direct := f.query.direct + {a}) else f.query
  }

  /** With one scoped reference the scan says nothing as soon as any tenant_id comparison
      appears, so its verdict on that table is right if and only if such a comparison is
      bare or scopes the reference itself. */
  lemma SingleReferenceIsExactIff(
      tables: set<string>, f: Facts, hits: set<string>, tenants: set<nat>, allowed: set<nat>, a: string)
    requires f.query.WellFormed() && TwoKindsOfTenant(tenants, allowed)
    requires ChecksReferences(f) && Extracted(f)
    requires f.query.ScopedRefs(tables).Keys == {a} && f.query.refs[a] in hits
    ensures Resolved(f, a).WellFormed()
    ensures (f.query.refs[a] in Reported(tables, f, hits)
             <==> TableLeaks(tables, Resolved(f, a), tenants, allowed, f.query.refs[a]))
            <==> (f.anyPredicate ==> f.barePredicate || a in f.query.ScopedNames())
  {
    hide Leaks, Scoped;
    var q, r := Resolved(f, a), f.query.ScopedRefs(tables);
    assert q.ScopedRefs(tables) == r;
    assert |r| == |r.Keys| == 1;
    assert a in r.Keys;
    AliasScopeIsExact(q, tenants, allowed, a);
    assert TableLeaks(tables, q, tenants, allowed, q.refs[a]) <==> Leaks(q, tenants, allowed, a);
    assert f.barePredicate ==> a in q.ScopedNames() by { BoundIsScoped(q.direct, q.joins, a); }
    if a in f.query.ScopedNames() { ScopeNeedsABinding(f.query, a); }
  }

  lemma BoundIsScoped(direct: set<string>, joins: seq<Join>, a: string)
    ensures a in direct ==> a in Scoped(direct, joins)
  {
  }

  /** Such a statement exists: `FROM users u JOIN plans p` with `p.tenant_id = $1`, where
      only `users` is tenant scoped, is passed although `u` is unbound. */
  lemma ForeignPredicateSilences()
    ensures var q := Query(map["u" := "users", "p" := "plans"], {"p"}, []);
            var f := Facts(Select, q, false, false, true, false, None, None);
            && q.WellFormed() && Extracted(f)
            && Reported({"users"}, f, {"users"}) == {}
            && TableLeaks({"users"}, q, {0, 1}, {0}, "users")
  {
    var q := Query(map["u" := "users", "p" := "plans"], {"p"}, []);
    var f := Facts(Select, q, false, false, true, false, None, None);
    assert "u"[0] != "p"[0] && "users"[0] != "plans"[0];
    assert q.ScopedRefs({"users"}) == map["u" := "users"];
    assert 1 in {0, 1} - {0};
    assert q.ScopedNames() == {"p"};
    SingleReferenceIsExactIff({"users"}, f, {"users"}, {0, 1}, {0}, "u");
  }

  lemma {:induction false} DistinctLength(s: seq<string>)
    requires Distinct(s)
    ensures |Elements(s)| == |s|
  {
    if s != [] {
      var n := |s| - 1;
      DistinctLength(s[..n]);
      assert Elements(s) == Elements(s[..n]) + {s[n]};
    }
  }
}
