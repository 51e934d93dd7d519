/** The union-find of the tenant linter: qualifiers joined by
    `a.tenant_id = b.tenant_id` share a class, and a class that contains a
    directly bound qualifier is scoped. */
module QualifierForest {

  /** A join condition `left.tenant_id = right.tenant_id`. */
  datatype Join = Join(left: string, right: string)

  /** The class each known qualifier belongs to, named by its representative. */
  type Classes = map<string, string>

  // ----- class maps -----------------------------------------------------

  ghost predicate SameClass(c: Classes, x: string, y: string) {
    x in c && y in c && c[x] == c[y]
  }

  /** A qualifier seen for the first time is a class of its own. */
  ghost function Touch(c: Classes, q: string): Classes {
    if q in c then c else c[q := q]
  }

  ghost function Renamed(c: Classes, from: string, to: string): Classes {
    map q | q in c :: if c[q] == from then to else c[q]
  }

  /** Both ends are touched, then the left class is renamed to the right one. */
  ghost function Merge(c: Classes, a: string, b: string): Classes {
    var t := Touch(Touch(c, a), b);
    Renamed(t, t[a], t[b])
  }

  lemma MergeOfTouched(c: Classes, a: string, b: string)
    ensures var t := Touch(Touch(c, a), b);
            && t.Keys == c.Keys + {a, b}
            && t[a] == Touch(c, a)[a]
            && Merge(c, a, b) == Renamed(t, t[a], t[b])
            && (t[a] == t[b] ==> Merge(c, a, b) == t)
  {
  }

  lemma MergeKeepsSame(c: Classes, a: string, b: string, x: string, y: string)
    requires SameClass(c, x, y)
    ensures SameClass(Merge(c, a, b), x, y)
  {
  }

  /** The representative of `q` is known and represents itself. */
  ghost predicate RootedAt(c: Classes, q: string)
    requires q in c
  {
    c[q] in c && c[c[q]] == c[q]
  }

  ghost predicate Closed(c: Classes) {
    forall q {:trigger RootedAt(c, q)} :: q in c ==> RootedAt(c, q)
  }

  lemma MergeKeepsClosed(c: Classes, a: string, b: string)
    requires Closed(c)
    ensures Closed(Merge(c, a, b))
  {
    var t := Touch(Touch(c, a), b);
    forall q | q in t ensures RootedAt(t, q) {
      if q in c { assert RootedAt(c, q); }
    }
    var m := Merge(c, a, b);
    forall q | q in m ensures RootedAt(m, q) {
      assert RootedAt(t, q) && RootedAt(t, b);
    }
  }

  /** The classes after a sequence of joins. */
  ghost function ClassesOf(joins: seq<Join>): Classes {
    if joins == [] then map[]
    else Merge(ClassesOf(joins[..|joins| - 1]), joins[|joins| - 1].left, joins[|joins| - 1].right)
  }

  /** A join merges exactly the two classes it names and no others. */
  lemma MergeIsExact(c: Classes, a: string, b: string, x: string, y: string)
    requires x in Merge(c, a, b) && y in Merge(c, a, b)
    ensures Merge(c, a, b).Keys == c.Keys + {a, b}
    ensures var t := Touch(Touch(c, a), b);
            SameClass(Merge(c, a, b), x, y)
            <==> (SameClass(t, x, y)
                  || ((SameClass(t, x, a) || SameClass(t, x, b)) && (SameClass(t, y, a) || SameClass(t, y, b))))
  {
    var t := Touch(Touch(c, a), b);
    var m := Merge(c, a, b);
    assert m[x] == if t[x] == t[a] then t[b] else t[x];
    assert m[y] == if t[y] == t[a] then t[b] else t[y];
  }

  // ----- parent forests --------------------------------------------------

  /** What the forest says about one qualifier: its parent and representative
      are known, the representative is a root shared with the parent, only a root
      represents itself through its own link, and `depth` decreases along every
      other link (which is what makes `find` terminate). */
  ghost predicate NodeOk(parent: map<string, string>, rep: Classes, depth: map<string, nat>, q: string)
    requires rep.Keys == parent.Keys && depth.Keys == parent.Keys && q in parent
  {
    && parent[q] in parent && rep[q] in parent
    && parent[rep[q]] == rep[q] && rep[rep[q]] == rep[q]
    && rep[parent[q]] == rep[q]
    && (if parent[q] == q then rep[q] == q else depth[parent[q]] < depth[q] && depth[rep[q]] < depth[q])
  }

  /** `parent` is a forest whose trees are the classes `rep`. */
  ghost predicate IsForest(parent: map<string, string>, rep: Classes, depth: map<string, nat>) {
    && rep.Keys == parent.Keys && depth.Keys == parent.Keys
    && forall q {:trigger NodeOk(parent, rep, depth, q)} :: q in parent ==> NodeOk(parent, rep, depth, q)
  }

  /** The qualifier reached by following `n` parent links. */
  ghost function Climb(parent: map<string, string>, rep: Classes, depth: map<string, nat>, q: string, n: nat): string
    requires IsForest(parent, rep, depth) && q in parent
    ensures Climb(parent, rep, depth, q, n) in parent
    decreases n
  {
    if n == 0 then q else
      assert NodeOk(parent, rep, depth, q);
      Climb(parent, rep, depth, parent[q], n - 1)
  }

  lemma {:induction false} ClimbStaysAtRoot(
      parent: map<string, string>, rep: Classes, depth: map<string, nat>, r: string, n: nat)
    requires IsForest(parent, rep, depth)
    requires r in parent && parent[r] == r
    ensures Climb(parent, rep, depth, r, n) == r
  {
    if n > 0 { ClimbStaysAtRoot(parent, rep, depth, r, n - 1); }
  }

  /** No walk from a non-root ever comes back: the parent map has no cycle
      other than the self-links of roots. */
  lemma {:induction false} ForestHasNoCycle(
      parent: map<string, string>, rep: Classes, depth: map<string, nat>, q: string, n: nat)
    requires IsForest(parent, rep, depth)
    requires q in parent && parent[q] != q && n > 0
    ensures depth[Climb(parent, rep, depth, q, n)] < depth[q]
    ensures Climb(parent, rep, depth, q, n) != q
    decreases n
  {
    var p := parent[q];
    assert NodeOk(parent, rep, depth, q);
    if parent[p] == p {
      ClimbStaysAtRoot(parent, rep, depth, p, n - 1);
    } else if n > 1 {
      ForestHasNoCycle(parent, rep, depth, p, n - 1);
    }
  }

  /** Climbing at least as many links as the depth ends at the representative. */
  lemma {:induction false} ClimbReachesRepresentative(
      parent: map<string, string>, rep: Classes, depth: map<string, nat>, q: string, n: nat)
    requires IsForest(parent, rep, depth) && q in parent && depth[q] <= n
    ensures Climb(parent, rep, depth, q, n) == rep[q]
    decreases n
  {
    assert NodeOk(parent, rep, depth, q);
    if parent[q] == q {
      ClimbStaysAtRoot(parent, rep, depth, q, n);
    } else {
      ClimbReachesRepresentative(parent, rep, depth, parent[q], n - 1);
    }
  }

  /** Path compression: redirecting a qualifier to its representative keeps the
      forest and its classes. */
  lemma CompressionKeepsForest(parent: map<string, string>, rep: Classes, depth: map<string, nat>, q: string)
    requires IsForest(parent, rep, depth) && q in parent
    ensures IsForest(parent[q := rep[q]], rep, depth)
  {
    var next := parent[q := rep[q]];
    assert NodeOk(parent, rep, depth, q);
    forall x | x in next ensures NodeOk(next, rep, depth, x) {
      assert NodeOk(parent, rep, depth, x);
      assert NodeOk(parent, rep, depth, rep[x]);
    }
  }

  lemma TouchKeepsForest(parent: map<string, string>, rep: Classes, depth: map<string, nat>, q: string)
    requires IsForest(parent, rep, depth) && q !in parent
    ensures IsForest(parent[q := q], rep[q := q], depth[q := 0])
  {
    var next, reps, depths := parent[q := q], rep[q := q], depth[q := 0];
    forall x | x in next ensures NodeOk(next, reps, depths, x) {
      if x != q { assert NodeOk(parent, rep, depth, x); }
    }
  }

  /** The depths after hanging the tree of root `ra` below root `rb`. */
  ghost function Lowered(rep: Classes, depth: map<string, nat>, ra: string, rb: string): map<string, nat>
    requires rep.Keys == depth.Keys && rb in depth
  {
    map q | q in depth :: if rep[q] == ra then depth[q] + depth[rb] + 1 else depth[q]
  }

  /** Linking one root below another merges their classes and stays a forest. */
  lemma LinkKeepsForest(parent: map<string, string>, rep: Classes, depth: map<string, nat>, ra: string, rb: string)
    requires IsForest(parent, rep, depth)
    requires ra in parent && rb in parent && rep[ra] == ra && rep[rb] == rb && ra != rb
    ensures IsForest(parent[ra := rb], Renamed(rep, ra, rb), Lowered(rep, depth, ra, rb))
  {
    var next := parent[ra := rb];
    var merged := Renamed(rep, ra, rb);
    var lowered := Lowered(rep, depth, ra, rb);
    assert NodeOk(parent, rep, depth, ra) && NodeOk(parent, rep, depth, rb);
    forall x | x in next ensures NodeOk(next, merged, lowered, x) {
      assert NodeOk(parent, rep, depth, x);
    }
  }

  class Forest {
    var parent: map<string, string>
    ghost var rep: Classes
    ghost var depth: map<string, nat>

    ghost predicate Valid()
      reads this
    {
      IsForest(parent, rep, depth)
    }

    constructor ()
      ensures Valid() && parent == map[] && rep == map[]
    {
      parent, rep, depth := map[], map[], map[];
    }

    /** Path-compressing find: the classes do not change, a known qualifier adds
        no key, and an unknown one becomes its own class. */
    method Find(q: string) returns (r: string)
      requires Valid()
      modifies this
      ensures Valid()
      ensures rep == Touch(old(rep), q) && r == rep[q]
      ensures parent.Keys == old(parent.Keys) + {q}
      ensures parent[q] == r
      ensures q in old(parent) ==> depth == old(depth)
      decreases if q in parent then depth[q] + 1 else 0
    {
      assert q in parent ==> NodeOk(parent, rep, depth, q);
      if q in parent && parent[q] != q {
        r := Find(parent[q]);
        CompressionKeepsForest(parent, rep, depth, q);
        parent := parent[q := r];
        return;
      }
      if q !in parent {
        TouchKeepsForest(parent, rep, depth, q);
        parent := parent[q := q];
        rep := rep[q := q];
        depth := depth[q := 0];
      }
      r := parent[q];
    }

    /** Joins the classes of `a` and `b`. */
    method Union(a: string, b: string)
      requires Valid()
      modifies this
      ensures Valid()
      ensures rep == Merge(old(rep), a, b)
      ensures parent.Keys == old(parent.Keys) + {a, b}
    {
      var ra := Find(a);
      var rb := Find(b);
      MergeOfTouched(old(rep), a, b);
      if ra == rb {
        return;
      }
      assert NodeOk(parent, rep, depth, a) && NodeOk(parent, rep, depth, b);
      Link(ra, rb);
    }

    method Link(ra: string, rb: string)
      requires Valid() && ra in rep && rb in rep && rep[ra] == ra && rep[rb] == rb && ra != rb
      modifies this
      ensures Valid() && rep == Renamed(old(rep), ra, rb)
      ensures parent == old(parent)[ra := rb]
    {
      LinkKeepsForest(parent, rep, depth, ra, rb);
      parent := parent[ra := rb];
      depth := Lowered(rep, depth, ra, rb);
      rep := Renamed(rep, ra, rb);
    }

    /** One union per join, in the order they are matched. */
    method UnionAll(joins: seq<Join>)
      requires Valid() && rep == map[]
      modifies this
      ensures Valid() && rep == ClassesOf(joins)
    {
      for i := 0 to |joins|
        invariant Valid() && rep == ClassesOf(joins[..i])
      {
        assert joins[..i + 1][..i] == joins[..i];
        Union(joins[i].left, joins[i].right);
      }
      assert joins[..|joins|] == joins;
    }

    /** The roots of the directly bound qualifiers; a binding that takes part in
        no join becomes a class of its own here. */
    method RootsOf(direct: set<string>) returns (roots: set<string>)
      requires Valid()
      modifies this
      ensures Valid() && Extends(old(rep), rep, direct)
      ensures roots == set d | d in direct :: rep[d]
    {
      roots := {};
      var todo := direct;
      while todo != {}
        invariant Valid() && todo <= direct && Extends(old(rep), rep, direct - todo)
        invariant roots == set d | d in direct - todo :: rep[d]
        decreases todo
      {
        var q :| q in todo;
        var r := Find(q);
        roots := roots + {r};
        assert direct - (todo - {q}) == (direct - todo) + {q};
        todo := todo - {q};
      }
      assert direct - todo == direct;
    }

    /** The pass over the parent map: it looks up known qualifiers only, so it
        adds no key while iterating and compression leaves the classes alone. */
    method MembersUnder(roots: set<string>) returns (members: set<string>)
      requires Valid()
      modifies this
      ensures Valid() && rep == old(rep) && parent.Keys == old(parent.Keys)
      ensures members == set q | q in rep && rep[q] in roots
    {
      members := {};
      var todo := parent.Keys;
      while todo != {}
        invariant Valid() && rep == old(rep) && parent.Keys == old(parent.Keys) && todo <= rep.Keys
        invariant members == set q | q in rep.Keys - todo && rep[q] in roots
        decreases todo
      {
        var q :| q in todo;
        var r := Find(q);
        if r in roots {
          members := members + {q};
        }
        todo := todo - {q};
      }
    }
  }

  // ----- scoped qualifiers -----------------------------------------------

  /** The qualifiers in the class of some directly bound qualifier. */
  ghost function Scoped(direct: set<string>, joins: seq<Join>): set<string> {
    var c := ClassesOf(joins);
    direct + set q | q in c && exists d :: d in direct && SameClass(c, q, d)
  }

  /** Direct bindings plus everything the joins connect to one of them. */
  method ScopedQualifiers(direct: set<string>, joins: seq<Join>) returns (out: set<string>)
    ensures out == Scoped(direct, joins)
  {
    var forest := new Forest();
    forest.UnionAll(joins);
    ghost var c := forest.rep;
    var scopedRoots := forest.RootsOf(direct);
    var members := forest.MembersUnder(scopedRoots);
    out := direct + members;
    ClassesAreClosed(joins);
    ScopedFromRoots(direct, c, forest.rep, scopedRoots);
  }

  /** `k` is `c` with the qualifiers `seen` touched. */
  ghost predicate Extends(c: Classes, k: Classes, seen: set<string>) {
    && k.Keys == c.Keys + seen
    && forall q :: q in k ==> k[q] == if q in c then c[q] else q
  }

  lemma ScopedFromRoots(direct: set<string>, c: Classes, k: Classes, roots: set<string>)
    requires Closed(c) && Extends(c, k, direct)
    requires roots == set d | d in direct :: k[d]
    ensures (direct + set q | q in k && k[q] in roots)
            == direct + set q | q in c && exists d :: d in direct && SameClass(c, q, d)
  {
    forall q | q in k && q !in direct
      ensures (k[q] in roots) <==> (q in c && exists d :: d in direct && SameClass(c, q, d))
    {
      assert q in c && RootedAt(c, q);
      if k[q] in roots {
        var d :| d in direct && k[d] == k[q];
        assert d in c;
        assert SameClass(c, q, d);
      }
    }
  }

  // ----- what the joins mean ----------------------------------------------

  /** A row assignment, seen through the one column that matters here: the
      tenant each qualifier's row belongs to. */
  type Assignment = string -> nat

  /** `sigma` gives every qualifier an existing tenant, gives each directly bound
      qualifier one of the `allowed` tenants and satisfies every join. */
  ghost predicate Satisfies(
      sigma: Assignment, direct: set<string>, joins: seq<Join>, tenants: set<nat>, allowed: set<nat>)
  {
    && (forall q :: sigma(q) in tenants)
    && (forall q :: q in direct ==> sigma(q) in allowed)
    && (forall i :: 0 <= i < |joins| ==> sigma(joins[i].left) == sigma(joins[i].right))
  }

  /** Every satisfying assignment keeps `q` within the allowed tenants. */
  ghost predicate Pinned(direct: set<string>, joins: seq<Join>, tenants: set<nat>, allowed: set<nat>, q: string) {
    forall sigma: Assignment :: Satisfies(sigma, direct, joins, tenants, allowed) ==> sigma(q) in allowed
  }

  lemma {:induction false} ClassesAreClosed(joins: seq<Join>)
    ensures Closed(ClassesOf(joins))
  {
    if joins != [] {
      var n := |joins| - 1;
      ClassesAreClosed(joins[..n]);
      MergeKeepsClosed(ClassesOf(joins[..n]), joins[n].left, joins[n].right);
    }
  }

  /** Both ends of every join end up in one class. */
  lemma {:induction false} JoinsShareAClass(joins: seq<Join>, i: nat)
    requires i < |joins|
    ensures SameClass(ClassesOf(joins), joins[i].left, joins[i].right)
  {
    var n := |joins| - 1;
    var before, a, b := ClassesOf(joins[..n]), joins[n].left, joins[n].right;
    if i < n {
      JoinsShareAClass(joins[..n], i);
      MergeKeepsSame(before, a, b, joins[i].left, joins[i].right);
    } else {
      MergeOfTouched(before, a, b);
    }
  }

  /** Qualifiers in one class have one tenant under every assignment that
      satisfies the joins. */
  lemma {:induction false} ClassesAreEntailed(joins: seq<Join>, sigma: Assignment, x: string)
    requires forall i :: 0 <= i < |joins| ==> sigma(joins[i].left) == sigma(joins[i].right)
    requires x in ClassesOf(joins)
    ensures sigma(x) == sigma(ClassesOf(joins)[x])
  {
    var n := |joins| - 1;
    var before := ClassesOf(joins[..n]);
    var a, b := joins[n].left, joins[n].right;
    forall y | y in before ensures sigma(y) == sigma(before[y]) {
      ClassesAreEntailed(joins[..n], sigma, y);
    }
    var t := Touch(Touch(before, a), b);
    assert forall y :: y in t ==> sigma(y) == sigma(t[y]);
    assert sigma(joins[n].left) == sigma(joins[n].right);
  }

  /** The assignment that refutes a pin: scoped classes get the allowed tenant
      `t`, everything else the forbidden tenant `u`. */
  ghost function Refuter(direct: set<string>, joins: seq<Join>, t: nat, u: nat): Assignment {
    var scoped := Scoped(direct, joins);
    (q: string) => if q in scoped then t else u
  }

  lemma RefuterSatisfies(direct: set<string>, joins: seq<Join>, tenants: set<nat>, allowed: set<nat>, t: nat, u: nat)
    requires t in allowed && allowed <= tenants && u in tenants - allowed
    ensures Satisfies(Refuter(direct, joins, t, u), direct, joins, tenants, allowed)
  {
    var c := ClassesOf(joins);
    var sigma := Refuter(direct, joins, t, u);
    forall i | 0 <= i < |joins| ensures sigma(joins[i].left) == sigma(joins[i].right) {
      var a, b := joins[i].left, joins[i].right;
      JoinsShareAClass(joins, i);
      if a in Scoped(direct, joins) { ScopeIsClassWide(direct, joins, a, b); }
      if b in Scoped(direct, joins) { ScopeIsClassWide(direct, joins, b, a); }
    }
  }

  lemma ScopeIsClassWide(direct: set<string>, joins: seq<Join>, a: string, b: string)
    requires SameClass(ClassesOf(joins), a, b)
    requires a in Scoped(direct, joins)
    ensures b in Scoped(direct, joins)
  {
    var c := ClassesOf(joins);
    var d :| d in direct && SameClass(c, a, d);
    assert d in direct && SameClass(c, b, d);
  }

  /** Exactness of the analysis: with some allowed tenant and some other one, a
      qualifier is scoped if and only if the bindings and joins pin it. */
  lemma ScopedIsExact(direct: set<string>, joins: seq<Join>, tenants: set<nat>, allowed: set<nat>, q: string)
    requires allowed != {} && allowed <= tenants && tenants - allowed != {}
    ensures q in Scoped(direct, joins) <==> Pinned(direct, joins, tenants, allowed, q)
  {
    if q in Scoped(direct, joins) {
      forall sigma: Assignment | Satisfies(sigma, direct, joins, tenants, allowed)
        ensures sigma(q) in allowed
      {
        if q !in direct {
          var d :| d in direct && SameClass(ClassesOf(joins), q, d);
          ClassesAreEntailed(joins, sigma, q);
          ClassesAreEntailed(joins, sigma, d);
        }
      }
    } else {
      var t :| t in allowed;
      var u :| u in tenants - allowed;
      RefuterSatisfies(direct, joins, tenants, allowed, t, u);
      assert Refuter(direct, joins, t, u)(q) == u;
    }
  }

  /** Same joins as unordered pairs. */
  ghost predicate Covers(js: seq<Join>, ks: seq<Join>) {
    forall i :: 0 <= i < |js| ==> js[i] in ks || Join(js[i].right, js[i].left) in ks
  }

  /** The order, the repetition and the orientation of join conditions in the
      SQL text do not matter. */
  lemma ScopedIgnoresJoinOrder(direct: set<string>, js: seq<Join>, ks: seq<Join>)
    requires Covers(js, ks) && Covers(ks, js)
    ensures Scoped(direct, js) == Scoped(direct, ks)
  {
    ScopedWithinCover(direct, js, ks);
    ScopedWithinCover(direct, ks, js);
  }

  lemma ScopedWithinCover(direct: set<string>, js: seq<Join>, ks: seq<Join>)
    requires Covers(js, ks)
    ensures Scoped(direct, js) <= Scoped(direct, ks)
  {
    var tenants, allowed := {0, 1}, {0};
    assert 1 in tenants - allowed;
    forall q | q in Scoped(direct, js) ensures q in Scoped(direct, ks) {
      ScopedIsExact(direct, js, tenants, allowed, q);
      forall sigma: Assignment | Satisfies(sigma, direct, ks, tenants, allowed)
        ensures sigma(q) in allowed
      {
        CoverSatisfies(sigma, direct, js, ks, tenants, allowed);
      }
      ScopedIsExact(direct, ks, tenants, allowed, q);
    }
  }

  lemma CoverSatisfies(
      sigma: Assignment, direct: set<string>, js: seq<Join>, ks: seq<Join>, tenants: set<nat>, allowed: set<nat>)
    requires Covers(js, ks) && Satisfies(sigma, direct, ks, tenants, allowed)
    ensures Satisfies(sigma, direct, js, tenants, allowed)
  {
    forall i | 0 <= i < |js| ensures sigma(js[i].left) == sigma(js[i].right) {
      var k :| 0 <= k < |ks| && (ks[k] == js[i] || ks[k] == Join(js[i].right, js[i].left));
      assert sigma(ks[k].left) == sigma(ks[k].right);
    }
  }
}
