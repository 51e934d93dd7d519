/** Parsing of `FOR VALUES FROM (lo) TO (hi)` partition bounds and the decision which
    partitions the retention sweep must not touch. */
module PartitionBound {
  import opened Basics

  const PREFIX := "FOR VALUES FROM ("
  const SEPARATOR := ") TO ("
  const SUFFIX := ")"

  // ----- literals ---------------------------------------------------------------------

  /** A SQL string literal, quotes escaped by doubling. */
  function Quoted(s: string): string {
    ['\''] + Doubled(s) + ['\'']
  }

  /** Every doubled quote made single. */
  function Collapsed(s: string): string {
    if s == [] then []
    else if |s| >= 2 && s[0] == '\'' && s[1] == '\'' then ['\''] + Collapsed(s[2..])
    else [s[0]] + Collapsed(s[1..])
  }

  function Unquoted(s: string): string {
    if |s| >= 2 && s[0] == '\'' && s[|s| - 1] == '\'' then Collapsed(s[1..|s| - 1]) else Collapsed(s)
  }

  method UnquoteSQLLiteral(lit: string) returns (out: string)
    ensures out == Unquoted(lit)
  {
    var s := lit;
    if |s| >= 2 && s[0] == '\'' && s[|s| - 1] == '\'' {
      s := s[1..|s| - 1];
    }
    out := [];
    var i := 0;
    while i < |s|
      invariant 0 <= i <= |s|
      invariant out + Collapsed(s[i..]) == Collapsed(s)
    {
      hide Collapsed;
      CollapseNext(s, i, out);
      if s[i] == '\'' && i + 1 < |s| && s[i + 1] == '\'' {
        out := out + ['\''];
        i := i + 1;
      } else {
        out := out + [s[i]];
      }
      i := i + 1;
    }
    assert Collapsed(s[i..]) == [];
  }

  lemma CollapseNext(s: string, i: nat, out: string)
    requires i < |s|
    ensures out + Collapsed(s[i..]) ==
            if s[i] == '\'' && i + 1 < |s| && s[i + 1] == '\'' then out + ['\''] + Collapsed(s[i + 2..])
            else out + [s[i]] + Collapsed(s[i + 1..])
  {
    var rest := s[i..];
    assert rest[1..] == s[i + 1..];
    if |rest| >= 2 {
      assert rest[2..] == s[i + 2..];
    }
  }

  lemma {:induction false} CollapseUndoesDoubling(s: string)
    ensures Collapsed(Doubled(s)) == s
  {
    if s != [] {
      CollapseUndoesDoubling(s[1..]);
      var d := Doubled(s);
      if s[0] == '\'' {
        assert d[2..] == Doubled(s[1..]);
      } else {
        assert d[1..] == Doubled(s[1..]) && d[0] != '\'';
      }
    }
  }

  /** Unquoting a quoted literal gives the literal back, quotes and all. */
  lemma UnquoteUndoesQuote(s: string)
    ensures Unquoted(Quoted(s)) == s
  {
    var q := Quoted(s);
    assert q[1..|q| - 1] == Doubled(s);
    CollapseUndoesDoubling(s);
  }

  // ----- splitting ---------------------------------------------------------------------

  ghost predicate OccursAt(s: string, sub: string, i: nat) {
    i + |sub| <= |s| && s[i..i + |sub|] == sub
  }

  ghost predicate Contains(s: string, sub: string) {
    exists i: nat :: OccursAt(s, sub, i)
  }

  /** The first occurrence, or -1. */
  method IndexOf(s: string, sub: string) returns (r: int)
    ensures r >= 0 ==> OccursAt(s, sub, r) && forall j :: 0 <= j < r ==> !OccursAt(s, sub, j)
    ensures r < 0 ==> !Contains(s, sub)
  {
    if |sub| == 0 {
      assert s[0..0] == sub;
      return 0;
    }
    var i := 0;
    while i + |sub| <= |s|
      invariant 0 <= i
      invariant forall j :: 0 <= j < i ==> !OccursAt(s, sub, j)
    {
      if s[i..i + |sub|] == sub {
        return i;
      }
      i := i + 1;
    }
    r := -1;
  }

  /** The separator is found right after `lo` if and only if `lo` does not contain it:
      no occurrence can straddle the seam. */
  lemma SeparatorIsFoundIff(lo: string, hi: string, r: nat)
    requires OccursAt(lo + SEPARATOR + hi, SEPARATOR, r)
    requires forall j :: 0 <= j < r ==> !OccursAt(lo + SEPARATOR + hi, SEPARATOR, j)
    ensures r == |lo| <==> !Contains(lo, SEPARATOR)
  {
    var s := lo + SEPARATOR + hi;
    assert s[|lo|..|lo| + 6] == SEPARATOR;
    assert OccursAt(s, SEPARATOR, |lo|);
    if Contains(lo, SEPARATOR) {
      var i: nat :| OccursAt(lo, SEPARATOR, i);
      assert s[i..i + 6] == lo[i..i + 6];
      assert OccursAt(s, SEPARATOR, i);
    }
    if r < |lo| {
      StraddleIsImpossible(lo, hi, r);
      assert lo[r..r + 6] == s[r..r + 6];
      assert OccursAt(lo, SEPARATOR, r);
    }
  }

  lemma StraddleIsImpossible(lo: string, hi: string, r: nat)
    requires r < |lo| && OccursAt(lo + SEPARATOR + hi, SEPARATOR, r)
    ensures r + 6 <= |lo|
  {
    var s := lo + SEPARATOR + hi;
    assert s[|lo|] == ')';
    var w := s[r..r + 6];
    assert forall k :: 0 < k < 6 ==> w[k] != ')';
  }

  // ----- bounds ---------------------------------------------------------------------------

  /** Times are whatever the timestamp parser yields. */
  datatype Bound = Bound(lower: Option<int>, upper: Option<int>)  // None is MINVALUE / MAXVALUE

  datatype ParseError = UnknownShape | MissingSeparator | BadLower | BadUpper
  datatype Parse = Parsed(bound: Bound) | Failed(error: ParseError)

  /** The printed form of a bound over two literal texts. */
  function Printed(lo: string, hi: string): string {
    "FOR VALUES FROM (" + lo + ") TO (" + hi + ")"
  }

  /** One side: the sentinel word, or a timestamp the parser accepts. */
  function Side(text: string, sentinel: string, parseTime: string -> Option<int>): Option<Option<int>> {
    if text == sentinel then Some(None)
    else
      match parseTime(text)
      case None => None
      case Some(t) => Some(Some(t))
  }

  /** What a printed bound should parse to. */
  function Meaning(lo: string, hi: string, parseTime: string -> Option<int>): Parse {
    match Side(Unquoted(lo), "MINVALUE", parseTime)
    case None => Failed(BadLower)
    case Some(l) =>
      match Side(Unquoted(hi), "MAXVALUE", parseTime)
      case None => Failed(BadUpper)
      case Some(u) => Parsed(Bound(l, u))
  }

  /** The expression prints `lo` and `hi`, and its first separator is the one between. */
  ghost predicate Reads(expr: string, lo: string, hi: string) {
    expr == Printed(lo, hi) && !Contains(lo, SEPARATOR)
  }

  /** An expression is recognised when it is the printed form of two texts; the split
      is at the first separator. */
  method ParsePartitionBound(expr: string, parseTime: string -> Option<int>) returns (r: Parse)
    ensures forall lo, hi :: Reads(expr, lo, hi) ==> r == Meaning(lo, hi, parseTime)
    ensures (exists lo, hi :: Reads(expr, lo, hi))
            <==> !(r.Failed? && (r.error.UnknownShape? || r.error.MissingSeparator?))
  {
    hide Reads, Meaning, Contains;
    if !HasPrefix(expr, PREFIX) || !HasSuffix(expr, SUFFIX) {
      forall lo, hi ensures !Reads(expr, lo, hi) { PrintedHasShape(expr, lo, hi); }
      return Failed(UnknownShape);
    }
    InnerIsInRange(expr);
    var inner := expr[|PREFIX|..|expr| - |SUFFIX|];
    assert expr == PREFIX + inner + SUFFIX;
    var idx := IndexOf(inner, SEPARATOR);
    if idx < 0 {
      forall lo, hi ensures !Reads(expr, lo, hi) { InnerOfPrinted(expr, inner, lo, hi); }
      return Failed(MissingSeparator);
    }
    var lo, hi := inner[..idx], inner[idx + |SEPARATOR|..];
    SplitIsUnique(expr, inner, idx);
    assert Reads(expr, lo, hi);
    r := ParseSides(lo, hi, parseTime);
  }

  /** Splitting at the first separator is the one way to read the expression. */
  lemma SplitIsUnique(expr: string, inner: string, idx: nat)
    requires expr == PREFIX + inner + SUFFIX && OccursAt(inner, SEPARATOR, idx)
    requires forall j :: 0 <= j < idx ==> !OccursAt(inner, SEPARATOR, j)
    ensures forall lo, hi :: Reads(expr, lo, hi) <==> lo == inner[..idx] && hi == inner[idx + |SEPARATOR|..]
  {
    var lo, hi := inner[..idx], inner[idx + |SEPARATOR|..];
    assert inner == lo + SEPARATOR + hi;
    assert expr == Printed(lo, hi);
    SeparatorIsFoundIff(lo, hi, idx);
    forall a, b | Reads(expr, a, b) ensures a == lo && b == hi {
      InnerOfPrinted(expr, inner, a, b);
      SeparatorIsFoundIff(a, b, idx);
      assert a == inner[..idx] && b == inner[idx + |SEPARATOR|..];
    }
  }

  method ParseSides(lo: string, hi: string, parseTime: string -> Option<int>) returns (r: Parse)
    ensures r == Meaning(lo, hi, parseTime)
    ensures r.Failed? ==> r.error.BadLower? || r.error.BadUpper?
  {
    var loRaw := UnquoteSQLLiteral(lo);
    var hiRaw := UnquoteSQLLiteral(hi);
    var out := Bound(None, None);
    if loRaw != "MINVALUE" {
      var t := parseTime(loRaw);
      if t.None? { return Failed(BadLower); }
      out := out.(lower := t);
    }
    if hiRaw != "MAXVALUE" {
      var t := parseTime(hiRaw);
      if t.None? { return Failed(BadUpper); }
      out := out.(upper := t);
    }
    r := Parsed(out);
  }

  lemma PrintedHasShape(expr: string, lo: string, hi: string)
    ensures Reads(expr, lo, hi) ==> HasPrefix(expr, PREFIX) && HasSuffix(expr, SUFFIX)
  {
  }

  /** The prefix does not end in the suffix, so the inner slice is never inverted. */
  lemma InnerIsInRange(expr: string)
    requires HasPrefix(expr, PREFIX) && HasSuffix(expr, SUFFIX)
    ensures |PREFIX| <= |expr| - |SUFFIX|
  {
    assert expr[..|PREFIX|][|PREFIX| - 1] == '(';
    assert expr[|expr| - 1..][0] == ')';
  }

  lemma InnerOfPrinted(expr: string, inner: string, lo: string, hi: string)
    requires expr == PREFIX + inner + SUFFIX
    ensures Reads(expr, lo, hi) ==> inner == lo + SEPARATOR + hi && Contains(inner, SEPARATOR)
  {
    if Reads(expr, lo, hi) {
      assert inner == expr[|PREFIX|..|expr| - 1];
      assert lo + SEPARATOR + hi == Printed(lo, hi)[|PREFIX|..|expr| - 1];
      assert inner[|lo|..|lo| + 6] == SEPARATOR;
      assert OccursAt(inner, SEPARATOR, |lo|);
    }
  }

  /** Two quoted timestamps mean exactly the two times they denote. */
  lemma QuotedBoundsMean(a: string, b: string, parseTime: string -> Option<int>)
    requires a != "MINVALUE" && b != "MAXVALUE" && parseTime(a).Some? && parseTime(b).Some?
    ensures Meaning(Quoted(a), Quoted(b), parseTime) == Parsed(Bound(parseTime(a), parseTime(b)))
  {
    UnquoteUndoesQuote(a);
    UnquoteUndoesQuote(b);
  }

  lemma {:induction false} PlainIsCollapsed(s: string)
    requires '\'' !in s
    ensures Collapsed(s) == s
  {
    if s != [] {
      PlainIsCollapsed(s[1..]);
      assert s[0] in s;
    }
  }

  /** Text without quotes is not touched. */
  lemma PlainIsUnquoted(s: string)
    requires '\'' !in s
    ensures Unquoted(s) == s
  {
    PlainIsCollapsed(s);
    if s != [] { assert s[0] in s; }
  }

  /** The sentinel words leave their side open, and only their own side. */
  lemma SentinelsAreUnbounded(a: string, b: string, parseTime: string -> Option<int>)
    requires a != "MINVALUE" && b != "MAXVALUE" && parseTime(a).Some? && parseTime(b).Some?
    ensures Meaning("MINVALUE", Quoted(b), parseTime) == Parsed(Bound(None, parseTime(b)))
    ensures Meaning(Quoted(a), "MAXVALUE", parseTime) == Parsed(Bound(parseTime(a), None))
    ensures Meaning("MINVALUE", "MAXVALUE", parseTime) == Parsed(Bound(None, None))
  {
    hide Unquoted, Quoted;
    UnquoteUndoesQuote(a);
    UnquoteUndoesQuote(b);
    PlainIsUnquoted("MINVALUE");
    PlainIsUnquoted("MAXVALUE");
  }

  /** A side that is neither its sentinel nor a timestamp is an error naming that side; the
      lower one is looked at first. */
  lemma BadTimesFail(a: string, b: string, parseTime: string -> Option<int>)
    requires a != "MINVALUE" && b != "MAXVALUE"
    ensures parseTime(a).None? ==> Meaning(Quoted(a), Quoted(b), parseTime) == Failed(BadLower)
    ensures parseTime(a).Some? && parseTime(b).None? ==>
              Meaning(Quoted(a), Quoted(b), parseTime) == Failed(BadUpper)
  {
    hide Unquoted, Quoted;
    UnquoteUndoesQuote(a);
    UnquoteUndoesQuote(b);
  }

  // ----- the catalog listing -----------------------------------------------------------------

  datatype CatalogRow = CatalogRow(name: string, expr: string)
  datatype Partition = Partition(name: string, lower: Option<int>, upper: Option<int>, legacy: bool)

  /** The bound of the row covers the finite range from `l` to `u`. */
  ghost predicate Finite(expr: string, parseTime: string -> Option<int>, l: int, u: int) {
    exists lo, hi :: Reads(expr, lo, hi) && Meaning(lo, hi, parseTime) == Parsed(Bound(Some(l), Some(u)))
  }

  ghost predicate ListedAs(row: CatalogRow, parseTime: string -> Option<int>, p: Partition) {
    && p.name == row.name
    && (!p.legacy <==> !HasSuffix(row.name, "_legacy") && exists l, u :: Finite(row.expr, parseTime, l, u))
    && (!p.legacy ==> p.lower.Some? && p.upper.Some? && Finite(row.expr, parseTime, p.lower.value, p.upper.value))
  }

  /** A partition is left to the sweep exactly when its name is ordinary and its bound
      parses to two finite times; everything else is untouchable. */
  method ListPartitions(rows: seq<CatalogRow>, parseTime: string -> Option<int>) returns (out: seq<Partition>)
    ensures |out| == |rows| && forall i :: 0 <= i < |rows| ==> ListedAs(rows[i], parseTime, out[i])
  {
    out := [];
    for i := 0 to |rows|
      invariant |out| == i && forall k :: 0 <= k < i ==> ListedAs(rows[k], parseTime, out[k])
    {
      var p := Classify(rows[i], parseTime);
      out := out + [p];
    }
  }

  method Classify(row: CatalogRow, parseTime: string -> Option<int>) returns (p: Partition)
    ensures ListedAs(row, parseTime, p)
  {
    var bound := ParsePartitionBound(row.expr, parseTime);
    if bound.Failed? {
      return Partition(row.name, None, None, true);
    }
    ghost var lo, hi :| Reads(row.expr, lo, hi);
    var legacy := HasSuffix(row.name, "_legacy") || bound.bound.lower.None? || bound.bound.upper.None?;
    p := Partition(row.name, bound.bound.lower, bound.bound.upper, legacy);
  }
}
