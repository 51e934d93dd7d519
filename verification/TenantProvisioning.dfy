/** The load generator's tenant bootstrap: deterministic ids and batched bulk inserts
    with numbered placeholders. */
module TenantProvisioning {
  import opened Basics

  // ----- tenant ids ------------------------------------------------------------------

  const MAX_INDEX: int := 0xFFFF_FFFF_FFFF

  function HexDigit(n: nat): char
    requires n < 16
  {
    if n < 10 then ('0' as int + n) as char else ('a' as int + n - 10) as char
  }

  /** The lowest `width` hexadecimal digits, zero padded. */
  function Hex(n: nat, width: nat): (s: string)
    ensures |s| == width
    decreases width
  {
    if width == 0 then [] else Hex(n / 16, width - 1) + [HexDigit(n % 16)]
  }

  function Pow16(k: nat): nat {
    if k == 0 then 1 else 16 * Pow16(k - 1)
  }

  lemma TwelveDigits()
    ensures Pow16(12) == MAX_INDEX + 1
  {
    assert Pow16(3) == 4096;
    assert Pow16(6) == 4096 * 4096;
    assert Pow16(9) == 4096 * 4096 * 4096;
  }

  lemma {:induction false} HexIsInjective(n: nat, m: nat, width: nat)
    requires n < Pow16(width) && m < Pow16(width) && Hex(n, width) == Hex(m, width)
    ensures n == m
    decreases width
  {
    if width > 0 {
      var a, b := Hex(n, width), Hex(m, width);
      assert a[..width - 1] == Hex(n / 16, width - 1) && b[..width - 1] == Hex(m / 16, width - 1);
      HexIsInjective(n / 16, m / 16, width - 1);
      assert a[width - 1] == HexDigit(n % 16) && b[width - 1] == HexDigit(m % 16);
    }
  }

  predicate IsHexDigit(c: char) {
    '0' <= c <= '9' || 'a' <= c <= 'f'
  }

  function HexDigitValue(c: char): nat
    requires IsHexDigit(c)
  {
    if c <= '9' then c as int - '0' as int else c as int - 'a' as int + 10
  }

  /** The number a text of hexadecimal digits stands for. */
  function HexValue(s: string): nat
    requires forall i :: 0 <= i < |s| ==> IsHexDigit(s[i])
  {
    if s == [] then 0 else 16 * HexValue(s[..|s| - 1]) + HexDigitValue(s[|s| - 1])
  }

  /** The digits are lower-case hexadecimal and read back as the number. */
  lemma {:induction false} HexReadsBack(n: nat, width: nat)
    requires n < Pow16(width)
    ensures forall i :: 0 <= i < width ==> IsHexDigit(Hex(n, width)[i])
    ensures HexValue(Hex(n, width)) == n
    decreases width
  {
    if width > 0 {
      HexReadsBack(n / 16, width - 1);
      assert Hex(n, width)[..width - 1] == Hex(n / 16, width - 1);
    }
  }

  /** Refuses indexes that do not fit the 12-digit slot. */
  function TenantId(prefix: string, index: int): Option<string> {
    if index < 0 || index > MAX_INDEX then None else Some(prefix + Hex(index, 12))
  }

  /** Accepted ids have the length of a UUID behind a 24-character prefix, and different
      indexes have different ids. */
  lemma TenantIdsAreDistinct(prefix: string, i: int, j: int)
    requires TenantId(prefix, i).Some? && TenantId(prefix, j).Some?
    ensures var id := TenantId(prefix, i).value;
            && |id| == |prefix| + 12 && id[..|prefix|] == prefix
            && (forall k :: |prefix| <= k < |id| ==> IsHexDigit(id[k])) && HexValue(id[|prefix|..]) == i
    ensures TenantId(prefix, i) == TenantId(prefix, j) ==> i == j
  {
    TwelveDigits();
    HexReadsBack(i, 12);
    assert TenantId(prefix, i).value[|prefix|..] == Hex(i, 12);
    var a, b := TenantId(prefix, i).value, TenantId(prefix, j).value;
    if a == b {
      assert a[|prefix|..] == Hex(i, 12) && b[|prefix|..] == Hex(j, 12);
      HexIsInjective(i, j, 12);
    }
  }

  // ----- the bulk insert ----------------------------------------------------------------

  const ROWS_PER_BATCH: nat := 2000
  const COLS_PER_ROW: nat := 6
  const MAX_PARAMETERS: nat := 65535

  datatype Tenant = Tenant(index: nat, id: string, name: string)

  /** What every row shares, and how display names are formatted. */
  datatype Columns = Columns(provider: string, domain: string, kmsKey: string, display: nat -> string)

  /** One INSERT: its column names, the placeholder numbers of each row, and the bound
      arguments. */
  datatype Statement = Statement(columns: seq<string>, rows: seq<seq<nat>>, args: seq<string>)

  const INSERT_COLUMNS := ["id", "name", "display_name", "provider", "primary_domain", "kms_key_arn"]

  /** Row `i` uses placeholders 6i+1 .. 6i+6, all of them bound. */
  ghost predicate Numbered(st: Statement, i: nat) {
    && i < |st.rows| && |st.rows[i]| == |st.columns| == COLS_PER_ROW
    && forall k :: 0 <= k < COLS_PER_ROW ==> st.rows[i][k] == COLS_PER_ROW * i + k + 1 <= |st.args|
  }

  /** Row `i` stores `value` in the named column. */
  ghost predicate Stores(st: Statement, i: nat, column: string, value: string) {
    && Numbered(st, i)
    && exists k :: 0 <= k < COLS_PER_ROW && st.columns[k] == column && st.args[st.rows[i][k] - 1] == value
  }

  /** Every column of row `i` takes the tenant's own value. */
  ghost predicate RowBound(st: Statement, i: nat, t: Tenant, c: Columns) {
    && Stores(st, i, "id", t.id) && Stores(st, i, "name", t.name)
    && Stores(st, i, "display_name", c.display(t.index)) && Stores(st, i, "provider", c.provider)
    && Stores(st, i, "primary_domain", c.domain) && Stores(st, i, "kms_key_arn", c.kmsKey)
  }

  /** `st` inserts exactly `batch`: placeholders number the arguments from 1 without a
      gap, each one is bound to its own column, and there are few enough of them. */
  ghost predicate Inserts(st: Statement, batch: seq<Tenant>, c: Columns) {
    && |st.rows| == |batch|
    && |st.args| == COLS_PER_ROW * |batch| <= MAX_PARAMETERS
    && forall i :: 0 <= i < |batch| ==> RowBound(st, i, batch[i], c)
  }

  method BuildStatement(batch: seq<Tenant>, c: Columns) returns (st: Statement)
    requires |batch| <= ROWS_PER_BATCH
    ensures Inserts(st, batch, c)
  {
    st := Statement(INSERT_COLUMNS, [], []);
    for i := 0 to |batch|
      invariant st.columns == INSERT_COLUMNS && |st.rows| == i && |st.args| == COLS_PER_ROW * i
      invariant forall k :: 0 <= k < i ==> RowBound(st, k, batch[k], c)
    {
      hide RowBound;
      var t := batch[i];
      var base := i * COLS_PER_ROW + 1;
      ghost var before := st;
      st := Statement(
        st.columns,
        st.rows + [[base, base + 1, base + 2, base + 3, base + 4, base + 5]],
        st.args + [t.id, t.name, c.display(t.index), c.provider, c.domain, c.kmsKey]);
      LastRowIsBound(before, st, t, c);
      forall k | 0 <= k < i ensures RowBound(st, k, batch[k], c) {
        RowStaysBound(before, st, k, batch[k], c);
      }
    }
  }

  lemma LastRowIsBound(before: Statement, after: Statement, t: Tenant, c: Columns)
    requires before.columns == after.columns == INSERT_COLUMNS && |before.args| == COLS_PER_ROW * |before.rows|
    requires var base := |before.rows| * COLS_PER_ROW + 1;
             after.rows == before.rows + [[base, base + 1, base + 2, base + 3, base + 4, base + 5]]
    requires after.args == before.args + [t.id, t.name, c.display(t.index), c.provider, c.domain, c.kmsKey]
    ensures RowBound(after, |before.rows|, t, c)
  {
    var i, n := |before.rows|, |before.args|;
    assert after.args[n] == t.id && after.args[n + 1] == t.name && after.args[n + 2] == c.display(t.index);
    assert after.args[n + 3] == c.provider && after.args[n + 4] == c.domain && after.args[n + 5] == c.kmsKey;
    assert after.columns[0] == "id" && after.columns[1] == "name" && after.columns[2] == "display_name";
    assert after.columns[3] == "provider" && after.columns[4] == "primary_domain";
    assert after.columns[5] == "kms_key_arn";
  }

  lemma StaysStored(before: Statement, after: Statement, i: nat, column: string, value: string)
    requires Stores(before, i, column, value)
    requires before.columns == after.columns && before.rows <= after.rows && before.args <= after.args
    ensures Stores(after, i, column, value)
  {
    assert after.rows[i] == before.rows[i];
    var k :| 0 <= k < COLS_PER_ROW && before.columns[k] == column && before.args[before.rows[i][k] - 1] == value;
    assert after.args[after.rows[i][k] - 1] == value;
  }

  lemma RowStaysBound(before: Statement, after: Statement, i: nat, t: Tenant, c: Columns)
    requires RowBound(before, i, t, c)
    requires before.columns == after.columns && before.rows <= after.rows && before.args <= after.args
    ensures RowBound(after, i, t, c)
  {
    hide Stores;
    StaysStored(before, after, i, "id", t.id);
    StaysStored(before, after, i, "name", t.name);
    StaysStored(before, after, i, "display_name", c.display(t.index));
    StaysStored(before, after, i, "provider", c.provider);
    StaysStored(before, after, i, "primary_domain", c.domain);
    StaysStored(before, after, i, "kms_key_arn", c.kmsKey);
  }

  function Concat(batches: seq<seq<Tenant>>): seq<Tenant> {
    if batches == [] then [] else Concat(batches[..|batches| - 1]) + batches[|batches| - 1]
  }

  /** The tenant list, refused as a whole when an index does not fit its slot. */
  method BuildTenants(count: int, prefix: string, nameOf: nat -> string) returns (r: Option<seq<Tenant>>)
    ensures r.Some? <==> count <= MAX_INDEX + 1
    ensures r.Some? ==>
              && |r.value| == (if count > 0 then count else 0)
              && forall i :: 0 <= i < |r.value| ==> r.value[i] == Tenant(i, prefix + Hex(i, 12), nameOf(i))
  {
    hide Hex;
    var all: seq<Tenant> := [];
    var i := 0;
    while i < count
      invariant 0 <= i && |all| == i && (i <= count || i == 0) && i <= MAX_INDEX + 1
      invariant forall k :: 0 <= k < i ==> all[k] == Tenant(k, prefix + Hex(k, 12), nameOf(k))
    {
      var tid := TenantId(prefix, i);
      if tid.None? {
        return None;
      }
      all := all + [Tenant(i, tid.value, nameOf(i))];
      i := i + 1;
    }
    r := Some(all);
  }

  /** Builds every tenant, then inserts them batch by batch; `failsAt` is the batch the
      database rejects, if any. */
  method ProvisionTenants(count: int, prefix: string, nameOf: nat -> string, c: Columns, failsAt: Option<nat>)
    returns (tenants: Option<seq<Tenant>>, executed: seq<Statement>, ghost batches: seq<seq<Tenant>>)
    ensures count > MAX_INDEX + 1 ==> tenants.None? && executed == []
    ensures tenants.Some? ==>
              && |tenants.value| == (if count > 0 then count else 0)
              && (forall i :: 0 <= i < |tenants.value| ==>
                    tenants.value[i] == Tenant(i, prefix + Hex(i, 12), nameOf(i)))
              && Concat(batches) == tenants.value
    ensures |batches| == |executed| && forall i :: 0 <= i < |executed| ==> Inserts(executed[i], batches[i], c)
    ensures forall i :: 0 <= i < |batches| ==> 0 < |batches[i]| <= 2000
    ensures failsAt.None? && count <= MAX_INDEX + 1 ==> tenants.Some?
  {
    hide Inserts, Hex;
    executed, batches := [], [];
    var built := BuildTenants(count, prefix, nameOf);
    if built.None? {
      return None, [], [];
    }
    var all := built.value;
    var start := 0;
    while start < |all|
      invariant 0 <= start <= |all|
      invariant Concat(batches) == all[..start] && |batches| == |executed|
      invariant forall k :: 0 <= k < |executed| ==> Inserts(executed[k], batches[k], c)
      invariant forall k :: 0 <= k < |batches| ==> 0 < |batches[k]| <= ROWS_PER_BATCH
    {
      var end := start + ROWS_PER_BATCH;
      if end > |all| {
        end := |all|;
      }
      if failsAt == Some(|executed|) {
        return None, executed, batches;
      }
      var st := BuildStatement(all[start..end], c);
      executed := executed + [st];
      ghost var longer := batches + [all[start..end]];
      assert longer[..|batches|] == batches && all[..end] == all[..start] + all[start..end];
      batches := longer;
      start := end;
    }
    assert all[..start] == all;
    tenants := Some(all);
  }
}
