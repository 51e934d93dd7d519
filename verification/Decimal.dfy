/** Decimal rendering of counters and lengths, as strconv prints them. */
module Decimal {
  import opened Basics

  function Digit(n: nat): (c: char)
    requires n < 10
    ensures IsDigit(c)
  {
    ('0' as int + n) as char
  }

  /** The decimal text of `n`: digits only, never empty. */
  function Render(n: nat): (s: string)
    ensures s != [] && forall i :: 0 <= i < |s| ==> IsDigit(s[i])
    decreases n
  {
    if n < 10 then [Digit(n)] else Render(n / 10) + [Digit(n % 10)]
  }

  function Value(s: string): nat
    requires forall i :: 0 <= i < |s| ==> IsDigit(s[i])
  {
    if s == [] then 0 else Value(s[..|s| - 1]) * 10 + DigitValue(s[|s| - 1])
  }

  lemma {:induction false} RenderRoundTrips(n: nat)
    ensures Value(Render(n)) == n
    decreases n
  {
    var s := Render(n);
    if n < 10 {
      assert s[..0] == [];
    } else {
      RenderRoundTrips(n / 10);
      assert s[..|s| - 1] == Render(n / 10);
    }
  }

  /** Different numbers have different texts. */
  lemma RenderIsInjective(n: nat, m: nat)
    requires Render(n) == Render(m)
    ensures n == m
  {
    RenderRoundTrips(n);
    RenderRoundTrips(m);
  }
}
