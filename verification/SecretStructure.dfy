/** The structural half of the weak-secret detector: long +1 runs and exact tilings. */
module SecretStructure {
  import opened Division

  /** The characters from `i` to `j` (exclusive) each step up by one. */
  ghost predicate Climbs(s: string, i: int, j: int) {
    0 <= i < j <= |s| && forall k :: i < k < j ==> s[k] as int - s[k - 1] as int == 1
  }

  /** The length of the longest climbing segment. */
  method LongestRun(s: string) returns (maxRun: nat)
    requires s != []
    ensures exists i, j :: Climbs(s, i, j) && j - i == maxRun
    ensures forall i, j :: Climbs(s, i, j) ==> j - i <= maxRun
  {
    var run := 1;
    maxRun := 1;
    var i := 1;
    assert Climbs(s, 0, 1);
    while i < |s|
      invariant 1 <= run <= i <= |s| && run <= maxRun
      invariant Climbs(s, i - run, i) && (i - run > 0 ==> s[i - run] as int - s[i - run - 1] as int != 1)
      invariant exists a, b :: Climbs(s, a, b) && b - a == maxRun
      invariant forall a, b :: Climbs(s, a, b) && b <= i ==> b - a <= maxRun
    {
      ghost var start := i - run;
      if s[i] as int - s[i - 1] as int == 1 {
        run := run + 1;
        if run > maxRun {
          maxRun := run;
        }
      } else {
        run := 1;
      }
      i := i + 1;
      assert Climbs(s, i - run, i);
      // a longer segment ending here would step over the break before this run
      assert forall x :: 0 <= x < i - run ==> !Climbs(s, x, i);
    }
  }

  function Repeat(u: string, k: nat): string {
    if k == 0 then [] else u + Repeat(u, k - 1)
  }

  /** `s` is a block of at least two characters written at least twice. */
  ghost predicate IsTiled(s: string) {
    exists u, k: nat :: |u| >= 2 && k >= 2 && s == Repeat(u, k)
  }

  ghost predicate Periodic(s: string, p: nat) {
    0 < p <= |s| && |s| % p == 0 && forall i :: p <= i < |s| ==> s[i] == s[i % p]
  }

  method HasPeriod(s: string, period: nat) returns (repeats: bool)
    requires 0 < period <= |s| && |s| % period == 0
    ensures repeats <==> Periodic(s, period)
  {
    repeats := true;
    for i := period to |s|
      invariant repeats && forall k :: period <= k < i ==> s[k] == s[k % period]
    {
      if s[i] != s[i % period] {
        return false;
      }
    }
  }

  method RepeatsExactly(s: string) returns (tiled: bool)
    ensures tiled <==> IsTiled(s)
  {
    var period := 2;
    while period <= |s| / 2
      invariant 2 <= period && forall p :: 2 <= p < period ==> !Periodic(s, p)
    {
      if |s| % period == 0 {
        var repeats := HasPeriod(s, period);
        if repeats {
          PeriodicIsTiled(s, period);
          return true;
        }
      }
      period := period + 1;
    }
    if IsTiled(s) {
      TiledHasPeriod(s);
    }
    tiled := false;
  }

  lemma {:induction false} RepeatAt(u: string, k: nat, i: nat)
    requires u != []
    ensures |Repeat(u, k)| == k * |u|
    ensures i < |Repeat(u, k)| ==> Repeat(u, k)[i] == u[i % |u|]
  {
    if k > 0 {
      RepeatAt(u, k - 1, if i < |u| then 0 else i - |u|);
      assert k * |u| == |u| + (k - 1) * |u|;
      if i >= |u| { ModShift(i, |u|); } else { QuotientIsUnique(0, |u|, i); }
    }
  }

  lemma ModShift(i: nat, n: nat)
    requires 0 < n <= i
    ensures (i - n) % n == i % n
  {
    var q, r := (i - n) / n, (i - n) % n;
    assert i == (q + 1) * n + r;
    QuotientIsUnique(q + 1, n, r);
  }

  lemma PeriodicIsTiled(s: string, p: nat)
    requires Periodic(s, p) && 2 <= p <= |s| / 2
    ensures IsTiled(s)
  {
    var u, k := s[..p], |s| / p;
    assert |s| == k * p;
    RepeatAt(u, k, 0);
    forall i | 0 <= i < |s| ensures s[i] == Repeat(u, k)[i] {
      RepeatAt(u, k, i);
      if i < p { QuotientIsUnique(0, p, i); }
    }
    assert s == Repeat(u, k);
    MultiplesGrow(2 - k, p);
  }

  lemma TiledHasPeriod(s: string)
    requires IsTiled(s)
    ensures exists p :: 2 <= p <= |s| / 2 && Periodic(s, p)
  {
    var u, k: nat :| |u| >= 2 && k >= 2 && s == Repeat(u, k);
    var p := |u|;
    RepeatAt(u, k, 0);
    assert k * p >= 2 * p;
    QuotientIsUnique(k, p, 0);
    forall i | p <= i < |s| ensures s[i] == s[i % p] {
      RepeatAt(u, k, i);
      RepeatAt(u, k, i % p);
      QuotientIsUnique(0, p, i % p);
    }
    assert Periodic(s, p);
  }

  /** The detector, given the verdict of its entropy test: a nonempty secret is weak when
      its entropy is low, when a climbing run covers at least half of it, rounded up, or
      when it is a repeated block. */
  method IsLowEntropy(s: string, lowShannon: bool) returns (weak: bool)
    ensures weak <==> (s != [] && (lowShannon || IsTiled(s) || exists i, j :: Climbs(s, i, j) && 2 * (j - i) >= |s|))
  {
    if s == [] {
      return false;
    }
    if lowShannon {
      return true;
    }
    var threshold := (|s| + 1) / 2;
    var maxRun := LongestRun(s);
    if maxRun >= threshold {
      return true;
    }
    weak := RepeatsExactly(s);
  }
}
