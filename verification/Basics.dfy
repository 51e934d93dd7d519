/** Small definitions shared by the other modules. */
module Basics {

  datatype Option<T> = None | Some(value: T)

  predicate IsDigit(c: char) {
    '0' <= c <= '9'
  }

  function DigitValue(c: char): nat
    requires IsDigit(c)
  {
    c as int - '0' as int
  }

  predicate HasPrefix(s: string, prefix: string) {
    |s| >= |prefix| && s[..|prefix|] == prefix
  }

  predicate HasSuffix(s: string, suffix: string) {
    |s| >= |suffix| && s[|s| - |suffix|..] == suffix
  }

  /** Every single quote doubled, as SQL string literals escape it. */
  function Doubled(s: string): string {
    if s == [] then [] else (if s[0] == '\'' then ['\'', '\''] else [s[0]]) + Doubled(s[1..])
  }

  /** Splitting at the first separator recovers both parts when the left one has none. */
  lemma SplitsAtFirst(sep: char, a: string, x: string, b: string, y: string)
    requires sep !in a && sep !in b
    requires a + [sep] + x == b + [sep] + y
    ensures a == b && x == y
  {
    var s, t := a + [sep] + x, b + [sep] + y;
    assert |a| == |b| by {
      assert s[|a|] == sep && forall i :: 0 <= i < |a| ==> s[i] != sep;
      assert t[|b|] == sep && forall i :: 0 <= i < |b| ==> t[i] != sep;
    }
    assert a == s[..|a|] && b == t[..|b|];
    assert x == s[|a| + 1..] && y == t[|b| + 1..];
  }

  /** Splitting at the last separator recovers both parts when the right one has none. */
  lemma SplitsAtLast(sep: char, a: string, x: string, b: string, y: string)
    requires sep !in x && sep !in y
    requires a + [sep] + x == b + [sep] + y
    ensures a == b && x == y
  {
    var s, t := a + [sep] + x, b + [sep] + y;
    assert |a| == |b| by {
      assert s[|a|] == sep && forall i :: |a| < i < |s| ==> s[i] == x[i - |a| - 1];
      assert t[|b|] == sep && forall i :: |b| < i < |t| ==> t[i] == y[i - |b| - 1];
    }
    assert a == s[..|a|] && b == t[..|b|];
    assert x == s[|a| + 1..] && y == t[|b| + 1..];
  }
}
