/** The migration directory check: file names, version sequence, up/down pairs and a
    sanity sniff of each file. */
module MigrationCheck {
  import opened Basics
  import opened SqlNoise

  // ----- file names --------------------------------------------------------------

  datatype Direction = Up | Down

  /** The parts of `{version}_{name}.{up|down}.sql`. */
  datatype Migration = Migration(version: nat, name: string, direction: Direction)

  predicate IsNameChar(c: char) { 'a' <= c <= 'z' || IsDigit(c) || c == '_' }

  predicate IsName(s: string) {
    s != [] && forall i :: 0 <= i < |s| ==> IsNameChar(s[i])
  }

  function Suffix(d: Direction): string {
    match d case Up => ".up.sql" case Down => ".down.sql"
  }

  function DigitChar(n: nat): char
    requires n < 10
  {
    ('0' as int + n) as char
  }

  predicate IsVersion(s: string) {
    |s| == 4 && forall i :: 0 <= i < 4 ==> IsDigit(s[i])
  }

  function VersionValue(s: string): nat
    requires IsVersion(s)
  {
    10 * (10 * (10 * DigitValue(s[0]) + DigitValue(s[1])) + DigitValue(s[2])) + DigitValue(s[3])
  }

  function VersionText(v: nat): (s: string)
    requires v < 10000
    ensures IsVersion(s)
  {
    var v3 := v / 10;
    var v2 := v3 / 10;
    [DigitChar(v2 / 10), DigitChar(v2 % 10), DigitChar(v3 % 10), DigitChar(v % 10)]
  }

  lemma VersionRoundTrips(v: nat)
    requires v < 10000
    ensures VersionValue(VersionText(v)) == v
  {
  }

  lemma VersionTextRoundTrips(s: string)
    requires IsVersion(s)
    ensures VersionValue(s) < 10000 && VersionText(VersionValue(s)) == s
  {
    var a, b, c, d := DigitValue(s[0]), DigitValue(s[1]), DigitValue(s[2]), DigitValue(s[3]);
    Shift(a, b);
    Shift(10 * a + b, c);
    Shift(10 * (10 * a + b) + c, d);
  }

  lemma Shift(q: nat, r: nat)
    requires r < 10
    ensures (10 * q + r) / 10 == q && (10 * q + r) % 10 == r
  {
  }

  function ParseWith(s: string, d: Direction): Option<Migration> {
    var tail := |Suffix(d)|;
    if |s| < 5 + tail || !IsVersion(s[..4]) || s[4] != '_' || s[|s| - tail..] != Suffix(d) then None
    else
      var name := s[5..|s| - tail];
      if IsName(name) then Some(Migration(VersionValue(s[..4]), name, d)) else None
  }

  /** Matches the whole name against the naming convention. */
  function ParseName(s: string): Option<Migration> {
    if ParseWith(s, Up).Some? then ParseWith(s, Up) else ParseWith(s, Down)
  }

  predicate Printable(m: Migration) {
    m.version < 10000 && IsName(m.name)
  }

  function Print(m: Migration): string
    requires m.version < 10000
  {
    VersionText(m.version) + "_" + m.name + Suffix(m.direction)
  }

  lemma DownIsNotUp(s: string)
    requires HasSuffix(s, ".down.sql")
    ensures ParseWith(s, Up).None?
  {
    assert s[|s| - 9..][3] == s[|s| - 6] == 'w';
    assert |s| >= 7 && s[|s| - 7..][1] == s[|s| - 6];
    assert Suffix(Up)[1] == 'u';
  }

  lemma PrintThenParseWith(m: Migration)
    requires Printable(m)
    ensures ParseWith(Print(m), m.direction) == Some(m)
  {
    hide VersionValue, VersionText, IsNameChar, Suffix;
    var s := Print(m);
    VersionRoundTrips(m.version);
    assert s[..4] == VersionText(m.version) && s[4] == '_';
    assert s[|s| - |Suffix(m.direction)|..] == Suffix(m.direction);
    assert s[5..|s| - |Suffix(m.direction)|] == m.name;
  }

  /** A printed migration parses back to itself. */
  lemma PrintThenParse(m: Migration)
    requires Printable(m)
    ensures ParseName(Print(m)) == Some(m)
  {
    hide VersionValue, VersionText, IsNameChar, ParseWith;
    PrintThenParseWith(m);
    if m.direction.Down? {
      var s := Print(m);
      assert s[|s| - 9..] == ".down.sql";
      DownIsNotUp(s);
    }
  }

  /** Only printed migrations parse: the accepted names are exactly the convention. */
  lemma ParseThenPrint(s: string)
    requires ParseName(s).Some?
    ensures Printable(ParseName(s).value) && Print(ParseName(s).value) == s
  {
    hide VersionValue, VersionText, IsNameChar, Suffix;
    var m := ParseName(s).value;
    var tail := |Suffix(m.direction)|;
    VersionTextRoundTrips(s[..4]);
    assert s == s[..4] + [s[4]] + s[5..|s| - tail] + s[|s| - tail..];
  }

  /** What a conventional name looks like: four decimal digits of the version, an
      underscore, the name, and the direction's ending. */
  lemma PrintedName(m: Migration)
    requires Printable(m)
    ensures var s := Print(m);
            var ending := if m.direction == Up then ".up.sql" else ".down.sql";
            && |s| == 5 + |m.name| + |ending| && IsVersion(s[..4])
            && 1000 * DigitValue(s[0]) + 100 * DigitValue(s[1]) + 10 * DigitValue(s[2]) + DigitValue(s[3]) == m.version
            && s[4] == '_' && s[5..5 + |m.name|] == m.name && s[5 + |m.name|..] == ending
  {
    hide VersionText;
    var s, v := Print(m), VersionText(m.version);
    VersionRoundTrips(m.version);
    assert s[..4] == v && s[0] == v[0] && s[1] == v[1] && s[2] == v[2] && s[3] == v[3];
  }

  // ----- file contents -----------------------------------------------------------------

  predicate IsSpace(c: char) {
    c == ' ' || c == '\t' || c == '\n' || c == '\r' || c == '\U{0B}' || c == '\U{0C}'
  }

  function TrimLeft(s: string): string {
    if s != [] && IsSpace(s[0]) then TrimLeft(s[1..]) else s
  }

  function TrimRight(s: string): string {
    if s != [] && IsSpace(s[|s| - 1]) then TrimRight(s[..|s| - 1]) else s
  }

  function Trim(s: string): string {
    TrimRight(TrimLeft(s))
  }

  function UpperChar(c: char): char {
    if 'a' <= c <= 'z' then (c as int - 'a' as int + 'A' as int) as char else c
  }

  function Upper(s: string): string {
    seq(|s|, i requires 0 <= i < |s| => UpperChar(s[i]))
  }

  /** Occurrences of `sub`, scanning left to right without overlap. */
  function Count(s: string, sub: string): nat
    requires sub != []
    decreases |s|
  {
    if |s| < |sub| then 0
    else if s[..|sub|] == sub then 1 + Count(s[|sub|..], sub)
    else Count(s[1..], sub)
  }

  /** A readable, nonempty file that ends in `;` and balances BEGIN and COMMIT outside
      comments and literals. */
  predicate Sane(read: Option<string>) {
    read.Some? &&
    var text := Trim(read.value);
    && text != []
    && Count(Upper(Stripped(text)), "BEGIN;") == Count(Upper(Stripped(text)), "COMMIT;")
    && text[|text| - 1] == ';'
  }

  method SanityCheckSQL(read: Option<string>) returns (ok: bool)
    ensures ok <==> Sane(read)
  {
    if read.None? {
      return false;
    }
    var text := Trim(read.value);
    if text == [] {
      return false;
    }
    var stripped := StripSQLNoise(text);
    var upper := Upper(stripped);
    if Count(upper, "BEGIN;") != Count(upper, "COMMIT;") {
      return false;
    }
    ok := text[|text| - 1] == ';';
  }

  // ----- what the sanity check does not depend on ----------------------------------------

  predicate AllSpace(s: string) {
    forall i :: 0 <= i < |s| ==> IsSpace(s[i])
  }

  lemma {:induction false} TrimLeftSkips(pre: string, s: string)
    requires AllSpace(pre)
    ensures TrimLeft(pre + s) == TrimLeft(s)
  {
    if pre == [] {
      assert pre + s == s;
    } else {
      TrimLeftSkips(pre[1..], s);
      assert (pre + s)[1..] == pre[1..] + s;
    }
  }

  lemma {:induction false} TrimRightSkips(s: string, post: string)
    requires AllSpace(post)
    ensures TrimRight(s + post) == TrimRight(s)
  {
    if post == [] {
      assert s + post == s;
    } else {
      var n := |post| - 1;
      TrimRightSkips(s, post[..n]);
      var t := s + post;
      assert t[..|t| - 1] == s + post[..n] && t[|t| - 1] == post[n];
    }
  }

  lemma {:induction false} TrimLeftStops(s: string, post: string)
    requires !AllSpace(s)
    ensures TrimLeft(s + post) == TrimLeft(s) + post
  {
    if IsSpace(s[0]) {
      TrimLeftStops(s[1..], post);
      assert (s + post)[1..] == s[1..] + post;
    }
  }

  /** Surrounding white space is cut off, all of it. */
  lemma TrimAbsorbs(pre: string, s: string, post: string)
    requires AllSpace(pre) && AllSpace(post)
    ensures Trim(pre + s + post) == Trim(s)
  {
    hide TrimLeft, TrimRight, IsSpace;
    assert pre + s + post == pre + (s + post);
    TrimLeftSkips(pre, s + post);
    if AllSpace(s) {
      BlankIsTrimmed(s + post);
      BlankIsTrimmed(s);
    } else {
      TrimLeftStops(s, post);
      TrimRightSkips(TrimLeft(s), post);
    }
  }

  lemma BlankIsTrimmed(s: string)
    requires AllSpace(s)
    ensures TrimLeft(s) == [] && Trim(s) == []
  {
    TrimLeftSkips(s, []);
    assert s + [] == s;
  }

  /** And nothing else is. */
  lemma TightIsUntouched(s: string)
    requires s != [] ==> !IsSpace(s[0]) && !IsSpace(s[|s| - 1])
    ensures Trim(s) == s
  {
  }

  /** The number of positions at which `sub` occurs. */
  function Occurrences(s: string, sub: string): nat {
    if |s| < |sub| || s == [] then 0 else (if s[..|sub|] == sub then 1 else 0) + Occurrences(s[1..], sub)
  }

  lemma {:induction false} NoOccurrenceInside(s: string, sub: string, k: nat)
    requires |sub| <= |s| && s[..|sub|] == sub && sub != [] && sub[0] !in sub[1..] && 1 <= k <= |sub|
    ensures Occurrences(s[k..], sub) == Occurrences(s[|sub|..], sub)
    decreases |sub| - k
  {
    if k < |sub| {
      NoOccurrenceInside(s, sub, k + 1);
      assert s[k] == sub[k] == sub[1..][k - 1];
      assert s[k..][1..] == s[k + 1..];
      if |s[k..]| >= |sub| { assert s[k..][..|sub|][0] == s[k]; }
    }
  }

  /** Scanning without overlap misses no occurrence of a word that starts with a letter it
      does not repeat. */
  lemma {:induction false} CountIsOccurrences(s: string, sub: string)
    requires sub != [] && sub[0] !in sub[1..]
    ensures Count(s, sub) == Occurrences(s, sub)
    decreases |s|
  {
    if |s| >= |sub| {
      if s[..|sub|] == sub {
        CountIsOccurrences(s[|sub|..], sub);
        NoOccurrenceInside(s, sub, 1);
      } else {
        CountIsOccurrences(s[1..], sub);
      }
    }
  }

  /** Both keywords are counted at every position they occur. */
  lemma KeywordsAreCounted(s: string)
    ensures Count(s, "BEGIN;") == Occurrences(s, "BEGIN;") && Count(s, "COMMIT;") == Occurrences(s, "COMMIT;")
  {
    CountIsOccurrences(s, "BEGIN;");
    CountIsOccurrences(s, "COMMIT;");
  }

  /** Whatever white space surrounds it, a text is sane exactly when it is there, ends in
      a semicolon and has, outside comments and literals and in either case, as many BEGIN;
      as COMMIT;. An unreadable file never is. */
  lemma SaneIsExact(pre: string, text: string, post: string)
    requires AllSpace(pre) && AllSpace(post)
    requires text != [] ==> !IsSpace(text[0]) && !IsSpace(text[|text| - 1])
    ensures Sane(Some(pre + text + post)) <==>
              && text != [] && text[|text| - 1] == ';'
              && Occurrences(Upper(Stripped(text)), "BEGIN;") == Occurrences(Upper(Stripped(text)), "COMMIT;")
    ensures !Sane(None)
  {
    hide Count, Occurrences, Stripped, Upper, Trim;
    TrimAbsorbs(pre, text, post);
    TightIsUntouched(text);
    KeywordsAreCounted(Upper(Stripped(text)));
  }

  /** The same letter in the other case. */
  predicate OtherCase(a: char, b: char) {
    || ('a' <= a <= 'z' && 'A' <= b <= 'Z' && a as int - 'a' as int == b as int - 'A' as int)
    || ('A' <= a <= 'Z' && 'a' <= b <= 'z' && a as int - 'A' as int == b as int - 'a' as int)
  }

  predicate SameLetter(a: char, b: char) {
    a == b || OtherCase(a, b)
  }

  predicate SameUpToCase(s: string, t: string) {
    |s| == |t| && forall i :: 0 <= i < |s| ==> SameLetter(s[i], t[i])
  }

  lemma {:induction false} TrimIgnoresCase(s: string, t: string)
    requires SameUpToCase(s, t)
    ensures SameUpToCase(TrimLeft(s), TrimLeft(t)) && SameUpToCase(TrimRight(s), TrimRight(t))
    decreases |s|
  {
    if s != [] {
      TrimIgnoresCase(s[1..], t[1..]);
      TrimIgnoresCase(s[..|s| - 1], t[..|t| - 1]);
      assert SameLetter(s[0], t[0]) && SameLetter(s[|s| - 1], t[|t| - 1]);
    }
  }

  lemma MoveIgnoresCase(s: string, t: string, mode: Mode)
    requires SameUpToCase(s, t) && s != []
    ensures MoveAt(s, mode).skip == MoveAt(t, mode).skip && MoveAt(s, mode).next == MoveAt(t, mode).next
    ensures SameUpToCase(MoveAt(s, mode).emit, MoveAt(t, mode).emit)
  {
    assert SameLetter(s[0], t[0]);
    if |s| >= 2 { assert SameLetter(s[1], t[1]); }
  }

  lemma {:induction false} RestIgnoresCase(s: string, t: string, mode: Mode)
    requires SameUpToCase(s, t)
    ensures SameUpToCase(Rest(s, mode), Rest(t, mode))
    decreases |s|
  {
    if s != [] {
      hide MoveAt, SameLetter;
      MoveIgnoresCase(s, t, mode);
      var m := MoveAt(s, mode);
      RestIgnoresCase(s[m.skip..], t[m.skip..], m.next);
      CaseOfConcat(m.emit, MoveAt(t, mode).emit, Rest(s[m.skip..], m.next), Rest(t[m.skip..], m.next));
    }
  }

  lemma CaseOfConcat(a: string, b: string, c: string, d: string)
    requires SameUpToCase(a, b) && SameUpToCase(c, d)
    ensures SameUpToCase(a + c, b + d)
  {
  }

  lemma UpperIgnoresCase(s: string, t: string)
    requires SameUpToCase(s, t)
    ensures Upper(s) == Upper(t)
  {
    forall i | 0 <= i < |s| ensures UpperChar(s[i]) == UpperChar(t[i]) {
      assert SameLetter(s[i], t[i]);
    }
  }

  /** The verdict does not depend on the case of ASCII letters. */
  lemma CaseDoesNotMatter(s: string, t: string)
    requires SameUpToCase(s, t)
    ensures Sane(Some(s)) <==> Sane(Some(t))
  {
    hide Count, Upper, Stripped, TrimLeft, TrimRight, Rest;
    TrimIgnoresCase(s, t);
    TrimIgnoresCase(TrimLeft(s), TrimLeft(t));
    var a, b := Trim(s), Trim(t);
    RestIsStripped(a);
    RestIsStripped(b);
    RestIgnoresCase(a, b, InCode);
    UpperIgnoresCase(Stripped(a), Stripped(b));
    if a != [] { assert SameLetter(a[|a| - 1], b[|b| - 1]); }
  }

  /** Nor on surrounding white space. */
  lemma WhiteSpaceDoesNotMatter(pre: string, s: string, post: string)
    requires AllSpace(pre) && AllSpace(post)
    ensures Sane(Some(pre + s + post)) <==> Sane(Some(s))
  {
    TrimAbsorbs(pre, s, post);
  }

  // ----- the directory -----------------------------------------------------------------

  datatype Entry = Entry(name: string, isDir: bool)

  predicate IsFile(e: Entry) {
    !e.isDir && HasSuffix(e.name, ".sql")
  }

  /** The migration an entry stands for, if it is a well-named file. */
  function ParseOf(e: Entry): Option<Migration> {
    if IsFile(e) then ParseName(e.name) else None
  }

  predicate Is(e: Entry, v: nat, d: Direction) {
    ParseOf(e).Some? && ParseOf(e).value.version == v && ParseOf(e).value.direction == d
  }

  ghost predicate HasVersion(m: multiset<Entry>, v: nat) {
    exists e :: e in m && ParseOf(e).Some? && ParseOf(e).value.version == v
  }

  /** The versions are exactly 1..n. */
  ghost predicate Contiguous(m: multiset<Entry>, n: nat) {
    forall v: nat :: HasVersion(m, v) <==> 1 <= v <= n
  }

  /** Every file name is well formed. */
  ghost predicate WellNamed(m: multiset<Entry>) {
    forall e :: e in m && IsFile(e) ==> ParseOf(e).Some?
  }

  /** Files of one version carry one name. */
  ghost predicate OneNamePerVersion(m: multiset<Entry>) {
    forall e, f :: e in m && f in m && ParseOf(e).Some? && ParseOf(f).Some?
                   && ParseOf(e).value.version == ParseOf(f).value.version
                   ==> ParseOf(e).value.name == ParseOf(f).value.name
  }

  /** There is exactly one file for a version and direction. */
  ghost predicate ExactlyOne(m: multiset<Entry>, v: nat, d: Direction) {
    exists e :: e in m && m[e] == 1 && Is(e, v, d) && forall f :: f in m && Is(f, v, d) ==> f == e
  }

  /** What the check accepts; it depends on the multiset of entries alone. */
  ghost predicate Accepts(m: multiset<Entry>, read: string -> Option<string>) {
    && WellNamed(m)
    && (exists n: nat :: n >= 1 && Contiguous(m, n))
    && (forall v :: HasVersion(m, v) ==> ExactlyOne(m, v, Up) && ExactlyOne(m, v, Down))
    && OneNamePerVersion(m)
    && (forall e :: e in m && IsFile(e) ==> Sane(read(e.name)))
  }

  // ----- the collecting loop -----------------------------------------------------------

  datatype Pair = Pair(up: string, down: string)

  function Slot(p: Pair, d: Direction): string {
    match d case Up => p.up case Down => p.down
  }

  function Fill(p: Pair, d: Direction, name: string): Pair {
    match d case Up => p.(up := name) case Down => p.(down := name)
  }

  /** Well named, no file twice, one name per version. */
  ghost predicate GoodSoFar(m: multiset<Entry>) {
    && WellNamed(m)
    && (forall e :: e in m && ParseOf(e).Some? ==> m[e] == 1)
    && OneNamePerVersion(m)
  }

  /** The tables know this file. */
  ghost predicate Known(e: Entry, versions: map<nat, Pair>, names: map<nat, string>) {
    ParseOf(e).Some? ==>
      var mig := ParseOf(e).value;
      && mig.version in versions && mig.version in names
      && Slot(versions[mig.version], mig.direction) == e.name && names[mig.version] == mig.name
  }

  /** A filled slot comes from a file of the listing. */
  ghost predicate Filled(m: multiset<Entry>, v: nat, d: Direction) {
    exists e :: e in m && Is(e, v, d)
  }

  /** The tables hold exactly the files seen. */
  ghost predicate Agrees(m: multiset<Entry>, versions: map<nat, Pair>, names: map<nat, string>) {
    && versions.Keys == names.Keys
    && (forall e :: e in m ==> Known(e, versions, names))
    && (forall v :: v in versions ==> HasVersion(m, v))
    && (forall v, d :: v in versions && Slot(versions[v], d) != "" ==> Filled(m, v, d))
  }

  lemma ParseIsInjective(e: Entry, f: Entry)
    requires ParseOf(e).Some? && ParseOf(e) == ParseOf(f)
    ensures e == f
  {
    ParseThenPrint(e.name);
    ParseThenPrint(f.name);
  }

  lemma FileIsNamed(e: Entry)
    requires ParseOf(e).Some?
    ensures e.name != "" && IsFile(e)
  {
  }

  lemma GoodBefore(m: multiset<Entry>, e: Entry)
    requires GoodSoFar(m + multiset{e})
    ensures GoodSoFar(m)
  {
    hide ParseOf;
    var n := m + multiset{e};
    assert forall x :: x in m ==> x in n && m[x] <= n[x];
  }

  lemma SkipKeepsGood(m: multiset<Entry>, versions: map<nat, Pair>, names: map<nat, string>, e: Entry)
    requires GoodSoFar(m) && Agrees(m, versions, names) && !IsFile(e)
    ensures GoodSoFar(m + multiset{e}) && Agrees(m + multiset{e}, versions, names)
  {
    assert ParseOf(e).None?;
    hide ParseOf, Filled, Slot, HasVersion, IsFile, OneNamePerVersion, GoodSoFar;
    var n := m + multiset{e};
    SkipIsGood(m, e);
    forall x | x in n ensures Known(x, versions, names) {
      assert x == e || x in m;
    }
    GrownHasAll(m, e);
  }

  lemma SkipIsGood(m: multiset<Entry>, e: Entry)
    requires GoodSoFar(m) && !IsFile(e)
    ensures GoodSoFar(m + multiset{e})
  {
    assert ParseOf(e).None?;
    hide ParseOf, IsFile, OneNamePerVersion;
    assert forall x :: x in m + multiset{e} && x != e ==> x in m && (m + multiset{e})[x] == m[x];
    SkipKeepsNames(m, e);
  }

  lemma SkipKeepsNames(m: multiset<Entry>, e: Entry)
    requires OneNamePerVersion(m) && ParseOf(e).None?
    ensures OneNamePerVersion(m + multiset{e})
  {
    hide ParseOf;
    assert forall x :: x in m + multiset{e} && x != e ==> x in m;
  }

  lemma GrownHasAll(m: multiset<Entry>, e: Entry)
    ensures forall v :: HasVersion(m, v) ==> HasVersion(m + multiset{e}, v)
    ensures forall v, d :: Filled(m, v, d) ==> Filled(m + multiset{e}, v, d)
  {
    hide ParseOf, Is;
    var n := m + multiset{e};
    forall v | HasVersion(m, v) ensures HasVersion(n, v) {
      var x :| x in m && ParseOf(x).Some? && ParseOf(x).value.version == v;
      assert x in n;
    }
    forall v, d | Filled(m, v, d) ensures Filled(n, v, d) {
      var x :| x in m && Is(x, v, d);
      assert x in n;
    }
  }

  lemma ConflictSpoils(m: multiset<Entry>, versions: map<nat, Pair>, names: map<nat, string>, e: Entry)
    requires Agrees(m, versions, names) && ParseOf(e).Some?
    requires var mig := ParseOf(e).value; mig.version in names && names[mig.version] != mig.name
    ensures !GoodSoFar(m + multiset{e})
  {
    hide ParseOf;
    var n, v := m + multiset{e}, ParseOf(e).value.version;
    assert HasVersion(m, v);
    var f :| f in m && ParseOf(f).Some? && ParseOf(f).value.version == v;
    assert Known(f, versions, names);
    assert e in n && f in n;
  }

  lemma DuplicateSpoils(m: multiset<Entry>, versions: map<nat, Pair>, names: map<nat, string>, e: Entry)
    requires Agrees(m, versions, names) && ParseOf(e).Some?
    requires var mig := ParseOf(e).value; mig.version in versions && Slot(versions[mig.version], mig.direction) != ""
    ensures !GoodSoFar(m + multiset{e})
  {
    hide ParseOf;
    var n, mig := m + multiset{e}, ParseOf(e).value;
    assert Filled(m, mig.version, mig.direction);
    var f :| f in m && Is(f, mig.version, mig.direction);
    assert e in n && f in n;
    if OneNamePerVersion(n) {
      assert ParseOf(f).value == mig;
      ParseIsInjective(e, f);
      assert n[e] >= 2;
    }
  }

  lemma FreshFileIsGood(m: multiset<Entry>, versions: map<nat, Pair>, names: map<nat, string>, e: Entry)
    requires GoodSoFar(m) && Agrees(m, versions, names) && ParseOf(e).Some?
    requires var mig := ParseOf(e).value;
             && (mig.version in names ==> names[mig.version] == mig.name)
             && (mig.version in versions ==> Slot(versions[mig.version], mig.direction) == "")
    ensures GoodSoFar(m + multiset{e})
  {
    hide ParseOf, Is;
    var n := m + multiset{e};
    FileIsNamed(e);
    assert e !in m by { assert e in m ==> Known(e, versions, names); }
    assert forall x :: x in n ==> x == e || (x in m && n[x] == m[x]);
    assert forall x :: x in m ==> Known(x, versions, names);
  }

  /** The version table after noting a file. */
  function Noted(versions: map<nat, Pair>, e: Entry): map<nat, Pair>
    requires ParseOf(e).Some?
  {
    var mig := ParseOf(e).value;
    var before := if mig.version in versions then versions[mig.version] else Pair("", "");
    versions[mig.version := Fill(before, mig.direction, e.name)]
  }

  function Named(names: map<nat, string>, e: Entry): map<nat, string>
    requires ParseOf(e).Some?
  {
    names[ParseOf(e).value.version := ParseOf(e).value.name]
  }

  lemma KnownStaysKnown(n: multiset<Entry>, versions: map<nat, Pair>, names: map<nat, string>, e: Entry, x: Entry)
    requires ParseOf(e).Some? && GoodSoFar(n) && e in n && x in n
    requires x == e || Known(x, versions, names)
    ensures Known(x, Noted(versions, e), Named(names, e))
  {
    hide ParseOf, WellNamed;
    if x != e && ParseOf(x).Some? && ParseOf(x).value.version == ParseOf(e).value.version {
      assert ParseOf(x).value.name == ParseOf(e).value.name;
      if ParseOf(x).value.direction == ParseOf(e).value.direction {
        ParseIsInjective(x, e);
      }
    }
  }

  lemma SlotsStayFilled(m: multiset<Entry>, versions: map<nat, Pair>, e: Entry, v: nat, d: Direction)
    requires ParseOf(e).Some? && v in Noted(versions, e) && Slot(Noted(versions, e)[v], d) != ""
    requires v in versions && Slot(versions[v], d) != "" ==> Filled(m, v, d)
    ensures Filled(m + multiset{e}, v, d)
  {
    hide ParseOf;
    GrownHasAll(m, e);
    assert e in m + multiset{e};
  }

  lemma FileKeepsAgreement(m: multiset<Entry>, versions: map<nat, Pair>, names: map<nat, string>, e: Entry)
    requires Agrees(m, versions, names) && ParseOf(e).Some? && GoodSoFar(m + multiset{e})
    ensures Agrees(m + multiset{e}, Noted(versions, e), Named(names, e))
  {
    hide ParseOf, GoodSoFar, Known, Filled, Slot, Fill;
    var n := m + multiset{e};
    forall x | x in n ensures Known(x, Noted(versions, e), Named(names, e)) {
      KnownStaysKnown(n, versions, names, e, x);
    }
    GrownHasAll(m, e);
    assert e in n;
    forall v, d | v in Noted(versions, e) && Slot(Noted(versions, e)[v], d) != "" ensures Filled(n, v, d) {
      SlotsStayFilled(m, versions, e, v, d);
    }
  }

  datatype Problem =
    | BadName(file: string)
    | ConflictingNames(version: nat)
    | Duplicate(version: nat, direction: Direction)
    | NoMigrations
    | NonContiguous(expected: nat, got: nat)
    | MissingFile(version: nat, direction: Direction)
    | BadContent(file: string)

  /** One entry of the first pass, against the entries `m` seen before it. */
  method CollectOne(ghost m: multiset<Entry>, e: Entry, versions: map<nat, Pair>, names: map<nat, string>)
    returns (nextVersions: map<nat, Pair>, nextNames: map<nat, string>, problems: seq<Problem>)
    ensures GoodSoFar(m) && Agrees(m, versions, names) ==>
              && (problems == [] <==> GoodSoFar(m + multiset{e}))
              && (problems == [] ==> Agrees(m + multiset{e}, nextVersions, nextNames))
  {
    hide GoodSoFar, Agrees, ParseName;
    nextVersions, nextNames, problems := versions, names, [];
    ghost var good := GoodSoFar(m) && Agrees(m, versions, names);
    if e.isDir || !HasSuffix(e.name, ".sql") {
      if good { SkipKeepsGood(m, versions, names, e); }
      return;
    }
    var parsed := ParseName(e.name);
    if parsed.None? {
      UnparsedSpoils(m, e);
      problems := [BadName(e.name)];
      return;
    }
    var mig := parsed.value;
    assert ParseOf(e) == Some(mig);
    if mig.version in names && names[mig.version] != mig.name {
      if good { ConflictSpoils(m, versions, names, e); }
      problems := [ConflictingNames(mig.version)];
    }
    nextNames := names[mig.version := mig.name];
    var pair := if mig.version in versions then versions[mig.version] else Pair("", "");
    if Slot(pair, mig.direction) != "" {
      if good { DuplicateSpoils(m, versions, names, e); }
      problems := problems + [Duplicate(mig.version, mig.direction)];
    }
    nextVersions := versions[mig.version := Fill(pair, mig.direction, e.name)];
    if good && problems == [] {
      FreshFileIsGood(m, versions, names, e);
      FileKeepsAgreement(m, versions, names, e);
    }
  }

  /** The first pass: records every file and complains about bad, conflicting and
      duplicate names. */
  method Collect(entries: seq<Entry>)
    returns (versions: map<nat, Pair>, names: map<nat, string>, problems: seq<Problem>)
    ensures problems == [] <==> GoodSoFar(multiset(entries))
    ensures problems == [] ==> Agrees(multiset(entries), versions, names)
  {
    versions, names, problems := map[], map[], [];
    for i := 0 to |entries|
      invariant problems == [] <==> GoodSoFar(multiset(entries[..i]))
      invariant problems == [] ==> Agrees(multiset(entries[..i]), versions, names)
    {
      hide GoodSoFar, Agrees;
      ghost var m := multiset(entries[..i]);
      assert entries[..i + 1] == entries[..i] + [entries[i]];
      assert multiset(entries[..i + 1]) == m + multiset{entries[i]};
      if GoodSoFar(m + multiset{entries[i]}) { GoodBefore(m, entries[i]); }
      var more;
      versions, names, more := CollectOne(m, entries[i], versions, names);
      problems := problems + more;
    }
    assert entries[..|entries|] == entries;
  }

  lemma UnparsedSpoils(m: multiset<Entry>, e: Entry)
    requires IsFile(e) && ParseOf(e).None?
    ensures !GoodSoFar(m + multiset{e})
  {
    assert e in m + multiset{e};
  }

  // ----- the checking loop --------------------------------------------------------------

  ghost predicate Increasing(s: seq<nat>) {
    forall i, j :: 0 <= i < j < |s| ==> s[i] < s[j]
  }

  lemma HasLeast(vs: set<nat>) returns (least: nat)
    requires vs != {}
    ensures least in vs && forall v :: v in vs ==> least <= v
  {
    least :| least in vs;
    while exists v :: v in vs && v < least
      invariant least in vs
      decreases least
    {
      var v :| v in vs && v < least;
      least := v;
    }
  }

  method Sorted(vs: set<nat>) returns (ordered: seq<nat>)
    ensures Increasing(ordered) && |ordered| == |vs|
    ensures forall v :: v in ordered <==> v in vs
  {
    ordered := [];
    var todo := vs;
    while todo != {}
      invariant todo <= vs && Increasing(ordered)
      invariant forall v :: v in ordered <==> v in vs - todo
      invariant forall v, w :: v in ordered && w in todo ==> v < w
      invariant |ordered| + |todo| == |vs|
      decreases todo
    {
      ghost var least := HasLeast(todo);
      var v :| v in todo && forall w :: w in todo ==> v <= w;
      forall k | 0 <= k < |ordered| ensures ordered[k] < v {
        assert ordered[k] in ordered;
      }
      ordered := ordered + [v];
      todo := todo - {v};
    }
  }

  /** A sorted list of versions counts 1, 2, ... exactly when its elements are 1..n. */
  lemma CountsUpIff(s: seq<nat>)
    requires Increasing(s)
    ensures (forall i :: 0 <= i < |s| ==> s[i] == i + 1) <==> (forall v: nat :: v in s <==> 1 <= v <= |s|)
  {
    if forall v: nat :: v in s <==> 1 <= v <= |s| {
      forall i | 0 <= i < |s| ensures s[i] == i + 1 {
        AtLeast(s, i);
        AtMost(s, i);
      }
    }
    if forall i :: 0 <= i < |s| ==> s[i] == i + 1 {
      forall v: nat | 1 <= v <= |s| ensures v in s {
        assert s[v - 1] == v;
      }
    }
  }

  lemma {:induction false} AtLeast(s: seq<nat>, i: nat)
    requires Increasing(s) && i < |s| && forall v :: v in s ==> 1 <= v
    ensures s[i] >= i + 1
  {
    assert s[i] in s;
    if i > 0 { AtLeast(s, i - 1); }
  }

  lemma {:induction false} AtMost(s: seq<nat>, i: nat)
    requires Increasing(s) && i < |s| && forall v :: v in s ==> v <= |s|
    ensures s[i] <= i + 1
    decreases |s| - i
  {
    assert s[i] in s;
    if i < |s| - 1 { AtMost(s, i + 1); }
  }

  predicate PairOk(p: Pair, read: string -> Option<string>) {
    p.up != "" && p.down != "" && Sane(read(p.up)) && Sane(read(p.down))
  }

  method CheckPair(v: nat, p: Pair, read: string -> Option<string>) returns (problems: seq<Problem>)
    ensures problems == [] <==> PairOk(p, read)
  {
    hide Sane;
    problems := [];
    if p.up == "" {
      problems := problems + [MissingFile(v, Up)];
    }
    if p.down == "" {
      problems := problems + [MissingFile(v, Down)];
    }
    if p.up != "" {
      var ok := SanityCheckSQL(read(p.up));
      if !ok { problems := problems + [BadContent(p.up)]; }
    }
    if p.down != "" {
      var ok := SanityCheckSQL(read(p.down));
      if !ok { problems := problems + [BadContent(p.down)]; }
    }
  }

  /** The version at position `k` of the sorted list is right. */
  ghost predicate InPlace(ordered: seq<nat>, versions: map<nat, Pair>, read: string -> Option<string>, k: nat)
    requires k < |ordered|
  {
    ordered[k] == k + 1 && ordered[k] in versions && PairOk(versions[ordered[k]], read)
  }

  method CheckInOrder(ordered: seq<nat>, versions: map<nat, Pair>, read: string -> Option<string>)
    returns (problems: seq<Problem>)
    requires forall k :: 0 <= k < |ordered| ==> ordered[k] in versions
    ensures problems == [] <==> forall k :: 0 <= k < |ordered| ==> InPlace(ordered, versions, read, k)
  {
    hide PairOk;
    problems := [];
    for i := 0 to |ordered|
      invariant problems == [] <==> forall k :: 0 <= k < i ==> InPlace(ordered, versions, read, k)
    {
      var v := ordered[i];
      if v != i + 1 {
        problems := problems + [NonContiguous(i + 1, v)];
      }
      var more := CheckPair(v, versions[v], read);
      assert InPlace(ordered, versions, read, i) <==> v == i + 1 && more == [];
      problems := problems + more;
    }
  }

  /** The second pass: versions contiguous from 1, both directions present, each file
      sane. */
  method CheckVersions(versions: map<nat, Pair>, read: string -> Option<string>) returns (problems: seq<Problem>)
    ensures problems == [] <==>
            && |versions| != 0
            && (forall v: nat :: v in versions <==> 1 <= v <= |versions|)
            && (forall v :: v in versions ==> PairOk(versions[v], read))
  {
    problems := [];
    if |versions| == 0 {
      problems := problems + [NoMigrations];
    }
    var ordered := Sorted(versions.Keys);
    assert forall k :: 0 <= k < |ordered| ==> ordered[k] in ordered;
    var more := CheckInOrder(ordered, versions, read);
    problems := problems + more;
    InPlaceIff(ordered, versions, read);
  }

  lemma InPlaceIff(ordered: seq<nat>, versions: map<nat, Pair>, read: string -> Option<string>)
    requires Increasing(ordered) && |ordered| == |versions.Keys| && forall v :: v in ordered <==> v in versions
    ensures (forall k :: 0 <= k < |ordered| ==> InPlace(ordered, versions, read, k)) <==>
            && (forall v: nat :: v in versions <==> 1 <= v <= |versions|)
            && (forall v :: v in versions ==> PairOk(versions[v], read))
  {
    hide PairOk;
    assert |versions.Keys| == |versions|;
    assert forall k :: 0 <= k < |ordered| ==> ordered[k] in ordered;
    CountsUpIff(ordered);
    if forall k :: 0 <= k < |ordered| ==> InPlace(ordered, versions, read, k) {
      forall k | 0 <= k < |ordered| ensures ordered[k] == k + 1 {
        assert InPlace(ordered, versions, read, k);
      }
      forall v | v in versions ensures PairOk(versions[v], read) {
        var k :| 0 <= k < |ordered| && ordered[k] == v;
        assert InPlace(ordered, versions, read, k);
      }
    }
  }

  // ----- the verdict ----------------------------------------------------------------------

  /** Bad collections are never accepted. */
  lemma AcceptedIsGood(m: multiset<Entry>, read: string -> Option<string>)
    requires Accepts(m, read)
    ensures GoodSoFar(m)
  {
    hide ParseOf, Sane;
    forall e | e in m && ParseOf(e).Some? ensures m[e] == 1 {
      var mig := ParseOf(e).value;
      assert HasVersion(m, mig.version);
      assert ExactlyOne(m, mig.version, mig.direction);
      assert Is(e, mig.version, mig.direction);
    }
  }

  lemma VersionsAreKeys(m: multiset<Entry>, versions: map<nat, Pair>, names: map<nat, string>, v: nat)
    requires Agrees(m, versions, names)
    ensures HasVersion(m, v) <==> v in versions
  {
    hide ParseOf;
    if HasVersion(m, v) {
      var e :| e in m && ParseOf(e).Some? && ParseOf(e).value.version == v;
      assert Known(e, versions, names);
    }
  }

  lemma SlotMeansExactlyOne(m: multiset<Entry>, versions: map<nat, Pair>, names: map<nat, string>, v: nat, d: Direction)
    requires GoodSoFar(m) && Agrees(m, versions, names) && v in versions
    ensures Slot(versions[v], d) != "" <==> ExactlyOne(m, v, d)
  {
    hide ParseOf;
    if Slot(versions[v], d) != "" {
      assert Filled(m, v, d);
      var e :| e in m && Is(e, v, d);
      forall f | f in m && Is(f, v, d) ensures f == e {
        assert ParseOf(f).value == ParseOf(e).value;
        ParseIsInjective(e, f);
      }
    } else if ExactlyOne(m, v, d) {
      var e :| e in m && Is(e, v, d);
      assert Known(e, versions, names);
      FileIsNamed(e);
    }
  }

  lemma PairsAreFiles(
      m: multiset<Entry>, versions: map<nat, Pair>, names: map<nat, string>, read: string -> Option<string>, v: nat)
    requires GoodSoFar(m) && Agrees(m, versions, names) && v in versions
    requires forall e :: e in m && IsFile(e) ==> Sane(read(e.name))
    requires ExactlyOne(m, v, Up) && ExactlyOne(m, v, Down)
    ensures PairOk(versions[v], read)
  {
    hide ParseOf, Sane;
    SlotMeansExactlyOne(m, versions, names, v, Up);
    SlotMeansExactlyOne(m, versions, names, v, Down);
    var u :| u in m && Is(u, v, Up);
    var d :| d in m && Is(d, v, Down);
    assert Known(u, versions, names) && Known(d, versions, names);
    FileIsNamed(u);
    FileIsNamed(d);
  }

  lemma FilesAreSane(
      m: multiset<Entry>, versions: map<nat, Pair>, names: map<nat, string>, read: string -> Option<string>, e: Entry)
    requires GoodSoFar(m) && Agrees(m, versions, names) && e in m && IsFile(e)
    requires forall v :: v in versions ==> PairOk(versions[v], read)
    ensures Sane(read(e.name))
  {
    hide ParseOf, Sane;
    assert ParseOf(e).Some? && Known(e, versions, names);
    assert PairOk(versions[ParseOf(e).value.version], read);
  }

  lemma VerdictIsExact(
      m: multiset<Entry>, versions: map<nat, Pair>, names: map<nat, string>, read: string -> Option<string>)
    requires GoodSoFar(m) && Agrees(m, versions, names)
    ensures Accepts(m, read) <==>
            && |versions| != 0
            && (forall v: nat :: v in versions <==> 1 <= v <= |versions|)
            && (forall v :: v in versions ==> PairOk(versions[v], read))
  {
    hide Agrees, GoodSoFar, HasVersion, ExactlyOne, PairOk, Sane, IsFile, WellNamed, OneNamePerVersion, Contiguous;
    forall v: nat ensures HasVersion(m, v) <==> v in versions { VersionsAreKeys(m, versions, names, v); }
    if Accepts(m, read) {
      var n: nat :| n >= 1 && Contiguous(m, n);
      KeysUpTo(m, versions, n);
      forall v | v in versions ensures PairOk(versions[v], read) { PairsAreFiles(m, versions, names, read, v); }
    } else if |versions| != 0 && (forall v: nat :: v in versions <==> 1 <= v <= |versions|)
              && (forall v :: v in versions ==> PairOk(versions[v], read)) {
      ContiguousFromKeys(m, versions);
      forall v | HasVersion(m, v) ensures ExactlyOne(m, v, Up) && ExactlyOne(m, v, Down) {
        PairIsFull(versions[v], read);
        SlotMeansExactlyOne(m, versions, names, v, Up);
        SlotMeansExactlyOne(m, versions, names, v, Down);
      }
      forall e | e in m && IsFile(e) ensures Sane(read(e.name)) { FilesAreSane(m, versions, names, read, e); }
      GoodMeansNamed(m);
    }
  }

  lemma KeysUpTo(m: multiset<Entry>, versions: map<nat, Pair>, n: nat)
    requires Contiguous(m, n) && forall v: nat :: HasVersion(m, v) <==> v in versions
    ensures |versions| == n && forall v: nat :: v in versions <==> 1 <= v <= |versions|
  {
    UpToIsInterval(n);
    assert versions.Keys == UpTo(n);
    assert |versions.Keys| == |versions|;
  }

  ghost function UpTo(n: nat): set<nat> {
    if n == 0 then {} else UpTo(n - 1) + {n}
  }

  lemma {:induction false} UpToIsInterval(n: nat)
    ensures |UpTo(n)| == n && forall v: nat :: v in UpTo(n) <==> 1 <= v <= n
  {
    if n > 0 { UpToIsInterval(n - 1); }
  }

  lemma ContiguousFromKeys(m: multiset<Entry>, versions: map<nat, Pair>)
    requires forall v: nat :: HasVersion(m, v) <==> v in versions
    requires forall v: nat :: v in versions <==> 1 <= v <= |versions|
    ensures Contiguous(m, |versions|)
  {
  }

  lemma PairIsFull(p: Pair, read: string -> Option<string>)
    requires PairOk(p, read)
    ensures Slot(p, Up) != "" && Slot(p, Down) != ""
  {
  }

  lemma GoodMeansNamed(m: multiset<Entry>)
    requires GoodSoFar(m)
    ensures WellNamed(m) && OneNamePerVersion(m)
  {
  }

  /** The whole check: no problem is reported if and only if the listing is accepted, a
      condition on the multiset of entries, so their order cannot matter. */
  method CheckMigrations(entries: seq<Entry>, read: string -> Option<string>) returns (problems: seq<Problem>)
    ensures problems == [] <==> Accepts(multiset(entries), read)
  {
    hide Accepts, GoodSoFar, Agrees, PairOk;
    var versions, names, first := Collect(entries);
    var second := CheckVersions(versions, read);
    problems := first + second;
    if first == [] {
      VerdictIsExact(multiset(entries), versions, names, read);
    } else if Accepts(multiset(entries), read) {
      AcceptedIsGood(multiset(entries), read);
    }
  }
}
