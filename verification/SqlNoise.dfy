/** Blanking of comments and string literals in SQL text, line structure preserved. */
module SqlNoise {
  import opened Basics

  // ----- the token-level lexer -----------------------------------------------------

  datatype Kind = Code | LineComment | BlockComment | Literal

  /** A lexical token; code is taken one character at a time. */
  datatype Token = Token(kind: Kind, text: string)

  predicate Starts(s: string, a: char, b: char) {
    |s| >= 2 && s[0] == a && s[1] == b
  }

  /** Characters up to, not including, the next newline. */
  function LineLength(s: string): (n: nat)
    ensures n <= |s|
  {
    if s == [] || s[0] == '\n' then 0 else 1 + LineLength(s[1..])
  }

  /** Characters up to and including the next comment end; comments do not nest. */
  function BlockLength(s: string): (n: nat)
    ensures n <= |s|
  {
    if s == [] then 0 else if Starts(s, '*', '/') then 2 else 1 + BlockLength(s[1..])
  }

  /** Characters up to and including the closing quote; a doubled quote is content. */
  function LiteralLength(s: string): (n: nat)
    ensures n <= |s|
  {
    if s == [] then 0
    else if Starts(s, '\'', '\'') then 2 + LiteralLength(s[2..])
    else if s[0] == '\'' then 1
    else 1 + LiteralLength(s[1..])
  }

  function KindAt(s: string): Kind
    requires s != []
  {
    if Starts(s, '-', '-') then LineComment
    else if Starts(s, '/', '*') then BlockComment
    else if s[0] == '\'' then Literal
    else Code
  }

  function TokenLength(s: string): (n: nat)
    requires s != []
    ensures 0 < n <= |s|
  {
    match KindAt(s)
    case LineComment => 2 + LineLength(s[2..])
    case BlockComment => 2 + BlockLength(s[2..])
    case Literal => 1 + LiteralLength(s[1..])
    case Code => 1
  }

  function Lex(s: string): seq<Token>
    decreases |s|
  {
    if s == [] then []
    else [Token(KindAt(s), s[..TokenLength(s)])] + Lex(s[TokenLength(s)..])
  }

  /** Spaces everywhere except at newlines. */
  function Blank(s: string): (b: string)
    ensures |b| == |s|
  {
    seq(|s|, i requires 0 <= i < |s| => if s[i] == '\n' then '\n' else ' ')
  }

  function Rendered(t: Token): (r: string)
    ensures |r| == |t.text|
  {
    if t.kind.Code? then t.text else Blank(t.text)
  }

  function RenderAll(ts: seq<Token>): string {
    if ts == [] then [] else Rendered(ts[0]) + RenderAll(ts[1..])
  }

  function Texts(ts: seq<Token>): string {
    if ts == [] then [] else ts[0].text + Texts(ts[1..])
  }

  /** The specification: code stays, comments and literals become blanks. */
  function Stripped(s: string): string {
    RenderAll(Lex(s))
  }

  /** Tokens partition the text. */
  lemma {:induction false} LexIsLossless(s: string)
    ensures Texts(Lex(s)) == s
    decreases |s|
  {
    if s != [] {
      LexIsLossless(s[TokenLength(s)..]);
    }
  }

  // ----- the scanner ----------------------------------------------------------------

  datatype Mode = InCode | InLine | InBlock | InString

  /** One move of the scanner: what it emits, how far it advances, the next mode. */
  datatype Move = Move(emit: string, skip: nat, next: Mode)

  function MoveAt(s: string, mode: Mode): (m: Move)
    requires s != []
    ensures 0 < m.skip <= |s| && |m.emit| == m.skip
  {
    var kept := [if s[0] == '\n' then '\n' else ' '];
    match mode
    case InLine => if s[0] == '\n' then Move(kept, 1, InCode) else Move(kept, 1, InLine)
    case InBlock => if Starts(s, '*', '/') then Move([' ', ' '], 2, InCode) else Move(kept, 1, InBlock)
    case InString =>
      if Starts(s, '\'', '\'') then Move([' ', ' '], 2, InString)
      else if s[0] == '\'' then Move([' '], 1, InCode)
      else Move(kept, 1, InString)
    case InCode =>
      if Starts(s, '-', '-') then Move([' ', ' '], 2, InLine)
      else if Starts(s, '/', '*') then Move([' ', ' '], 2, InBlock)
      else if s[0] == '\'' then Move([' '], 1, InString)
      else Move([s[0]], 1, InCode)
  }

  /** What is still to be emitted for the rest of the text in a given mode. */
  function Rest(s: string, mode: Mode): string
    decreases |s|
  {
    if s == [] then []
    else
      var m := MoveAt(s, mode);
      m.emit + Rest(s[m.skip..], m.next)
  }

  lemma BlankConcat(a: string, b: string)
    ensures Blank(a + b) == Blank(a) + Blank(b)
  {
  }

  /** Splitting off the first `k` of `n` characters. */
  lemma SplitAt(s: string, k: nat, n: nat)
    requires k <= n <= |s|
    ensures Blank(s[..n]) == Blank(s[..k]) + Blank(s[k..][..n - k])
    ensures s[n..] == s[k..][n - k..]
  {
    assert s[..n] == s[..k] + s[k..][..n - k];
    BlankConcat(s[..k], s[k..][..n - k]);
  }

  /** Outside code, and when it enters noise, the scanner emits blanks. */
  lemma NoiseIsBlanked(s: string, mode: Mode)
    requires s != [] && (mode.InCode? ==> !KindAt(s).Code?)
    ensures MoveAt(s, mode).emit == Blank(s[..MoveAt(s, mode).skip])
  {
    var n := MoveAt(s, mode).skip;
    assert s[..1] == [s[0]] && Blank(s[..1]) == [if s[0] == '\n' then '\n' else ' '];
    if n == 2 {
      SplitAt(s, 1, 2);
      assert s[1..][..1] == [s[1]];
    }
  }

  lemma RestUnfolds(s: string, mode: Mode)
    requires s != []
    ensures var m := MoveAt(s, mode); Rest(s, mode) == m.emit + Rest(s[m.skip..], m.next)
  {
  }

  /** If the noise goes on after this move, what follows extends the blanks. */
  lemma NoiseContinues(s: string, mode: Mode, n: nat)
    requires s != [] && (mode.InCode? ==> !KindAt(s).Code?)
    requires var m := MoveAt(s, mode);
             && m.skip <= n <= |s|
             && Rest(s[m.skip..], m.next) == Blank(s[m.skip..][..n - m.skip]) + Rest(s[m.skip..][n - m.skip..], InCode)
    ensures Rest(s, mode) == Blank(s[..n]) + Rest(s[n..], InCode)
  {
    hide Rest, Blank, MoveAt, KindAt;
    var m := MoveAt(s, mode);
    var a, b, c := Blank(s[..m.skip]), Blank(s[m.skip..][..n - m.skip]), Rest(s[n..], InCode);
    RestUnfolds(s, mode);
    NoiseIsBlanked(s, mode);
    SplitAt(s, m.skip, n);
    assert a + (b + c) == (a + b) + c;
  }

  lemma {:induction false} RestOfLine(s: string)
    ensures Rest(s, InLine) == Blank(s[..LineLength(s)]) + Rest(s[LineLength(s)..], InCode)
  {
    hide Rest, Blank;
    if s == [] || s[0] == '\n' {
      LineEndsHere(s);
    } else {
      RestOfLine(s[1..]);
      NoiseContinues(s, InLine, LineLength(s));
    }
  }

  lemma LineEndsHere(s: string)
    requires s == [] || s[0] == '\n'
    ensures Rest(s, InLine) == Blank(s[..0]) + Rest(s[0..], InCode)
  {
    assert s[0..] == s;
  }

  lemma {:induction false} RestOfBlock(s: string)
    ensures Rest(s, InBlock) == Blank(s[..BlockLength(s)]) + Rest(s[BlockLength(s)..], InCode)
  {
    if s != [] {
      hide Rest, Blank;
      NoiseIsBlanked(s, InBlock);
      RestUnfolds(s, InBlock);
      if !Starts(s, '*', '/') {
        RestOfBlock(s[1..]);
        NoiseContinues(s, InBlock, BlockLength(s));
      }
    }
  }

  lemma {:induction false} RestOfLiteral(s: string)
    ensures Rest(s, InString) == Blank(s[..LiteralLength(s)]) + Rest(s[LiteralLength(s)..], InCode)
    decreases |s|
  {
    if s != [] {
      hide Rest, Blank;
      NoiseIsBlanked(s, InString);
      RestUnfolds(s, InString);
      if Starts(s, '\'', '\'') {
        RestOfLiteral(s[2..]);
        NoiseContinues(s, InString, LiteralLength(s));
      } else if s[0] != '\'' {
        RestOfLiteral(s[1..]);
        NoiseContinues(s, InString, LiteralLength(s));
      }
    }
  }

  /** What the scanner emits for a comment or literal and for what comes after it. */
  lemma NoiseToken(s: string)
    requires s != [] && !KindAt(s).Code?
    ensures Rest(s, InCode) == Blank(s[..TokenLength(s)]) + Rest(s[TokenLength(s)..], InCode)
  {
    hide Rest, Blank, LineLength, BlockLength, LiteralLength;
    var m, n := MoveAt(s, InCode), TokenLength(s);
    var rest := s[m.skip..];
    match KindAt(s) {
      case LineComment => RestOfLine(rest);
      case BlockComment => RestOfBlock(rest);
      case Literal => RestOfLiteral(rest);
    }
    NoiseContinues(s, InCode, n);
  }

  lemma FirstToken(s: string)
    requires s != []
    ensures Rest(s, InCode) == Rendered(Token(KindAt(s), s[..TokenLength(s)])) + Rest(s[TokenLength(s)..], InCode)
  {
    hide Rest, Blank, LineLength, BlockLength, LiteralLength;
    if KindAt(s).Code? {
      RestUnfolds(s, InCode);
      assert s[..1] == [s[0]];
    } else {
      NoiseToken(s);
    }
  }

  /** The scanner's view and the token view agree. */
  lemma {:induction false} RestIsStripped(s: string)
    ensures Rest(s, InCode) == Stripped(s)
    decreases |s|
  {
    if s != [] {
      var n := TokenLength(s);
      RestIsStripped(s[n..]);
      assert Lex(s)[0] == Token(KindAt(s), s[..n]) && Lex(s)[1..] == Lex(s[n..]);
      FirstToken(s);
    }
  }

  lemma RestMoves(s: string, mode: Mode, out: string)
    requires s != []
    ensures var m := MoveAt(s, mode); out + Rest(s, mode) == out + m.emit + Rest(s[m.skip..], m.next)
  {
  }

  function ModeOf(inLine: bool, inBlock: bool, inStr: bool): Mode {
    if inLine then InLine else if inBlock then InBlock else if inStr then InString else InCode
  }

  /** The byte loop with its three flags. */
  method StripSQLNoise(s: string) returns (out: string)
    ensures out == Stripped(s)
  {
    out := [];
    var inLine, inBlock, inStr := false, false, false;
    var i := 0;
    assert s[0..] == s;
    while i < |s|
      invariant 0 <= i <= |s|
      invariant !(inLine && inBlock) && !(inLine && inStr) && !(inBlock && inStr)
      invariant out + Rest(s[i..], ModeOf(inLine, inBlock, inStr)) == Rest(s, InCode)
    {
      hide Rest;
      ghost var o, r := out, s[i..];
      ghost var mode := ModeOf(inLine, inBlock, inStr);
      ghost var m := MoveAt(r, mode);
      assert Starts(r, s[i], if i + 1 < |s| then s[i + 1] else ' ') <==> i + 1 < |s|;
      var c := s[i];
      if inLine {
        if c == '\n' {
          inLine := false;
          out := out + [c];
        } else {
          out := out + [' '];
        }
      } else if inBlock {
        if c == '*' && i + 1 < |s| && s[i + 1] == '/' {
          inBlock := false;
          out := out + [' ', ' '];
          i := i + 1;
        } else if c == '\n' {
          out := out + [c];
        } else {
          out := out + [' '];
        }
      } else if inStr {
        if c == '\'' && i + 1 < |s| && s[i + 1] == '\'' {
          out := out + [' ', ' '];
          i := i + 1;
        } else if c == '\'' {
          inStr := false;
          out := out + [' '];
        } else if c == '\n' {
          out := out + [c];
        } else {
          out := out + [' '];
        }
      } else {
        if c == '-' && i + 1 < |s| && s[i + 1] == '-' {
          inLine := true;
          out := out + [' ', ' '];
          i := i + 1;
        } else if c == '/' && i + 1 < |s| && s[i + 1] == '*' {
          inBlock := true;
          out := out + [' ', ' '];
          i := i + 1;
        } else if c == '\'' {
          inStr := true;
          out := out + [' '];
        } else {
          out := out + [c];
        }
      }
      i := i + 1;
      assert out == o + m.emit && s[i..] == r[m.skip..] && m.next == ModeOf(inLine, inBlock, inStr);
      RestMoves(r, mode, o);
    }
    RestIsStripped(s);
  }

  // ----- what stripping guarantees -----------------------------------------------------

  /** Same length, each character kept or blanked, newlines exactly where they were. */
  ghost predicate SameShape(s: string, t: string) {
    && |t| == |s|
    && (forall i :: 0 <= i < |s| ==> t[i] == s[i] || t[i] == ' ')
    && (forall i :: 0 <= i < |s| ==> (t[i] == '\n' <==> s[i] == '\n'))
  }

  /** No quote and no comment opener is left. */
  ghost predicate NoNoise(t: string) {
    && (forall i :: 0 <= i < |t| ==> t[i] != '\'')
    && (forall i :: 0 <= i < |t| - 1 ==> !(t[i] == '-' && t[i + 1] == '-') && !(t[i] == '/' && t[i + 1] == '*'))
  }

  lemma MoveShape(s: string, mode: Mode)
    requires s != []
    ensures var m := MoveAt(s, mode); SameShape(s[..m.skip], m.emit)
  {
  }

  lemma ShapeConcat(a: string, b: string, c: string, d: string)
    requires SameShape(a, c) && SameShape(b, d)
    ensures SameShape(a + b, c + d)
  {
  }

  lemma {:induction false} RestShape(s: string, mode: Mode)
    ensures SameShape(s, Rest(s, mode))
    decreases |s|
  {
    if s != [] {
      var m := MoveAt(s, mode);
      RestShape(s[m.skip..], m.next);
      MoveShape(s, mode);
      ShapeConcat(s[..m.skip], s[m.skip..], m.emit, Rest(s[m.skip..], m.next));
      assert s == s[..m.skip] + s[m.skip..];
    }
  }

  /** Nothing in `t` and nothing across the seam forms noise. */
  lemma NoNoiseConcat(a: string, t: string)
    requires NoNoise(a) && NoNoise(t)
    requires a != [] && t != [] ==> !(a[|a| - 1] == '-' && t[0] == '-') && !(a[|a| - 1] == '/' && t[0] == '*')
    ensures NoNoise(a + t)
  {
  }

  /** One move emits no noise, and none forms with the character after it. */
  lemma MoveHasNoNoise(s: string, mode: Mode)
    requires s != []
    ensures var m := MoveAt(s, mode);
            var last := m.emit[m.skip - 1];
            && NoNoise(m.emit)
            && (m.skip < |s| ==> !(last == '-' && s[m.skip] == '-') && !(last == '/' && s[m.skip] == '*'))
  {
  }

  lemma {:induction false} RestHasNoNoise(s: string, mode: Mode)
    ensures NoNoise(Rest(s, mode))
    decreases |s|
  {
    if s != [] {
      hide MoveAt, NoNoise;
      var m := MoveAt(s, mode);
      var rest := s[m.skip..];
      MoveHasNoNoise(s, mode);
      RestHasNoNoise(rest, m.next);
      RestShape(rest, m.next);
      NoNoiseConcat(m.emit, Rest(rest, m.next));
    }
  }

  lemma {:induction false} CleanTextIsFixed(t: string)
    requires NoNoise(t)
    ensures Rest(t, InCode) == t
  {
    if t != [] {
      assert NoNoise(t[1..]);
      CleanTextIsFixed(t[1..]);
      assert t == [t[0]] + t[1..];
    }
  }

  /** Stripping keeps the shape of the text and removes every quote and comment opener. */
  lemma StrippingIsClean(s: string)
    ensures SameShape(s, Stripped(s)) && NoNoise(Stripped(s))
  {
    RestIsStripped(s);
    RestShape(s, InCode);
    RestHasNoNoise(s, InCode);
  }

  /** Where token `k` starts in the text. */
  function StartOf(ts: seq<Token>, k: nat): nat
    requires k <= |ts|
  {
    if k == 0 then 0 else |ts[0].text| + StartOf(ts[1..], k - 1)
  }

  /** Position by position: the text under a token is its text, and in the output a code
      token stands there unchanged, a comment or literal as blanks. */
  lemma {:induction false} TokenIsRendered(ts: seq<Token>, k: nat)
    requires k < |ts|
    ensures var a := StartOf(ts, k);
            var b := a + |ts[k].text|;
            && b <= |Texts(ts)| == |RenderAll(ts)|
            && Texts(ts)[a..b] == ts[k].text && RenderAll(ts)[a..b] == Rendered(ts[k])
  {
    hide Rendered;
    RenderKeepsLength(ts);
    if k == 0 {
      SliceOfFirst(ts[0].text, Texts(ts[1..]));
      SliceOfFirst(Rendered(ts[0]), RenderAll(ts[1..]));
    } else {
      TokenIsRendered(ts[1..], k - 1);
      var a := StartOf(ts[1..], k - 1);
      var b := a + |ts[k].text|;
      SliceOfSecond(ts[0].text, Texts(ts[1..]), a, b);
      SliceOfSecond(Rendered(ts[0]), RenderAll(ts[1..]), a, b);
    }
  }

  lemma SliceOfFirst(x: string, y: string)
    ensures (x + y)[0..|x|] == x
  {
  }

  lemma SliceOfSecond(x: string, y: string, a: nat, b: nat)
    requires a <= b <= |y|
    ensures (x + y)[|x| + a..|x| + b] == y[a..b]
  {
  }

  lemma {:induction false} RenderKeepsLength(ts: seq<Token>)
    ensures |RenderAll(ts)| == |Texts(ts)|
  {
    if ts != [] { RenderKeepsLength(ts[1..]); }
  }

  /** Code characters survive stripping at their positions; everything else is blanked. */
  lemma CodeSurvives(s: string, k: nat)
    requires k < |Lex(s)|
    ensures var t := Lex(s)[k];
            var a := StartOf(Lex(s), k);
            var b := a + |t.text|;
            && b <= |s| == |Stripped(s)| && s[a..b] == t.text
            && Stripped(s)[a..b] == if t.kind.Code? then s[a..b] else Blank(s[a..b])
  {
    hide Lex, Blank, Texts, RenderAll, StartOf;
    TokenIsRendered(Lex(s), k);
    LexIsLossless(s);
  }

  // ----- how stripping reads each construct ----------------------------------------------

  lemma StripsFirstToken(s: string)
    requires s != []
    ensures var n := TokenLength(s);
            Stripped(s) == Rendered(Token(KindAt(s), s[..n])) + Stripped(s[n..])
  {
    var n := TokenLength(s);
    assert Lex(s)[0] == Token(KindAt(s), s[..n]) && Lex(s)[1..] == Lex(s[n..]);
  }

  /** A first token of noise that ends with `noise` leaves blanks and the rest stripped. */
  lemma NoiseThenRest(noise: string, s: string)
    requires noise != [] && !KindAt(noise + s).Code? && TokenLength(noise + s) == |noise|
    ensures Stripped(noise + s) == Blank(noise) + Stripped(s)
  {
    hide KindAt, TokenLength, Stripped;
    StripsFirstToken(noise + s);
    assert (noise + s)[..|noise|] == noise && (noise + s)[|noise|..] == s;
  }

  /** A character that opens neither a literal nor a comment stays. */
  lemma CodeIsKept(c: char, s: string)
    requires c != '\'' && (c == '-' && s != [] ==> s[0] != '-') && (c == '/' && s != [] ==> s[0] != '*')
    ensures Stripped([c] + s) == [c] + Stripped(s)
  {
    var t := [c] + s;
    assert t[0] == c && t[1..] == s;
    assert |t| >= 2 ==> t[1] == s[0];
    assert t[..1] == [c];
    StripsFirstToken(t);
  }

  lemma {:induction false} LineEnds(c: string, s: string)
    requires '\n' !in c && (s == [] || s[0] == '\n')
    ensures LineLength(c + s) == |c|
  {
    if c == [] {
      assert c + s == s;
    } else {
      LineEnds(c[1..], s);
      assert (c + s)[1..] == c[1..] + s;
    }
  }

  /** A line comment reaches to the next newline, or to the end. */
  lemma LineCommentIsBlanked(c: string, s: string)
    requires '\n' !in c && (s == [] || s[0] == '\n')
    ensures Stripped("--" + c + s) == Blank("--" + c) + Stripped(s)
  {
    hide Stripped, Blank, LineLength;
    LineEnds(c, s);
    var t := "--" + c + s;
    assert t[0] == '-' && t[1] == '-' && t[2..] == c + s;
    NoiseThenRest("--" + c, s);
  }

  /** The first comment end in `c` followed by one is the one that follows. */
  ghost predicate EndsOnlyAfter(c: string) {
    forall i :: 0 <= i < |c| ==> !((c + "*/")[i] == '*' && (c + "*/")[i + 1] == '/')
  }

  lemma {:induction false} BlockEnds(c: string, s: string)
    requires EndsOnlyAfter(c)
    ensures BlockLength(c + "*/" + s) == |c| + 2
  {
    var t := c + "*/" + s;
    if c == [] {
      assert t[0] == '*' && t[1] == '/';
    } else {
      var tail := c[1..];
      assert forall i :: 0 <= i <= |tail| ==> (tail + "*/")[i] == (c + "*/")[i + 1];
      assert (tail + "*/")[|tail| + 1] == (c + "*/")[|c| + 1];
      BlockEnds(tail, s);
      assert t[1..] == tail + "*/" + s;
      assert t[0] == (c + "*/")[0] && t[1] == (c + "*/")[1];
    }
  }

  /** A block comment ends at the first end marker and does not nest. */
  lemma BlockCommentIsBlanked(c: string, s: string)
    requires EndsOnlyAfter(c)
    ensures Stripped("/*" + c + "*/" + s) == Blank("/*" + c + "*/") + Stripped(s)
  {
    hide Stripped, Blank, BlockLength;
    BlockEnds(c, s);
    var noise := "/*" + c + "*/";
    var t := noise + s;
    assert t[0] == '/' && t[1] == '*' && t[2..] == c + "*/" + s;
    NoiseThenRest(noise, s);
  }

  lemma {:induction false} LiteralEnds(c: string, s: string)
    requires s == [] || s[0] != '\''
    ensures LiteralLength(Doubled(c) + "'" + s) == |Doubled(c)| + 1
  {
    var t := Doubled(c) + "'" + s;
    if c == [] {
      assert t == "'" + s;
      assert t[0] == '\'' && (|t| >= 2 ==> t[1] == s[0]);
    } else {
      LiteralEnds(c[1..], s);
      var rest := Doubled(c[1..]) + "'" + s;
      if c[0] == '\'' {
        assert t[0] == '\'' && t[1] == '\'' && t[2..] == rest;
      } else {
        assert t[0] == c[0] && t[1..] == rest;
      }
    }
  }

  /** A literal ends at its closing quote; doubled quotes are content. */
  lemma LiteralIsBlanked(c: string, s: string)
    requires s == [] || s[0] != '\''
    ensures Stripped("'" + Doubled(c) + "'" + s) == Blank("'" + Doubled(c) + "'") + Stripped(s)
  {
    hide Stripped, Blank, LiteralLength, Doubled;
    LiteralEnds(c, s);
    var noise := "'" + Doubled(c) + "'";
    var t := noise + s;
    assert t[0] == '\'' && t[1..] == Doubled(c) + "'" + s;
    NoiseThenRest(noise, s);
  }

  /** Stripping twice is stripping once. */
  lemma StrippingIsIdempotent(s: string)
    ensures Stripped(Stripped(s)) == Stripped(s)
  {
    StrippingIsClean(s);
    CleanTextIsFixed(Stripped(s));
    RestIsStripped(Stripped(s));
  }
}
