/** Masking comments and string bodies in place, one lexer per language family. */
module Mask {
  import opened SourceLines
  import opened Lexer
  import opened Tokens

  // ----- the loops over an output that starts as a copy of the source -----

  /** What has been written up to i, and what the rest is to become, give the masked source. */
  ghost predicate Progress(s: string, out: string, i: nat, mode: Mode, lang: Language) {
    && Literal(mode) && |out| == |s|
    && (forall k | i <= k < |s| :: out[k] == s[k])
    && Masked(s, 0, Code, lang) == out[..if i < |s| then i else |s|] + Masked(s, i, mode, lang)
  }

  /** Writing the next n characters moves on. */
  lemma Writes(s: string, before: string, after: string, i: nat, n: nat, mode: Mode, next: Mode, lang: Language)
    requires Progress(s, before, i, mode, lang) && i + n <= |s| && Literal(next)
    requires |after| == |s| && after[..i] == before[..i] && forall k | i + n <= k < |s| :: after[k] == s[k]
    requires Masked(s, i, mode, lang) == after[i..i + n] + Masked(s, i + n, next, lang)
    ensures Progress(s, after, i + n, next, lang)
  {
    hide Masked, Blanked;
    assert after[..i + n] == before[..i] + after[i..i + n];
    assert Masked(s, 0, Code, lang) == before[..i] + (after[i..i + n] + Masked(s, i + n, next, lang));
  }

  /** At the end of the source nothing is left to mask. */
  lemma AtEnd(s: string, out: string, i: nat, mode: Mode, lang: Language, j: nat)
    requires Progress(s, out, i, mode, lang) && i >= |s| && j >= |s|
    ensures Progress(s, out, j, Code, lang)
  {
  }

  lemma LineEnds(s: string, out: string, i: nat, lang: Language)
    requires Progress(s, out, i, Line, lang) && (i < |s| ==> s[i] == '\n')
    ensures Progress(s, out, i, Code, lang)
  {
  }

  /** One character of a body becomes blank, unless it is a newline. */
  method BlankOne(source: string, out: array<char>, i: nat, mode: Mode, lang: Language)
    requires i < |source| && Progress(source, out[..], i, mode, lang)
    requires Masked(source, i, mode, lang) == [Blank(source[i])] + Masked(source, i + 1, mode, lang)
    modifies out
    ensures Progress(source, out[..], i + 1, mode, lang)
  {
    ghost var before := out[..];
    if source[i] != '\n' {
      out[i] := ' ';
    }
    assert out[..][i..i + 1] == [Blank(source[i])];
    Writes(source, before, out[..], i, 1, mode, mode, lang);
  }

  /** A delimiter of n characters becomes blank. */
  method BlankDelimiter(source: string, out: array<char>, i: nat, n: nat, mode: Mode, next: Mode, lang: Language)
    requires i + n <= |source| && Progress(source, out[..], i, mode, lang) && Literal(next)
    requires Masked(source, i, mode, lang) == Spaces(n) + Masked(source, i + n, next, lang)
    modifies out
    ensures Progress(source, out[..], i + n, next, lang)
  {
    hide Blanked;
    ghost var before := out[..];
    for k := i to i + n
      invariant forall x | 0 <= x < |source| :: out[x] == if i <= x < k then ' ' else before[x]
    {
      out[k] := ' ';
    }
    assert out[..][i..i + n] == Spaces(n);
    assert out[..][..i] == before[..i];
    Writes(source, before, out[..], i, n, mode, next, lang);
  }

  /** A line comment, up to its newline. */
  method BlankLine(source: string, out: array<char>, start: nat, lang: Language) returns (i: nat)
    requires start < |source| && source[start] != '\n' && Progress(source, out[..], start, Line, lang)
    modifies out
    ensures i > start && Progress(source, out[..], i, Code, lang)
  {
    hide Progress, Blanked;
    i := start;
    while i < |source| && source[i] != '\n'
      invariant start <= i <= |source| && Progress(source, out[..], i, Line, lang)
      invariant i == start ==> source[i] != '\n'
    {
      BlankOne(source, out, i, Line, lang);
      i := i + 1;
    }
    LineEnds(source, out[..], i, lang);
  }

  /** A block comment, both delimiters included. */
  method BlankBlock(source: string, out: array<char>, start: nat, lang: Language) returns (i: nat)
    requires lang.Slash? && IsPair(source, start, '/', '*') && Progress(source, out[..], start, Code, lang)
    modifies out
    ensures i > start && Progress(source, out[..], i, Code, lang)
  {
    hide Progress, Blanked, Masked, Spaces;
    i := start;
    BlockOpens(source, i, lang);
    BlankDelimiter(source, out, i, 2, Code, Block, lang);
    i := i + 2;
    while i < |source| && !IsPair(source, i, '*', '/')
      invariant start < i <= |source| && Progress(source, out[..], i, Block, lang)
    {
      BlockGoesOn(source, i, lang);
      BlankOne(source, out, i, Block, lang);
      i := i + 1;
    }
    if i < |source| {
      BlockCloses(source, i, lang);
      BlankDelimiter(source, out, i, 2, Block, Code, lang);
      i := i + 2;
    } else {
      AtEnd(source, out[..], i, Block, lang, i);
    }
  }

  /** A triple-quoted literal, both delimiters included. */
  method BlankTriple(source: string, out: array<char>, start: nat, lang: Language) returns (i: nat)
    requires lang.Python? && start < |source| && source[start] in {'"', '\''} && Tripled(source, start, source[start])
    requires Progress(source, out[..], start, Code, lang)
    modifies out
    ensures i > start && Progress(source, out[..], i, Code, lang)
  {
    hide Progress, Blanked, Masked, Spaces;
    i := start;
    var q := source[i];
    TripleOpens(source, i, lang);
    BlankDelimiter(source, out, i, 3, Code, Triple(q), lang);
    i := i + 3;
    while i < |source| && !Tripled(source, i, q)
      invariant start < i <= |source| && Progress(source, out[..], i, Triple(q), lang)
    {
      TripleGoesOn(source, i, q, lang);
      BlankOne(source, out, i, Triple(q), lang);
      i := i + 1;
    }
    if i < |source| {
      TripleCloses(source, i, q, lang);
      BlankDelimiter(source, out, i, 3, Triple(q), Code, lang);
    } else {
      AtEnd(source, out[..], i, Triple(q), lang, i + 3);
    }
    i := i + 3;
  }

  /** The body of a quoted literal; an unterminated single-line one stops at the end of its line. */
  method BlankQuoted(source: string, out: array<char>, start: nat, lang: Language) returns (i: nat)
    requires start < |source| && source[start] in {'"', '\'', '`'}
    requires !(lang.Python? && source[start] in {'"', '\''} && Tripled(source, start, source[start]))
    requires Progress(source, out[..], start, Code, lang)
    modifies out
    ensures i > start && Progress(source, out[..], i, Code, lang)
  {
    hide Progress, Blanked, Masked;
    var q := source[start];
    QuoteBegins(source, out[..], start, lang);
    i := start + 1;
    while i < |source| && source[i] != q
      invariant start < i <= |source| && Progress(source, out[..], i, Quoted(q), lang)
    {
      if source[i] == '\\' && i + 1 < |source| {
        BlankEscape(source, out, i, q, lang);
        i := i + 2;
        continue;
      }
      if source[i] == '\n' && q != '`' {
        break;
      }
      BodyBlanks(source, i, q, lang);
      BlankOne(source, out, i, Quoted(q), lang);
      i := i + 1;
    }
    if i < |source| {
      QuoteCloses(source, out[..], i, q, lang);
    } else {
      AtEnd(source, out[..], i, Quoted(q), lang, i + 1);
    }
    i := i + 1;
  }

  lemma QuoteBegins(s: string, out: string, i: nat, lang: Language)
    requires i < |s| && s[i] in {'"', '\'', '`'} && Progress(s, out, i, Code, lang)
    requires !(lang.Python? && s[i] in {'"', '\''} && Tripled(s, i, s[i]))
    ensures Progress(s, out, i + 1, Quoted(s[i]), lang)
  {
    hide Progress, Blanked;
    Leave(s, out, i, Code, Quoted(s[i]), lang);
  }

  /** A quote closes the literal, and so does the end of the line unless it is a template. */
  lemma QuoteCloses(s: string, out: string, i: nat, q: char, lang: Language)
    requires i < |s| && Progress(s, out, i, Quoted(q), lang)
    requires s[i] == q || (s[i] == '\n' && q != '`' && s[i] != '\\')
    ensures Progress(s, out, i + 1, Code, lang)
  {
    hide Blanked;
    Leave(s, out, i, Quoted(q), Code, lang);
  }

  /** A character that stays. */
  lemma Leave(s: string, out: string, i: nat, mode: Mode, next: Mode, lang: Language)
    requires i < |s| && Progress(s, out, i, mode, lang) && Literal(next)
    requires Masked(s, i, mode, lang) == [s[i]] + Masked(s, i + 1, next, lang)
    ensures Progress(s, out, i + 1, next, lang)
  {
    assert out[i..i + 1] == [s[i]];
    Writes(s, out, out, i, 1, mode, next, lang);
  }

  method BlankEscape(source: string, out: array<char>, i: nat, q: char, lang: Language)
    requires i + 1 < |source| && source[i] == '\\' && source[i] != q && Progress(source, out[..], i, Quoted(q), lang)
    modifies out
    ensures Progress(source, out[..], i + 2, Quoted(q), lang)
  {
    ghost var before := out[..];
    out[i] := ' ';
    if source[i + 1] != '\n' {
      out[i + 1] := ' ';
    }
    assert out[..][i..i + 2] == [' ', Blank(source[i + 1])];
    Writes(source, before, out[..], i, 2, Quoted(q), Quoted(q), lang);
  }

  /** The loop over tokens. */
  method MaskCommentsAndStrings(source: string, lang: Language) returns (masked: string)
    ensures masked == Masked(source, 0, Code, lang)
    ensures exists tokens :: TokensFrom(source, lang, 0, tokens)
    ensures forall tokens | TokensFrom(source, lang, 0, tokens) ::
              |masked| == |source| && forall k | 0 <= k < |source| ::
                masked[k] == if Covered(source, tokens, k) then Blank(source[k]) else source[k]
  {
    hide Progress, Masked, Blanked;
    var n := |source|;
    var out := new char[n](k requires 0 <= k < n => source[k]);
    assert out[..] == source;
    Begins(source, lang);
    var i := 0;
    while i < n
      invariant 0 <= i && Progress(source, out[..], i, Code, lang)
      decreases n - i
    {
      var ch := source[i];
      if (!lang.Slash? && ch == '#') || (lang.Slash? && IsPair(source, i, '/', '/')) {
        LineBegins(source, out[..], i, lang);
        i := BlankLine(source, out, i, lang);
      } else if lang.Slash? && IsPair(source, i, '/', '*') {
        i := BlankBlock(source, out, i, lang);
      } else if lang.Python? && ch in {'"', '\''} && Tripled(source, i, ch) {
        i := BlankTriple(source, out, i, lang);
      } else if ch in {'"', '\'', '`'} {
        i := BlankQuoted(source, out, i, lang);
      } else {
        CodeStays(source, out[..], i, lang);
        i := i + 1;
      }
    }
    masked := out[..];
    AllMasked(source, masked, i, lang);
    MaskedAsTokens(source, masked, lang);
  }

  lemma MaskedAsTokens(s: string, masked: string, lang: Language)
    requires masked == Masked(s, 0, Code, lang)
    ensures exists tokens :: TokensFrom(s, lang, 0, tokens)
    ensures forall tokens | TokensFrom(s, lang, 0, tokens) ::
              |masked| == |s| &&
              forall k | 0 <= k < |s| :: masked[k] == if Covered(s, tokens, k) then Blank(s[k]) else s[k]
  {
    hide Masked, Blanked, Covered;
    var some := TokensExist(s, lang, 0);
    forall tokens | TokensFrom(s, lang, 0, tokens)
      ensures |masked| == |s| && forall k | 0 <= k < |s| ::
                masked[k] == if Covered(s, tokens, k) then Blank(s[k]) else s[k]
    {
      MaskedIsTokenwise(s, lang, 0, tokens);
      assert forall k | 0 <= k < |s| :: masked[k - 0] == masked[k];
    }
  }

  lemma Begins(s: string, lang: Language)
    ensures Progress(s, s, 0, Code, lang)
  {
    assert s[..0] + Masked(s, 0, Code, lang) == Masked(s, 0, Code, lang);
  }

  lemma LineBegins(s: string, out: string, i: nat, lang: Language)
    requires Progress(s, out, i, Code, lang) && i < |s|
    requires (!lang.Slash? && s[i] == '#') || (lang.Slash? && IsPair(s, i, '/', '/'))
    ensures Progress(s, out, i, Line, lang) && s[i] != '\n'
  {
  }

  lemma CodeStays(s: string, out: string, i: nat, lang: Language)
    requires Progress(s, out, i, Code, lang) && i < |s| && s[i] !in {'"', '\'', '`'}
    requires !(!lang.Slash? && s[i] == '#') && !(lang.Slash? && (IsPair(s, i, '/', '/') || IsPair(s, i, '/', '*')))
    ensures Progress(s, out, i + 1, Code, lang)
  {
    hide Blanked;
    Leave(s, out, i, Code, Code, lang);
  }

  lemma AllMasked(s: string, out: string, i: nat, lang: Language)
    requires Progress(s, out, i, Code, lang) && i >= |s|
    ensures out == Masked(s, 0, Code, lang)
  {
  }

  /** Line numbers agree in the source and in its masked text. */
  lemma MaskKeepsLines(source: string, lang: Language, pos: nat)
    ensures var t := Masked(source, 0, Code, lang);
            |t| == |source| && Offsets(t) == Offsets(source) && LineAt(t, pos) == LineAt(source, pos)
  {
    var t := Masked(source, 0, Code, lang);
    SameLines(t, source);
    var n := if pos < |source| then pos else |source|;
    SameLines(t[..n], source[..n]);
  }
}
