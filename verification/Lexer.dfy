/** What a source is masked to, as a recursive lexer: one rule set per language family. */
module Lexer {

  datatype Language = Python | Hash | Slash

  datatype Mode = Code | Line | Block | Triple(q: char) | Quoted(q: char)

  /** Literals are delimited by quotes. */
  predicate Literal(mode: Mode) {
    (mode.Triple? || mode.Quoted?) ==> mode.q in {'"', '\'', '`'}
  }

  /** The quote opens a triple-quoted literal at i. */
  predicate Tripled(s: string, i: nat, q: char) {
    i + 2 < |s| && s[i] == q && s[i + 1] == q && s[i + 2] == q
  }

  predicate IsPair(s: string, i: nat, a: char, b: char) {
    i + 1 < |s| && s[i] == a && s[i + 1] == b
  }

  function Blank(ch: char): char { if ch == '\n' then '\n' else ' ' }

  /** Equal length, newlines where they were, and everything else unchanged or blank. */
  predicate Blanked(s: string, i: nat, t: string) {
    && i + |t| == |s|
    && forall k | i <= k < |s| :: (t[k - i] == '\n' <==> s[k] == '\n') && (t[k - i] == s[k] || t[k - i] == ' ')
  }

  /** What the source from i on is masked to, when the lexer is in this mode there. */
  function Masked(s: string, i: nat, mode: Mode, lang: Language): (t: string)
    requires Literal(mode)
    ensures i <= |s| ==> Blanked(s, i, t)
    decreases |s| - i, if mode.Line? then 1 else 0
  {
    if i >= |s| then ""
    else
      match mode
      case Code =>
        if !lang.Slash? && s[i] == '#' then [' '] + Masked(s, i + 1, Line, lang)
        else if lang.Slash? && IsPair(s, i, '/', '/') then [' '] + Masked(s, i + 1, Line, lang)
        else if lang.Slash? && IsPair(s, i, '/', '*') then [' ', ' '] + Masked(s, i + 2, Block, lang)
        else if lang.Python? && s[i] in {'"', '\''} && Tripled(s, i, s[i]) then
          [' ', ' ', ' '] + Masked(s, i + 3, Triple(s[i]), lang)
        else if s[i] in {'"', '\'', '`'} then [s[i]] + Masked(s, i + 1, Quoted(s[i]), lang)
        else [s[i]] + Masked(s, i + 1, Code, lang)
      case Line =>
        if s[i] == '\n' then Masked(s, i, Code, lang) else [' '] + Masked(s, i + 1, Line, lang)
      case Block =>
        if IsPair(s, i, '*', '/') then [' ', ' '] + Masked(s, i + 2, Code, lang)
        else [Blank(s[i])] + Masked(s, i + 1, Block, lang)
      case Triple(q) =>
        if Tripled(s, i, q) then [' ', ' ', ' '] + Masked(s, i + 3, Code, lang)
        else [Blank(s[i])] + Masked(s, i + 1, mode, lang)
      case Quoted(q) =>
        if s[i] == q then [q] + Masked(s, i + 1, Code, lang)
        else if s[i] == '\\' && i + 1 < |s| then [' ', Blank(s[i + 1])] + Masked(s, i + 2, mode, lang)
        else if s[i] == '\n' && q != '`' then ['\n'] + Masked(s, i + 1, Code, lang)
        else [Blank(s[i])] + Masked(s, i + 1, mode, lang)
  }

  // ----- one step of the lexer in each mode -----

  function Spaces(n: nat): string { seq(n, i => ' ') }

  lemma BlockOpens(s: string, i: nat, lang: Language)
    requires lang.Slash? && IsPair(s, i, '/', '*')
    ensures Masked(s, i, Code, lang) == Spaces(2) + Masked(s, i + 2, Block, lang)
  {
    assert Spaces(2) == [' ', ' '];
  }

  lemma BlockGoesOn(s: string, i: nat, lang: Language)
    requires i < |s| && !IsPair(s, i, '*', '/')
    ensures Masked(s, i, Block, lang) == [Blank(s[i])] + Masked(s, i + 1, Block, lang)
  {
  }

  lemma BlockCloses(s: string, i: nat, lang: Language)
    requires IsPair(s, i, '*', '/')
    ensures Masked(s, i, Block, lang) == Spaces(2) + Masked(s, i + 2, Code, lang)
  {
    assert Spaces(2) == [' ', ' '];
  }

  lemma TripleOpens(s: string, i: nat, lang: Language)
    requires lang.Python? && i < |s| && s[i] in {'"', '\''} && Tripled(s, i, s[i])
    ensures Masked(s, i, Code, lang) == Spaces(3) + Masked(s, i + 3, Triple(s[i]), lang)
  {
    assert Spaces(3) == [' ', ' ', ' '];
  }

  lemma TripleGoesOn(s: string, i: nat, q: char, lang: Language)
    requires i < |s| && Literal(Triple(q)) && !Tripled(s, i, q)
    ensures Masked(s, i, Triple(q), lang) == [Blank(s[i])] + Masked(s, i + 1, Triple(q), lang)
  {
  }

  lemma TripleCloses(s: string, i: nat, q: char, lang: Language)
    requires i < |s| && Literal(Triple(q)) && Tripled(s, i, q)
    ensures Masked(s, i, Triple(q), lang) == Spaces(3) + Masked(s, i + 3, Code, lang)
  {
    assert Spaces(3) == [' ', ' ', ' '];
  }

  lemma BodyBlanks(s: string, i: nat, q: char, lang: Language)
    requires i < |s| && Literal(Quoted(q)) && s[i] != q
    requires !(s[i] == '\\' && i + 1 < |s|) && !(s[i] == '\n' && q != '`')
    ensures Masked(s, i, Quoted(q), lang) == [Blank(s[i])] + Masked(s, i + 1, Quoted(q), lang)
  {
  }

  lemma LineOpens(s: string, i: nat, lang: Language)
    requires i < |s| && ((!lang.Slash? && s[i] == '#') || (lang.Slash? && IsPair(s, i, '/', '/')))
    ensures Masked(s, i, Code, lang) == [' '] + Masked(s, i + 1, Line, lang) && s[i] != '\n'
  {
  }

  lemma QuoteOpens(s: string, i: nat, lang: Language)
    requires i < |s| && s[i] in {'"', '\'', '`'}
    requires !(lang.Python? && s[i] in {'"', '\''} && Tripled(s, i, s[i]))
    ensures Masked(s, i, Code, lang) == [s[i]] + Masked(s, i + 1, Quoted(s[i]), lang)
  {
  }

  lemma LineGoesOn(s: string, i: nat, lang: Language)
    requires i < |s| && s[i] != '\n'
    ensures Masked(s, i, Line, lang) == [' '] + Masked(s, i + 1, Line, lang)
  {
  }

  lemma LineStops(s: string, i: nat, lang: Language)
    requires i >= |s| || s[i] == '\n'
    ensures Masked(s, i, Line, lang) == Masked(s, i, Code, lang)
  {
  }

  lemma NothingLeft(s: string, i: nat, mode: Mode, lang: Language)
    requires i >= |s| && Literal(mode)
    ensures Masked(s, i, mode, lang) == ""
  {
  }

  lemma BodyEscapes(s: string, i: nat, q: char, lang: Language)
    requires i + 1 < |s| && Literal(Quoted(q)) && s[i] == '\\'
    ensures Masked(s, i, Quoted(q), lang) == [' ', Blank(s[i + 1])] + Masked(s, i + 2, Quoted(q), lang)
  {
    assert s[i] != q;
  }

  lemma BodyEnds(s: string, i: nat, q: char, lang: Language)
    requires i < |s| && Literal(Quoted(q)) && (s[i] == q || (s[i] == '\n' && q != '`'))
    ensures Masked(s, i, Quoted(q), lang) == [s[i]] + Masked(s, i + 1, Code, lang)
  {
  }
}
