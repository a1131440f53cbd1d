/** The tokens of a source, and which characters of them are blanked: what masking means, apart from any lexer. */
module Tokens {
  import opened Lexer

  datatype Kind = Plain | LineComment | BlockComment | TripleLiteral | QuotedLiteral

  /** The token at s[from..upto]. */
  datatype Token = Token(kind: Kind, from: nat, upto: nat)

  // ----- what starts and ends a token -----

  predicate OpensLine(s: string, i: nat, lang: Language) {
    i < |s| && ((!lang.Slash? && s[i] == '#') || (lang.Slash? && IsPair(s, i, '/', '/')))
  }

  predicate OpensBlock(s: string, i: nat, lang: Language) {
    lang.Slash? && IsPair(s, i, '/', '*')
  }

  predicate OpensTriple(s: string, i: nat, lang: Language) {
    lang.Python? && i < |s| && s[i] in {'"', '\''} && Tripled(s, i, s[i])
  }

  predicate OpensQuoted(s: string, i: nat, lang: Language) {
    i < |s| && s[i] in {'"', '\'', '`'} && !OpensTriple(s, i, lang)
  }

  /** An unescaped backslash of the body that begins at b stands right before j. */
  predicate Escaped(s: string, b: nat, j: nat)
    decreases j
  {
    b < j <= |s| && s[j - 1] == '\\' && !Escaped(s, b, j - 1)
  }

  /** The literal whose body begins at b ends with the character at c: its unescaped quote, or its newline unless it is
      a template. */
  predicate Closes(s: string, b: nat, q: char, c: nat) {
    b <= c < |s| && !Escaped(s, b, c) && (s[c] == q || (s[c] == '\n' && q != '`'))
  }

  predicate NoPair(s: string, i: nat, n: nat) {
    forall c: nat | i <= c < n :: !IsPair(s, c, '*', '/')
  }

  predicate NoTriple(s: string, i: nat, q: char, n: nat) {
    forall c: nat | i <= c < n :: !Tripled(s, c, q)
  }

  predicate NoClose(s: string, b: nat, i: nat, q: char, n: nat) {
    forall c: nat | i <= c < n :: !Closes(s, b, q, c)
  }

  /** A block comment ends after the first closer from i on, or with the source. */
  predicate BlockEnds(s: string, i: nat, upto: nat) {
    && i <= upto <= |s|
    && ((i + 2 <= upto && IsPair(s, upto - 2, '*', '/') && NoPair(s, i, upto - 2))
        || (upto == |s| && NoPair(s, i, |s|)))
  }

  /** A triple literal likewise. */
  predicate TripleEnds(s: string, i: nat, q: char, upto: nat) {
    && i <= upto <= |s|
    && ((i + 3 <= upto && Tripled(s, upto - 3, q) && NoTriple(s, i, q, upto - 3))
        || (upto == |s| && NoTriple(s, i, q, |s|)))
  }

  /** And so does a quoted literal whose body begins at b. */
  predicate QuotedEnds(s: string, b: nat, i: nat, q: char, upto: nat) {
    && b <= i <= upto <= |s|
    && ((i < upto && Closes(s, b, q, upto - 1) && NoClose(s, b, i, q, upto - 1))
        || (upto == |s| && NoClose(s, b, i, q, |s|)))
  }

  /** A token runs from its opener to its first closer, or to the end of the source when there is none; a line comment
      stops before its newline, and what opens nothing is a token of its own. */
  predicate WellFormed(s: string, lang: Language, t: Token) {
    && t.from < t.upto <= |s|
    && match t.kind
       case Plain =>
         && t.upto == t.from + 1
         && !OpensLine(s, t.from, lang) && !OpensBlock(s, t.from, lang)
         && !OpensTriple(s, t.from, lang) && !OpensQuoted(s, t.from, lang)
       case LineComment =>
         && OpensLine(s, t.from, lang) && (t.upto == |s| || s[t.upto] == '\n')
         && forall k | t.from <= k < t.upto :: s[k] != '\n'
       case BlockComment => OpensBlock(s, t.from, lang) && BlockEnds(s, t.from + 2, t.upto)
       case TripleLiteral => OpensTriple(s, t.from, lang) && TripleEnds(s, t.from + 3, s[t.from], t.upto)
       case QuotedLiteral => OpensQuoted(s, t.from, lang) && QuotedEnds(s, t.from + 1, t.from + 1, s[t.from], t.upto)
  }

  /** The character lies in a comment, in a triple literal with its delimiters, or in the body of a quoted literal. */
  predicate Inside(s: string, t: Token, k: nat) {
    && t.from <= k < t.upto <= |s|
    && match t.kind
       case Plain => false
       case QuotedLiteral => k > t.from && !Closes(s, t.from + 1, s[t.from], k)
       case _ => true
  }

  /** These tokens, one after the other, make up the source from i on. */
  predicate TokensFrom(s: string, lang: Language, i: nat, tokens: seq<Token>)
    decreases |tokens|
  {
    if tokens == [] then i == |s|
    else
      && tokens[0].from == i && WellFormed(s, lang, tokens[0])
      && TokensFrom(s, lang, tokens[0].upto, tokens[1..])
  }

  ghost predicate Covered(s: string, tokens: seq<Token>, k: nat) {
    exists n :: 0 <= n < |tokens| && Inside(s, tokens[n], k)
  }

  // ----- every source has its tokens -----

  /** The first place from lo on where p holds, or hi. */
  lemma {:induction false} First(p: nat -> bool, lo: nat, hi: nat) returns (c: nat)
    requires lo <= hi
    ensures lo <= c <= hi && (c < hi ==> p(c)) && forall k: nat | lo <= k < c :: !p(k)
    decreases hi - lo
  {
    if lo == hi || p(lo) {
      c := lo;
    } else {
      c := First(p, lo + 1, hi);
    }
  }

  lemma TokenAt(s: string, lang: Language, i: nat) returns (t: Token)
    requires i < |s|
    ensures t.from == i && WellFormed(s, lang, t)
  {
    if OpensLine(s, i, lang) {
      var p := (k: nat) => k < |s| && s[k] == '\n';
      var c := First(p, i, |s|);
      t := Token(LineComment, i, c);
      assert s[i] != '\n' && !p(i);
      forall k: nat | i <= k < c ensures s[k] != '\n' { assert !p(k); }
    } else if OpensBlock(s, i, lang) {
      t := BlockAt(s, lang, i);
    } else if OpensTriple(s, i, lang) {
      t := TripleAt(s, lang, i);
    } else if OpensQuoted(s, i, lang) {
      t := QuotedAt(s, lang, i);
    } else {
      t := Token(Plain, i, i + 1);
    }
  }

  lemma BlockAt(s: string, lang: Language, i: nat) returns (t: Token)
    requires OpensBlock(s, i, lang)
    ensures t.from == i && WellFormed(s, lang, t)
  {
    var p := (k: nat) => IsPair(s, k, '*', '/');
    var c := First(p, i + 2, |s|);
    t := Token(BlockComment, i, if c < |s| then c + 2 else |s|);
    forall k: nat | i + 2 <= k < c ensures !IsPair(s, k, '*', '/') { assert !p(k); }
  }

  lemma TripleAt(s: string, lang: Language, i: nat) returns (t: Token)
    requires OpensTriple(s, i, lang)
    ensures t.from == i && WellFormed(s, lang, t)
  {
    var q := s[i];
    var p := (k: nat) => Tripled(s, k, q);
    var c := First(p, i + 3, |s|);
    t := Token(TripleLiteral, i, if c < |s| then c + 3 else |s|);
    forall k: nat | i + 3 <= k < c ensures !Tripled(s, k, q) { assert !p(k); }
  }

  lemma QuotedAt(s: string, lang: Language, i: nat) returns (t: Token)
    requires OpensQuoted(s, i, lang)
    ensures t.from == i && WellFormed(s, lang, t)
  {
    hide Escaped;
    var b, q := i + 1, s[i];
    var p := (k: nat) => Closes(s, b, q, k);
    var c := First(p, b, |s|);
    t := Token(QuotedLiteral, i, if c < |s| then c + 1 else |s|);
    forall k: nat | b <= k < c ensures !Closes(s, b, q, k) { assert !p(k); }
  }

  lemma {:induction false} TokensExist(s: string, lang: Language, i: nat) returns (tokens: seq<Token>)
    requires i <= |s|
    ensures TokensFrom(s, lang, i, tokens)
    decreases |s| - i
  {
    hide WellFormed;
    if i == |s| {
      tokens := [];
    } else {
      var t := TokenAt(s, lang, i);
      InRange(s, lang, t);
      var rest := TokensExist(s, lang, t.upto);
      tokens := [t] + rest;
      assert tokens[1..] == rest;
    }
  }

  lemma InRange(s: string, lang: Language, t: Token)
    requires WellFormed(s, lang, t)
    ensures t.from < t.upto <= |s|
  {
  }

  // ----- the lexer masks exactly what lies inside -----

  /** A stretch with everything but its newlines blank. */
  function Blanks(s: string, i: nat, upto: nat): (t: string)
    requires i <= upto <= |s|
    ensures |t| == upto - i
  {
    seq(upto - i, x requires 0 <= x < upto - i => Blank(s[i + x]))
  }

  /** A token as it is masked. */
  function Shade(s: string, t: Token): (r: string)
    requires t.from <= t.upto <= |s|
    ensures |r| == t.upto - t.from
  {
    seq(t.upto - t.from, x requires 0 <= x < t.upto - t.from =>
      if Inside(s, t, t.from + x) then Blank(s[t.from + x]) else s[t.from + x])
  }

  lemma OneBlank(s: string, i: nat)
    requires i < |s|
    ensures Blanks(s, i, i + 1) == [Blank(s[i])]
  {
    assert Blanks(s, i, i + 1)[0] == Blank(s[i + 0]);
  }

  lemma TwoBlanks(s: string, i: nat)
    requires i + 1 < |s|
    ensures Blanks(s, i, i + 2) == [Blank(s[i]), Blank(s[i + 1])]
  {
    assert Blanks(s, i, i + 2)[0] == Blank(s[i + 0]) && Blanks(s, i, i + 2)[1] == Blank(s[i + 1]);
  }

  /** A stretch without newlines is all blank. */
  lemma AllBlank(s: string, i: nat, upto: nat)
    requires i <= upto <= |s| && forall k | i <= k < upto :: s[k] != '\n'
    ensures Blanks(s, i, upto) == Spaces(upto - i)
  {
    forall x | 0 <= x < upto - i ensures Blanks(s, i, upto)[x] == ' ' {
      assert s[i + x] != '\n' && Blanks(s, i, upto)[x] == Blank(s[i + x]);
    }
  }

  lemma BlanksFront(s: string, i: nat, j: nat, upto: nat)
    requires i <= j <= upto <= |s|
    ensures Blanks(s, i, upto) == Blanks(s, i, j) + Blanks(s, j, upto)
  {
  }

  lemma {:induction false} LineRuns(s: string, i: nat, upto: nat, lang: Language)
    requires i <= upto <= |s| && (upto == |s| || s[upto] == '\n') && forall k | i <= k < upto :: s[k] != '\n'
    ensures Masked(s, i, Line, lang) == Blanks(s, i, upto) + Masked(s, upto, Code, lang)
    decreases upto - i
  {
    hide Masked, Blanked;
    if i == upto {
      LineStops(s, i, lang);
    } else {
      LineGoesOn(s, i, lang);
      LineRuns(s, i + 1, upto, lang);
      BlanksFront(s, i, i + 1, upto);
      OneBlank(s, i);
    }
  }

  lemma {:induction false} BlockRuns(s: string, i: nat, upto: nat, lang: Language)
    requires BlockEnds(s, i, upto)
    ensures Masked(s, i, Block, lang) == Blanks(s, i, upto) + Masked(s, upto, Code, lang)
    decreases upto - i
  {
    hide Masked, Blanked;
    if i == |s| {
      NothingLeft(s, i, Block, lang);
      NothingLeft(s, i, Code, lang);
    } else if IsPair(s, i, '*', '/') {
      assert upto == i + 2;
      BlockCloses(s, i, lang);
      AllBlank(s, i, upto);
    } else {
      BlockGoesOn(s, i, lang);
      BlockRuns(s, i + 1, upto, lang);
      BlanksFront(s, i, i + 1, upto);
      OneBlank(s, i);
    }
  }

  lemma {:induction false} TripleRuns(s: string, i: nat, q: char, upto: nat, lang: Language)
    requires TripleEnds(s, i, q, upto) && Literal(Triple(q))
    ensures Masked(s, i, Triple(q), lang) == Blanks(s, i, upto) + Masked(s, upto, Code, lang)
    decreases upto - i
  {
    hide Masked, Blanked;
    if i == |s| {
      NothingLeft(s, i, Triple(q), lang);
      NothingLeft(s, i, Code, lang);
    } else if Tripled(s, i, q) {
      assert upto == i + 3;
      TripleCloses(s, i, q, lang);
      AllBlank(s, i, upto);
    } else {
      TripleGoesOn(s, i, q, lang);
      TripleRuns(s, i + 1, q, upto, lang);
      BlanksFront(s, i, i + 1, upto);
      OneBlank(s, i);
    }
  }

  /** The rest of a quoted literal from i on, its closer kept. */
  function Rest(s: string, b: nat, i: nat, q: char, upto: nat): string
    requires i <= upto <= |s|
  {
    if i < upto && Closes(s, b, q, upto - 1) then Blanks(s, i, upto - 1) + [s[upto - 1]] else Blanks(s, i, upto)
  }

  lemma EscapeSkips(s: string, b: nat, i: nat)
    requires b <= i && i + 1 < |s| && s[i] == '\\' && !Escaped(s, b, i)
    ensures Escaped(s, b, i + 1) && !Escaped(s, b, i + 2)
  {
  }

  lemma PlainNext(s: string, b: nat, i: nat)
    requires b <= i < |s| && (s[i] != '\\' || i + 1 == |s|)
    ensures i + 1 < |s| ==> !Escaped(s, b, i + 1)
  {
  }

  /** From an unescaped place of its body a quoted literal is blank up to its closer. */
  lemma {:induction false} QuotedRuns(s: string, b: nat, i: nat, q: char, upto: nat, lang: Language)
    requires QuotedEnds(s, b, i, q, upto) && Literal(Quoted(q)) && (i < |s| ==> !Escaped(s, b, i))
    ensures Masked(s, i, Quoted(q), lang) == Rest(s, b, i, q, upto) + Masked(s, upto, Code, lang)
    decreases upto - i
  {
    hide Masked, Blanked, Escaped, Rest, Blanks;
    if i == |s| {
      RestEnds(s, b, i, q, upto);
      NothingLeft(s, i, Quoted(q), lang);
      NothingLeft(s, i, Code, lang);
    } else if Closes(s, b, q, i) {
      assert upto == i + 1;
      RestEnds(s, b, i, q, upto);
      BodyEnds(s, i, q, lang);
    } else if s[i] == '\\' && i + 1 < |s| {
      EscapeSkips(s, b, i);
      BodyEscapes(s, i, q, lang);
      TwoBlanks(s, i);
      QuotedRuns(s, b, i + 2, q, upto, lang);
      RestFront(s, b, i, i + 2, q, upto);
    } else {
      PlainNext(s, b, i);
      BodyBlanks(s, i, q, lang);
      OneBlank(s, i);
      QuotedRuns(s, b, i + 1, q, upto, lang);
      RestFront(s, b, i, i + 1, q, upto);
    }
  }

  lemma RestEnds(s: string, b: nat, i: nat, q: char, upto: nat)
    requires i <= upto <= |s| && (i == upto || (upto == i + 1 && Closes(s, b, q, i)))
    ensures Rest(s, b, i, q, upto) == s[i..upto]
  {
  }

  lemma RestFront(s: string, b: nat, i: nat, j: nat, q: char, upto: nat)
    requires i < j <= upto <= |s| && (j == upto ==> !Closes(s, b, q, upto - 1))
    ensures Rest(s, b, i, q, upto) == Blanks(s, i, j) + Rest(s, b, j, q, upto)
  {
    hide Closes;
    if j < upto && Closes(s, b, q, upto - 1) {
      BlanksFront(s, i, j, upto - 1);
    } else {
      BlanksFront(s, i, j, upto);
    }
  }

  /** A token is masked as its shade. */
  lemma TokenMasked(s: string, lang: Language, t: Token)
    requires WellFormed(s, lang, t)
    ensures Masked(s, t.from, Code, lang) == Shade(s, t) + Masked(s, t.upto, Code, lang)
  {
    hide Blanked, Escaped;
    match t.kind
    case Plain =>
      PlainShade(s, t);
    case LineComment =>
      LineMasked(s, lang, t);
    case BlockComment =>
      BlockMasked(s, lang, t);
    case TripleLiteral =>
      TripleMasked(s, lang, t);
    case QuotedLiteral =>
      QuotedMasked(s, lang, t);
  }

  lemma PlainShade(s: string, t: Token)
    requires t.kind == Plain && t.from < t.upto <= |s| && t.upto == t.from + 1
    ensures Shade(s, t) == [s[t.from]]
  {
    var r := Shade(s, t);
    assert !Inside(s, t, t.from + 0);
    assert r[0] == s[t.from];
  }

  lemma LineMasked(s: string, lang: Language, t: Token)
    requires WellFormed(s, lang, t) && t.kind == LineComment
    ensures Masked(s, t.from, Code, lang) == Shade(s, t) + Masked(s, t.upto, Code, lang)
  {
    hide Masked, Blanked;
    LineOpens(s, t.from, lang);
    LineRuns(s, t.from + 1, t.upto, lang);
    BlanksFront(s, t.from, t.from + 1, t.upto);
    OneBlank(s, t.from);
    ShadeIsBlank(s, t);
  }

  lemma BlockMasked(s: string, lang: Language, t: Token)
    requires WellFormed(s, lang, t) && t.kind == BlockComment
    ensures Masked(s, t.from, Code, lang) == Shade(s, t) + Masked(s, t.upto, Code, lang)
  {
    hide Masked, Blanked;
    BlockOpens(s, t.from, lang);
    BlockRuns(s, t.from + 2, t.upto, lang);
    BlanksFront(s, t.from, t.from + 2, t.upto);
    AllBlank(s, t.from, t.from + 2);
    ShadeIsBlank(s, t);
  }

  lemma TripleMasked(s: string, lang: Language, t: Token)
    requires WellFormed(s, lang, t) && t.kind == TripleLiteral
    ensures Masked(s, t.from, Code, lang) == Shade(s, t) + Masked(s, t.upto, Code, lang)
  {
    hide Masked, Blanked;
    TripleOpens(s, t.from, lang);
    TripleRuns(s, t.from + 3, s[t.from], t.upto, lang);
    BlanksFront(s, t.from, t.from + 3, t.upto);
    AllBlank(s, t.from, t.from + 3);
    ShadeIsBlank(s, t);
  }

  lemma ShadeIsBlank(s: string, t: Token)
    requires t.from <= t.upto <= |s| && t.kind != Plain && t.kind != QuotedLiteral
    ensures Shade(s, t) == Blanks(s, t.from, t.upto)
  {
    forall x | 0 <= x < t.upto - t.from ensures Shade(s, t)[x] == Blanks(s, t.from, t.upto)[x] {
      assert Inside(s, t, t.from + x);
    }
  }

  lemma QuotedMasked(s: string, lang: Language, t: Token)
    requires WellFormed(s, lang, t) && t.kind == QuotedLiteral
    ensures Masked(s, t.from, Code, lang) == Shade(s, t) + Masked(s, t.upto, Code, lang)
  {
    hide Masked, Blanked, Escaped;
    var b, q := t.from + 1, s[t.from];
    QuoteOpens(s, t.from, lang);
    StartIsPlain(s, b);
    QuotedRuns(s, b, b, q, t.upto, lang);
    ShadeIsRest(s, t);
  }

  lemma StartIsPlain(s: string, b: nat)
    ensures !Escaped(s, b, b)
  {
  }

  lemma ShadeIsRest(s: string, t: Token)
    requires t.from < t.upto <= |s| && t.kind == QuotedLiteral
    requires QuotedEnds(s, t.from + 1, t.from + 1, s[t.from], t.upto)
    ensures Shade(s, t) == [s[t.from]] + Rest(s, t.from + 1, t.from + 1, s[t.from], t.upto)
  {
    hide Escaped;
    var b, q := t.from + 1, s[t.from];
    var all := [q] + Rest(s, b, b, q, t.upto);
    assert |all| == t.upto - t.from;
    forall x | 0 <= x < |all| ensures Shade(s, t)[x] == all[x] {
      var k := t.from + x;
      assert Shade(s, t)[x] == if Inside(s, t, k) then Blank(s[k]) else s[k];
      if b <= k < t.upto - 1 { assert !Closes(s, b, q, k); }
    }
  }

  /** The whole source: a character is blanked if and only if a token holds it inside, newlines apart. */
  lemma {:induction false} MaskedIsTokenwise(s: string, lang: Language, i: nat, tokens: seq<Token>)
    requires TokensFrom(s, lang, i, tokens) && i <= |s|
    ensures var t := Masked(s, i, Code, lang);
            |t| == |s| - i && forall k | i <= k < |s| :: t[k - i] == if Covered(s, tokens, k) then Blank(s[k]) else s[k]
    decreases |tokens|
  {
    hide Masked, Blanked, WellFormed, Inside;
    if tokens == [] {
      NothingLeft(s, i, Code, lang);
    } else {
      var t, rest := tokens[0], tokens[1..];
      InRange(s, lang, t);
      TokenMasked(s, lang, t);
      MaskedIsTokenwise(s, lang, t.upto, rest);
      var m := Masked(s, i, Code, lang);
      forall k | i <= k < |s| ensures m[k - i] == if Covered(s, tokens, k) then Blank(s[k]) else s[k] {
        CoveredFront(s, lang, tokens, k);
        if k < t.upto {
          assert m[k - i] == Shade(s, t)[k - i];
        } else {
          assert m[k - i] == Masked(s, t.upto, Code, lang)[k - t.upto];
        }
      }
    }
  }

  /** A character of the first token lies inside nothing later, and one behind it not inside the first. */
  lemma CoveredFront(s: string, lang: Language, tokens: seq<Token>, k: nat)
    requires tokens != [] && TokensFrom(s, lang, tokens[0].from, tokens) && tokens[0].from <= k < |s|
    ensures Covered(s, tokens, k) <==>
              if k < tokens[0].upto then Inside(s, tokens[0], k) else Covered(s, tokens[1..], k)
  {
    hide WellFormed;
    var rest := tokens[1..];
    InRange(s, lang, tokens[0]);
    forall n | 0 <= n < |rest| && Inside(s, rest[n], k) ensures k >= tokens[0].upto {
      StartsLater(s, lang, tokens[0].upto, rest, n);
    }
    forall n | 0 <= n < |tokens| && Inside(s, tokens[n], k) ensures n == 0 || Inside(s, rest[n - 1], k) {
    }
    forall n | 0 <= n < |rest| && Inside(s, rest[n], k) ensures Inside(s, tokens[n + 1], k) {
    }
  }

  lemma {:induction false} StartsLater(s: string, lang: Language, i: nat, tokens: seq<Token>, n: nat)
    requires TokensFrom(s, lang, i, tokens) && n < |tokens|
    ensures i <= tokens[n].from
    decreases n
  {
    if n > 0 {
      InRange(s, lang, tokens[0]);
      StartsLater(s, lang, tokens[0].upto, tokens[1..], n - 1);
    }
  }
}
