/** Blanking everything in a PHP file that is not code, and finding function bodies in what is left. */
module Php {
  import opened Optional
  import opened SourceLines
  import opened Lexer
  import opened Braces
  import opened PhpTurns
  import opened PhpRegions

  method BlankRange(out: array<char>, start: nat, end: nat)
    modifies out
    ensures forall k | 0 <= k < out.Length ::
              out[k] == if start <= k < end then Blank(old(out[k])) else old(out[k])
  {
    var stop := if end < out.Length then end else out.Length;
    var k := start;
    while k < stop
      invariant start <= k && (k <= stop || k == start)
      invariant forall l | 0 <= l < out.Length ::
                  out[l] == if start <= l < k && l < end then Blank(old(out[l])) else old(out[l])
    {
      if out[k] != '\n' {
        out[k] := ' ';
      }
      k := k + 1;
    }
  }

  method SkipQuoted(text: string, i: nat) returns (j: nat)
    requires i < |text|
    ensures j == QuoteEnd(text, text[i], i + 1)
  {
    var quote, n := text[i], |text|;
    j := i + 1;
    while j < n && text[j] != quote
      invariant i < j && QuoteEnd(text, quote, i + 1) == QuoteEnd(text, quote, j)
    {
      j := j + if text[j] == '\\' then 2 else 1;
    }
  }

  /** On every text the loop ends for, exactly what is not code is blanked, newlines apart. */
  method PhpCode(h: Heredoc, text: string) returns (code: string)
    requires Ends(h, text)
    ensures |code| == |text| && forall k | 0 <= k < |text| :: code[k] == Final(h, text, k)
    ensures exists regions :: RegionsFrom(h, text, 0, false, regions)
    ensures forall regions, k | RegionsFrom(h, text, 0, false, regions) && 0 <= k < |text| ::
              code[k] == if NotCode(regions, k) then Blank(text[k]) else text[k]
  {
    hide RegionsFrom, NotCode;
    hide Remains, Final, Ends, HeredocEnd, FindPair, QuoteEnd, NextNewline, Blank;
    var n := |text|;
    var out := new char[n](k requires 0 <= k < n => text[k]);
    var i: nat, php := 0, false;
    assert out[..] == text;
    NothingTurned(h, text);
    ghost var left: nat := 2 * n;
    while i < n
      invariant 0 <= i && Remains(h, text, i, php, left, out[..])
      decreases left
    {
      ghost var before := out[..];
      ghost var start: nat, inPhp, m := i, php, Next(h, text, i, php);
      if !php {
        var j := FindPair(text, '<', '?', i);
        BlankRange(out, i, j);
        if j == n {
          i := n;
        } else {
          php, i := true, j + if StartsWith(text, j, "<?php") then 5 else 2;
        }
        assert m == Move(i, php, start, j);
      } else if IsPair(text, i, '?', '>') {
        php, i := false, i + 2;
        assert m == Move(i, php, start, start);
      } else if IsPair(text, i, '/', '/') || (text[i] == '#' && !IsPair(text, i, '#', '[')) {
        var a, b := NextNewline(text, i), FindPair(text, '?', '>', i);
        var j := if a < b then a else b;
        BlankRange(out, i, j);
        i := j;
        assert m == Move(i, php, start, j);
      } else if IsPair(text, i, '/', '*') {
        assert i + 2 <= n;
        var k := FindPair(text, '*', '/', i + 2);
        var j := if k == n then n else k + 2;
        BlankRange(out, i, j);
        i := j;
        assert m == Move(i, php, start, j);
      } else if StartsWith(text, i, "<<<") {
        assert i + 3 <= n;
        var j := HeredocEnd(h, text, i);
        BlankRange(out, i, j);
        i := j;
        assert m == Move(i, php, start, j);
      } else if text[i] in {'\'', '"'} {
        var j := SkipQuoted(text, i);
        BlankRange(out, i + 1, j);
        i := j + 1;
        assert m == Move(i, php, start + 1, j);
      } else {
        i := i + 1;
        assert m == Move(i, php, start, start);
      }
      TurnRemains(h, text, start, inPhp, left, before, out[..]);
      left := left - 1;
    }
    code := out[..];
    assert Remains(h, text, i, php, left, code);
    AllTurnsDone(h, text, i, php, left, code);
    RegionsIffEnds(h, text);
    forall regions, k | RegionsFrom(h, text, 0, false, regions) && 0 <= k < |text|
      ensures Final(h, text, k) == if NotCode(regions, k) then Blank(text[k]) else text[k]
    {
      FinalIsCode(h, text, regions, k);
    }
  }

  /** Offsets and lines of the blanked file are those of the file. */
  lemma PhpKeepsLines(h: Heredoc, text: string, code: string, pos: nat)
    requires |code| == |text| && forall k | 0 <= k < |text| :: code[k] == Final(h, text, k)
    ensures Blanked(text, 0, code) && Offsets(code) == Offsets(text) && LineAt(code, pos) == LineAt(text, pos)
  {
    hide Hidden;
    SameLines(code, text);
    var n := if pos < |text| then pos else |text|;
    SameLines(code[..n], text[..n]);
  }

  // ----- function bodies -----

  /** A match of the function header in the blanked file. */
  datatype Header = Header(name: string, start: nat, end: nat)

  datatype Span = Span(name: string, first: nat, last: nat)

  function FindChar(s: string, ch: char, i: nat): (k: nat)
    requires i <= |s|
    ensures i <= k <= |s| && (k < |s| ==> s[k] == ch) && forall l | i <= l < k :: s[l] != ch
    decreases |s| - i
  {
    if i == |s| || s[i] == ch then i else FindChar(s, ch, i + 1)
  }

  /** Not an abstract or interface method: a brace comes before any semicolon. */
  predicate HasBody(code: string, header: Header)
    requires header.end <= |code|
  {
    var brace := FindChar(code, '{', header.end);
    brace < |code| && brace <= FindChar(code, ';', header.end)
  }

  /** The body runs to the matching brace, or to the end of the file when there is none. */
  ghost predicate BodyEnds(code: string, brace: nat, k: nat) {
    if k < |code| then Match(code, brace, k) else k == |code| && forall j: nat :: !Match(code, brace, j)
  }

  ghost predicate IsSpan(code: string, header: Header, span: Span)
    requires header.end <= |code|
  {
    && span.name == header.name && span.first == LineAt(code, header.start)
    && exists k: nat :: BodyEnds(code, FindChar(code, '{', header.end), k) && span.last == LineAt(code, k)
  }

  /** One span for every header with a body, in order. */
  ghost predicate AreSpans(code: string, headers: seq<Header>, spans: seq<Span>)
    requires forall header | header in headers :: header.end <= |code|
  {
    if headers == [] then spans == []
    else
      var front, last := headers[..|headers| - 1], headers[|headers| - 1];
      if HasBody(code, last) then
        spans != [] && IsSpan(code, last, spans[|spans| - 1]) && AreSpans(code, front, spans[..|spans| - 1])
      else AreSpans(code, front, spans)
  }

  method BodyEnd(code: string, brace: nat) returns (k: nat)
    requires brace < |code| && code[brace] == '{'
    ensures BodyEnds(code, brace, k)
  {
    var depth := 0;
    k := brace;
    while k < |code|
      invariant brace <= k <= |code| && depth == Depth(code, brace, k) && (k > brace ==> Open(code, brace, k))
    {
      depth := depth + Delta(code[k]);
      if depth == 0 {
        break;
      }
      k := k + 1;
    }
  }

  method PhpFunctions(code: string, headers: seq<Header>) returns (spans: seq<Span>)
    requires forall header | header in headers :: header.end <= |code|
    ensures AreSpans(code, headers, spans)
  {
    hide BodyEnds, LineAt;
    spans := [];
    for n := 0 to |headers|
      invariant AreSpans(code, headers[..n], spans)
    {
      var header := headers[n];
      assert headers[..n + 1][..n] == headers[..n];
      var brace, semi := FindChar(code, '{', header.end), FindChar(code, ';', header.end);
      if brace == |code| || semi < brace {
        continue;
      }
      var k := BodyEnd(code, brace);
      var span := Span(header.name, LineAt(code, header.start), LineAt(code, k));
      assert (spans + [span])[..|spans|] == spans;
      spans := spans + [span];
    }
    assert headers[..|headers|] == headers;
  }

  /** Two bodies nest or are apart. */
  lemma BodiesNest(code: string, brace: nat, k: nat, brace': nat, k': nat)
    requires brace < brace' < |code| && code[brace] == code[brace'] == '{'
    requires BodyEnds(code, brace, k) && BodyEnds(code, brace', k')
    ensures k < brace' || (brace' < k && k' <= k)
  {
    if k < |code| && brace' < k {
      GroupsNest(code, brace, k, brace');
      var j': nat :| Match(code, brace', j') && j' < k;
      if k' < |code| {
        MatchUnique(code, brace', j', k');
      }
    }
  }

  /** Spans computed on the blanked file are lines of the file itself. */
  lemma SpansAreSourceLines(h: Heredoc, text: string, code: string, header: Header, span: Span)
    requires |code| == |text| && header.end <= |code| && forall k | 0 <= k < |text| :: code[k] == Final(h, text, k)
    requires IsSpan(code, header, span)
    ensures span.first == LineAt(text, header.start)
    ensures exists k: nat :: BodyEnds(code, FindChar(code, '{', header.end), k) && span.last == LineAt(text, k)
  {
    PhpKeepsLines(h, text, code, header.start);
    var k: nat :| BodyEnds(code, FindChar(code, '{', header.end), k) && span.last == LineAt(code, k);
    PhpKeepsLines(h, text, code, k);
  }
}
