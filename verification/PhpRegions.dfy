/** The regions of a PHP file and which characters of them are blanked: what the scanner means, apart from its turns. */
module PhpRegions {
  import opened Optional
  import opened Lexer
  import opened Tokens
  import opened Braces
  import opened PhpTurns

  datatype Kind = Html | CloseTag | LineNote | BlockNote | HeredocNote | Literal | Plain

  /** A region from `from` on; what it blanks stops at `edge`, the next region starts at `next`, in code or not. */
  datatype Region = Region(kind: Kind, from: nat, edge: nat, next: nat, php: bool)

  predicate Without(s: string, a: char, b: char, i: nat, n: nat) {
    forall c: nat | i <= c < n :: !IsPair(s, c, a, b)
  }

  predicate NoNewline(s: string, i: nat, n: nat) {
    forall c: nat | i <= c < n && c < |s| :: s[c] != '\n'
  }

  predicate OpensNote(s: string, i: nat) {
    IsPair(s, i, '/', '/') || (i < |s| && s[i] == '#' && !IsPair(s, i, '#', '['))
  }

  /** The literal whose body begins at b ends at its unescaped quote. */
  predicate Shuts(s: string, b: nat, q: char, c: nat) {
    b <= c < |s| && !Escaped(s, b, c) && s[c] == q
  }

  predicate NoShut(s: string, b: nat, i: nat, q: char, n: nat) {
    forall c: nat | i <= c < n :: !Shuts(s, b, q, c)
  }

  /** The offset after the first newline from i on, or zero when there is none: where a closing label is searched. */
  predicate SearchedFrom(s: string, i: nat, from: nat) {
    || (from == 0 && NoNewline(s, i, |s|))
    || (i < from <= |s| && s[from - 1] == '\n' && NoNewline(s, i, from - 1))
  }

  /** Where a heredoc ends: behind its closing label, or behind the three opening characters when there is no label or
      it is not found. */
  ghost predicate HeredocEnds(h: Heredoc, s: string, i: nat, edge: nat) {
    match h.name(s, i)
    case None => edge == i + 3
    case Some(name) =>
      exists from :: SearchedFrom(s, i, from) &&
        match h.ends(s, name, from) { case None => edge == i + 3 case Some(end) => edge == end }
  }

  /** Inline HTML runs to the first opening tag; a line comment to its newline or closing tag; a block comment to its
      first closer; a heredoc to its label; a literal to its first unescaped quote; all else is code. */
  ghost predicate WellFormed(h: Heredoc, s: string, r: Region) {
    && r.from < |s|
    && match r.kind
       case Html =>
         && r.from <= r.edge <= |s| && Without(s, '<', '?', r.from, r.edge) && (r.php <==> r.edge < |s|)
         && (if r.php then IsPair(s, r.edge, '<', '?') && r.next == r.edge + (if "<?php" <= s[r.edge..] then 5 else 2)
             else r.next == |s|)
       case CloseTag => IsPair(s, r.from, '?', '>') && r.next == r.from + 2 && !r.php
       case LineNote =>
         && OpensNote(s, r.from) && r.from <= r.edge <= |s| && r.next == r.edge && r.php
         && NoNewline(s, r.from, r.edge) && Without(s, '?', '>', r.from, r.edge)
         && (r.edge == |s| || s[r.edge] == '\n' || IsPair(s, r.edge, '?', '>'))
       case BlockNote =>
         IsPair(s, r.from, '/', '*') && BlockEnds(s, r.from + 2, r.edge) && r.next == r.edge && r.php
       case HeredocNote =>
         "<<<" <= s[r.from..] && HeredocEnds(h, s, r.from, r.edge) && r.next == r.edge && r.php
       case Literal =>
         && s[r.from] in {'\'', '"'} && r.from < r.edge <= |s| && r.php
         && NoShut(s, r.from + 1, r.from + 1, s[r.from], r.edge)
         && (if r.edge < |s| then Shuts(s, r.from + 1, s[r.from], r.edge) && r.next == r.edge + 1 else r.next >= |s|)
       case Plain =>
         && r.next == r.from + 1 && r.php && !IsPair(s, r.from, '?', '>') && !OpensNote(s, r.from)
         && !IsPair(s, r.from, '/', '*') && !("<<<" <= s[r.from..]) && s[r.from] !in {'\'', '"'}
  }

  /** The character is not code: it lies in HTML, a comment, a heredoc, or the body of a literal. */
  predicate Hides(r: Region, k: nat) {
    match r.kind
    case CloseTag => false
    case Plain => false
    case Literal => r.from < k < r.edge
    case _ => r.from <= k < r.edge
  }

  /** These regions, each where the one before it leads, go from i to the end of the file. */
  ghost predicate RegionsFrom(h: Heredoc, s: string, i: nat, php: bool, regions: seq<Region>)
    decreases |regions|
  {
    if regions == [] then i >= |s|
    else
      && regions[0].from == i && (regions[0].kind == Html <==> !php) && WellFormed(h, s, regions[0])
      && RegionsFrom(h, s, regions[0].next, regions[0].php, regions[1..])
  }

  ghost predicate NotCode(regions: seq<Region>, k: nat) {
    exists n :: 0 <= n < |regions| && Hides(regions[n], k)
  }

  // ----- a region is a turn -----

  /** From an unescaped place, the scanner's quote is the first unescaped one. */
  lemma {:induction false} QuoteEndIs(s: string, b: nat, q: char, j: nat)
    requires b <= j && (j <= |s| ==> !Escaped(s, b, j)) && q != '\\'
    ensures var e := QuoteEnd(s, q, j);
            (e < |s| ==> Shuts(s, b, q, e)) && NoShut(s, b, j, q, if e < |s| then e else |s|)
    decreases |s| + 1 - j
  {
    if j < |s| && s[j] != q {
      if s[j] == '\\' {
        EscapedPair(s, b, j);
        QuoteEndIs(s, b, q, j + 2);
      } else {
        QuoteEndIs(s, b, q, j + 1);
      }
    }
  }

  lemma EscapedPair(s: string, b: nat, j: nat)
    requires b <= j < |s| && s[j] == '\\' && !Escaped(s, b, j)
    ensures Escaped(s, b, j + 1) && (j + 2 <= |s| ==> !Escaped(s, b, j + 2))
  {
  }

  /** Two first places are one. */
  lemma SameQuote(s: string, b: nat, q: char, c: nat, d: nat)
    requires b <= c <= |s| && b <= d <= |s| && NoShut(s, b, b, q, c) && NoShut(s, b, b, q, d)
    requires (c < |s| ==> Shuts(s, b, q, c)) && (d < |s| ==> Shuts(s, b, q, d))
    ensures c == d
  {
  }

  ghost predicate IsMove(s: string, r: Region, m: Move) {
    && (m.i == r.next || (m.i >= |s| && r.next >= |s|)) && m.php == r.php
    && forall k: nat | k < |s| :: (m.from <= k < m.upto <==> Hides(r, k))
  }

  lemma LiteralIsTurn(h: Heredoc, s: string, r: Region)
    requires WellFormed(h, s, r) && r.kind == Literal
    ensures IsMove(s, r, Next(h, s, r.from, true))
  {
    var b, q := r.from + 1, s[r.from];
    assert !Escaped(s, b, b);
    QuoteEndIs(s, b, q, b);
    var e := QuoteEnd(s, q, b);
    SameQuote(s, b, q, if e < |s| then e else |s|, r.edge);
    hide Escaped, Shuts, NoShut;
    assert !StartsWith(s, r.from, "<<<") by {
      assert s[r.from..][0] == q;
    }
  }

  lemma BlockIsTurn(h: Heredoc, s: string, r: Region)
    requires WellFormed(h, s, r) && r.kind == BlockNote
    ensures IsMove(s, r, Next(h, s, r.from, true))
  {
    var j := FindPair(s, '*', '/', r.from + 2);
    assert r.edge == if j == |s| then |s| else j + 2 by {
      if j < |s| { assert IsPair(s, j, '*', '/'); }
    }
  }

  lemma HeredocIsTurn(h: Heredoc, s: string, r: Region)
    requires WellFormed(h, s, r) && r.kind == HeredocNote
    ensures IsMove(s, r, Next(h, s, r.from, true))
  {
    assert s[r.from] == s[r.from..][0] && s[r.from] == '<';
    if h.name(s, r.from).Some? {
      var name := h.name(s, r.from).value;
      var from :| SearchedFrom(s, r.from, from) &&
        match h.ends(s, name, from) { case None => r.edge == r.from + 3 case Some(end) => r.edge == end };
      OneSearch(s, r.from, from);
    }
  }

  lemma OneSearch(s: string, i: nat, from: nat)
    requires i <= |s| && SearchedFrom(s, i, from)
    ensures from == AfterNewline(s, i)
  {
    var n := AfterNewline(s, i);
    if n > 0 { assert s[n - 1] == '\n'; }
  }

  lemma OtherIsTurn(h: Heredoc, s: string, r: Region)
    requires WellFormed(h, s, r) && r.kind !in {Literal, BlockNote, HeredocNote}
    ensures IsMove(s, r, Next(h, s, r.from, r.kind != Html))
  {
    hide HeredocEnd, QuoteEnd;
  }

  lemma RegionIsTurn(h: Heredoc, s: string, r: Region)
    requires WellFormed(h, s, r)
    ensures IsMove(s, r, Next(h, s, r.from, r.kind != Html))
  {
    hide WellFormed, IsMove, Next;
    if r.kind == Literal {
      LiteralIsTurn(h, s, r);
    } else if r.kind == BlockNote {
      BlockIsTurn(h, s, r);
    } else if r.kind == HeredocNote {
      HeredocIsTurn(h, s, r);
    } else {
      OtherIsTurn(h, s, r);
    }
  }

  // ----- the regions are the turns -----

  /** As many turns as there are regions reach the end of the file, and no fewer do. */
  lemma {:induction false} RegionsAreTurns(h: Heredoc, s: string, i: nat, php: bool, regions: seq<Region>, n: nat)
    requires RegionsFrom(h, s, i, php, regions)
    ensures After(h, s, i, php, n).0 >= |s| <==> n >= |regions|
    decreases |regions|
  {
    hide WellFormed, Next, Hides;
    if regions != [] && n > 0 {
      var r := regions[0];
      Stands(h, s, r);
      RegionIsTurn(h, s, r);
      if r.next < |s| {
        RegionsAreTurns(h, s, r.next, r.php, regions[1..], n - 1);
      } else {
        Past(h, s, r.next, r.php, regions[1..]);
      }
    } else if regions != [] {
      Stands(h, s, regions[0]);
    }
  }

  lemma Stands(h: Heredoc, s: string, r: Region)
    requires WellFormed(h, s, r)
    ensures r.from < |s|
  {
  }

  lemma Past(h: Heredoc, s: string, i: nat, php: bool, regions: seq<Region>)
    requires i >= |s| && RegionsFrom(h, s, i, php, regions)
    ensures regions == []
  {
  }

  /** What the turns hide is what is not code. */
  lemma {:induction false} TurnsHideRegions(
    h: Heredoc, s: string, i: nat, php: bool, regions: seq<Region>, n: nat, k: nat)
    requires RegionsFrom(h, s, i, php, regions) && n >= |regions| && k < |s|
    ensures Hidden(h, s, i, php, n, k) <==> NotCode(regions, k)
    decreases |regions|
  {
    hide WellFormed, Next, Hides;
    if regions != [] {
      var r, rest := regions[0], regions[1..];
      Stands(h, s, r);
      RegionIsTurn(h, s, r);
      var m := Next(h, s, i, php);
      NotCodeFront(regions, k);
      if r.next < |s| {
        TurnsHideRegions(h, s, r.next, r.php, rest, n - 1, k);
      } else {
        Past(h, s, r.next, r.php, rest);
        assert !Hidden(h, s, m.i, m.php, n - 1, k);
      }
    }
  }

  lemma NotCodeFront(regions: seq<Region>, k: nat)
    requires regions != []
    ensures NotCode(regions, k) <==> Hides(regions[0], k) || NotCode(regions[1..], k)
  {
    hide Hides;
    var rest := regions[1..];
    forall n | 0 <= n < |regions| && Hides(regions[n], k) ensures n == 0 || Hides(rest[n - 1], k) {
    }
    forall n | 0 <= n < |rest| && Hides(rest[n], k) ensures Hides(regions[n + 1], k) {
    }
  }

  /** The region that begins at i. */
  lemma RegionAt(h: Heredoc, s: string, i: nat, php: bool) returns (r: Region)
    requires i < |s|
    ensures r.from == i && (r.kind == Html <==> !php) && WellFormed(h, s, r)
  {
    if !php {
      var j := FindPair(s, '<', '?', i);
      r := if j == |s| then Region(Html, i, j, j, false)
           else Region(Html, i, j, j + if "<?php" <= s[j..] then 5 else 2, true);
    } else if IsPair(s, i, '?', '>') {
      r := Region(CloseTag, i, i, i + 2, false);
    } else if OpensNote(s, i) {
      var a, b := NextNewline(s, i), FindPair(s, '?', '>', i);
      var j := if a < b then a else b;
      r := Region(LineNote, i, j, j, true);
    } else if IsPair(s, i, '/', '*') {
      var k := FindPair(s, '*', '/', i + 2);
      var j := if k == |s| then k else k + 2;
      r := Region(BlockNote, i, j, j, true);
    } else if "<<<" <= s[i..] {
      r := HeredocAt(h, s, i);
    } else if s[i] in {'\'', '"'} {
      r := LiteralAt(h, s, i);
    } else {
      r := Region(Kind.Plain, i, i, i + 1, true);
    }
  }

  lemma HeredocAt(h: Heredoc, s: string, i: nat) returns (r: Region)
    requires i < |s| && "<<<" <= s[i..]
    ensures r.from == i && r.kind == HeredocNote && WellFormed(h, s, r)
  {
    var from := AfterNewline(s, i);
    assert SearchedFrom(s, i, from);
    var edge := HeredocEnd(h, s, i);
    r := Region(HeredocNote, i, edge, edge, true);
  }

  lemma LiteralAt(h: Heredoc, s: string, i: nat) returns (r: Region)
    requires i < |s| && s[i] in {'\'', '"'}
    ensures r.from == i && r.kind == Literal && WellFormed(h, s, r)
  {
    assert !Escaped(s, i + 1, i + 1);
    QuoteEndIs(s, i + 1, s[i], i + 1);
    var e := QuoteEnd(s, s[i], i + 1);
    r := if e < |s| then Region(Literal, i, e, e + 1, true) else Region(Literal, i, |s|, |s|, true);
  }

  lemma {:induction false} RegionsExist(h: Heredoc, s: string, i: nat, php: bool, n: nat) returns (regions: seq<Region>)
    requires After(h, s, i, php, n).0 >= |s|
    ensures RegionsFrom(h, s, i, php, regions)
    decreases n
  {
    hide WellFormed, Next, Hides;
    regions := [];
    if i < |s| {
      var r := RegionAt(h, s, i, php);
      RegionIsTurn(h, s, r);
      if r.next < |s| {
        regions := RegionsExist(h, s, r.next, r.php, n - 1);
      }
      regions := [r] + regions;
      assert regions[1..] == [] || r.next < |s|;
      assert RegionsFrom(h, s, r.next, r.php, regions[1..]);
    }
  }

  /** The loop ends if and only if the file has regions that reach its end. */
  lemma RegionsIffEnds(h: Heredoc, s: string)
    ensures Ends(h, s) <==> exists regions :: RegionsFrom(h, s, 0, false, regions)
  {
    hide RegionsFrom, After;
    if Ends(h, s) {
      var n: nat :| After(h, s, 0, false, n).0 >= |s|;
      var regions := RegionsExist(h, s, 0, false, n);
    }
    if regions :| RegionsFrom(h, s, 0, false, regions) {
      RegionsAreTurns(h, s, 0, false, regions, |regions|);
    }
  }

  /** And then the scanner leaves exactly the code. */
  lemma FinalIsCode(h: Heredoc, s: string, regions: seq<Region>, k: nat)
    requires RegionsFrom(h, s, 0, false, regions) && k < |s|
    ensures Final(h, s, k) == if NotCode(regions, k) then Blank(s[k]) else s[k]
  {
    hide RegionsFrom, After, NotCode, Hidden;
    RegionsAreTurns(h, s, 0, false, regions, |regions|);
    EndsIff(h, s);
    RegionsAreTurns(h, s, 0, false, regions, 2 * |s|);
    TurnsHideRegions(h, s, 0, false, regions, 2 * |s|, k);
  }
}
