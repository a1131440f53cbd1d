/** Offsets and line numbers of a source text. */
module SourceLines {
  import opened TextLines

  function Newlines(s: string): nat {
    if s == "" then 0 else Newlines(s[..|s| - 1]) + if s[|s| - 1] == '\n' then 1 else 0
  }

  /** The 1-based line of an offset: one plus the newlines before it. */
  function LineAt(s: string, pos: nat): nat {
    1 + Newlines(s[..if pos < |s| then pos else |s|])
  }

  /** Where each line starts. */
  function Offsets(s: string): seq<nat> {
    if s == "" then [0] else Offsets(s[..|s| - 1]) + if s[|s| - 1] == '\n' then [|s|] else []
  }

  method LineOffsets(source: string) returns (offsets: seq<nat>)
    ensures offsets == Offsets(source)
  {
    offsets := [0];
    for i := 0 to |source|
      invariant offsets == Offsets(source[..i])
    {
      assert source[..i + 1][..i] == source[..i];
      if source[i] == '\n' {
        offsets := offsets + [i + 1];
      }
    }
    assert source[..|source|] == source;
  }

  /** A line start is at or before an offset exactly when its index is at most the newlines before it. */
  lemma {:induction false} OffsetsCount(s: string)
    ensures |Offsets(s)| == 1 + Newlines(s)
    ensures forall k, pos: nat | 0 <= k < |Offsets(s)| :: Offsets(s)[k] <= pos <==> k < LineAt(s, pos)
    ensures forall k | 0 <= k < |Offsets(s)| :: Offsets(s)[k] <= |s|
  {
    if s != "" {
      var front := s[..|s| - 1];
      OffsetsCount(front);
      forall k, pos: nat | 0 <= k < |Offsets(s)| ensures Offsets(s)[k] <= pos <==> k < LineAt(s, pos) {
        if pos < |s| {
          assert s[..pos] == front[..pos] && LineAt(s, pos) == LineAt(front, pos);
          NewlinesGrow(front, pos);
        } else {
          assert s[..|s|] == s && LineAt(s, pos) == 1 + Newlines(s);
          assert k < |Offsets(front)| ==> Offsets(front)[k] <= |front|;
        }
      }
    }
  }

  /** The binary search over the line starts. */
  method LineOf(ghost source: string, offsets: seq<nat>, pos: nat) returns (line: nat)
    requires offsets == Offsets(source)
    ensures line == LineAt(source, pos)
  {
    OffsetsCount(source);
    LineBounds(source, pos);
    var low, high := 0, |offsets| - 1;
    while low < high
      invariant 0 <= low <= high < |offsets| && low < LineAt(source, pos) <= high + 1
    {
      var mid := (low + high + 1) / 2;
      if offsets[mid] <= pos {
        low := mid;
      } else {
        high := mid - 1;
      }
    }
    return low + 1;
  }

  lemma LineBounds(s: string, pos: nat)
    ensures 1 <= LineAt(s, pos) <= |Offsets(s)|
  {
    OffsetsCount(s);
    NewlinesGrow(s, if pos < |s| then pos else |s|);
  }

  lemma {:induction false} NewlinesGrow(s: string, n: nat)
    requires n <= |s|
    ensures Newlines(s[..n]) <= Newlines(s)
  {
    if n < |s| {
      assert s[..|s| - 1][..n] == s[..n];
      NewlinesGrow(s[..|s| - 1], n);
    } else {
      assert s[..n] == s;
    }
  }

  lemma LinesGrow(s: string, a: nat, b: nat)
    requires a <= b
    ensures LineAt(s, a) <= LineAt(s, b)
  {
    var m, n := if a < |s| then a else |s|, if b < |s| then b else |s|;
    assert s[..n][..m] == s[..m];
    NewlinesGrow(s[..n], m);
  }

  /** A line starts on itself. */
  lemma StartOfLine(s: string, line: nat)
    requires 1 <= line <= |Offsets(s)|
    ensures LineAt(s, Offsets(s)[line - 1]) == line
  {
    OffsetsCount(s);
    var pos := Offsets(s)[line - 1];
    LineBounds(s, pos);
    if line < |Offsets(s)| {
      OffsetsIncrease(s, line - 1, line);
      assert !(Offsets(s)[line] <= pos);
    }
  }

  lemma {:induction false} OffsetsIncrease(s: string, i: nat, j: nat)
    requires i < j < |Offsets(s)|
    ensures Offsets(s)[i] < Offsets(s)[j]
  {
    var front := s[..|s| - 1];
    OffsetsCount(front);
    if j < |Offsets(front)| {
      OffsetsIncrease(front, i, j);
    } else {
      assert Offsets(front)[i] <= |front|;
    }
  }

  /** Texts with newlines at the same offsets have the same lines. */
  lemma {:induction false} SameLines(a: string, b: string)
    requires |a| == |b| && forall k | 0 <= k < |a| :: a[k] == '\n' <==> b[k] == '\n'
    ensures Newlines(a) == Newlines(b) && Offsets(a) == Offsets(b)
  {
    if a != "" {
      SameLines(a[..|a| - 1], b[..|b| - 1]);
    }
  }

  // ----- the lines str.splitlines sees -----

  const BREAKS: set<char> := FOREIGN + NEWLINE

  /** The number of pieces: each ends at a boundary, the last one perhaps at the end of the text. */
  function Pieces(s: string): nat
    decreases |s|
  {
    if s == "" then 0
    else
      var k := FirstBreak(s, BREAKS);
      if k == |s| then 1 else 1 + Pieces(s[PieceAfter(s, k)..])
  }

  /** The boundaries that are neither a newline nor the carriage return before one. */
  function Strays(s: string): nat {
    if s == "" then 0
    else Strays(s[1..]) + if s[0] in FOREIGN && !(s[0] == '\r' && |s| > 1 && s[1] == '\n') then 1 else 0
  }

  predicate Unfinished(s: string) { s != "" && s[|s| - 1] !in BREAKS }

  lemma {:induction false} NewlinesFront(s: string)
    requires s != ""
    ensures Newlines(s) == (if s[0] == '\n' then 1 else 0) + Newlines(s[1..])
  {
    if |s| == 1 {
      assert s[..0] == "" && s[1..] == "";
    } else {
      NewlinesFront(s[..|s| - 1]);
      assert s[..|s| - 1][1..] == s[1..][..|s| - 2];
    }
  }

  /** Characters that end no line count for nothing. */
  lemma {:induction false} PlainFront(s: string, k: nat)
    requires k <= |s| && forall i | 0 <= i < k :: s[i] !in BREAKS
    ensures Newlines(s) == Newlines(s[k..]) && Strays(s) == Strays(s[k..])
  {
    if k > 0 {
      assert s[0] !in BREAKS && s[0] != '\n' && s[0] !in FOREIGN;
      NewlinesFront(s);
      PlainFront(s[1..], k - 1);
      assert s[1..][k - 1..] == s[k..];
    } else {
      assert s[0..] == s;
    }
  }

  /** One boundary is one newline or one stray. */
  lemma BoundaryFront(s: string)
    requires s != "" && s[0] in BREAKS
    ensures Newlines(s) + Strays(s) == 1 + Newlines(s[PieceAfter(s, 0)..]) + Strays(s[PieceAfter(s, 0)..])
  {
    assert '\n' !in FOREIGN && (s[0] != '\n' ==> s[0] in FOREIGN);
    NewlinesFront(s);
    if PieceAfter(s, 0) == 2 {
      NewlinesFront(s[1..]);
      assert s[1..][0] == '\n' && s[1..][1..] == s[2..];
    }
  }

  /** The first piece holds one newline or stray, and the rest ends as the text does. */
  lemma PieceFront(s: string, k: nat)
    requires k < |s| && s[k] in BREAKS && forall i | 0 <= i < k :: s[i] !in BREAKS
    ensures var rest := s[PieceAfter(s, k)..];
            Newlines(s) + Strays(s) == 1 + Newlines(rest) + Strays(rest) && Unfinished(s) == Unfinished(rest)
  {
    hide Newlines, Strays, PieceAfter;
    var piece, e := s[k..], PieceAfter(s, k);
    PlainFront(s, k);
    BoundaryFront(piece);
    PieceAfterShift(s, k);
    assert piece[e - k..] == s[e..];
    EndsAlike(s, k);
  }

  lemma PieceAfterShift(s: string, k: nat)
    requires k < |s|
    ensures PieceAfter(s[k..], 0) == PieceAfter(s, k) - k
  {
  }

  lemma EndsAlike(s: string, k: nat)
    requires k < |s| && s[k] in BREAKS
    ensures Unfinished(s) == Unfinished(s[PieceAfter(s, k)..])
  {
    var e := PieceAfter(s, k);
    if e < |s| {
      assert s[e..][|s| - e - 1] == s[|s| - 1];
    } else if e == k + 2 {
      assert s[|s| - 1] == '\n' && '\n' in BREAKS;
    }
  }

  lemma {:induction false} PiecesAre(s: string)
    ensures Pieces(s) == Newlines(s) + Strays(s) + if Unfinished(s) then 1 else 0
    decreases |s|
  {
    if s != "" {
      var k := FirstBreak(s, BREAKS);
      if k == |s| {
        PlainFront(s, k);
        assert s[k..] == "";
      } else {
        PieceFront(s, k);
        hide Newlines, Strays, Unfinished, PieceAfter;
        PiecesAre(s[PieceAfter(s, k)..]);
      }
    }
  }

  /** There are more pieces than line starts if and only if there are two stray boundaries, or one and the text does not
      end with a boundary. */
  lemma PiecesExceedIff(s: string)
    ensures Pieces(s) > |Offsets(s)| <==> Strays(s) >= 2 || (Strays(s) == 1 && Unfinished(s))
  {
    OffsetsCount(s);
    PiecesAre(s);
  }

  lemma StrayExample()
    ensures Pieces("a\U{2028}b") == 2 && |Offsets("a\U{2028}b")| == 1
  {
    var s := "a\U{2028}b";
    OffsetsCount(s);
    assert s[1] == '\U{2028}' && s[1..][0] == '\U{2028}' && s[1..][1..] == "b";
    assert s[2] == 'b' && 'b' !in BREAKS && 'a' !in BREAKS;
    assert Strays("b") == 0 && Strays(s[1..]) == 1 && Strays(s) == 1;
    assert s[..2] == "a\U{2028}" && s[..2][..1] == "a" && "a"[..0] == "";
    assert Newlines(s[..2]) == 0 && Newlines(s) == 0;
    PiecesAre(s);
  }
}
