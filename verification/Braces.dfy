/** Brace matching in masked text, and the innermost callable around a line. */
module Braces {
  import opened Optional
  import opened TextLines
  import opened SourceLines

  function Delta(ch: char): int { if ch == '{' then 1 else if ch == '}' then -1 else 0 }

  /** Opening minus closing braces in t[i..j]. */
  function Depth(t: string, i: nat, j: nat): int
    requires i <= j <= |t|
  {
    if i == j then 0 else Depth(t, i, j - 1) + Delta(t[j - 1])
  }

  /** The brace at i is open at every offset after it, up to and including n. */
  ghost predicate Open(t: string, i: nat, n: nat) {
    i < n <= |t| && t[i] == '{' && forall k | i < k <= n :: Depth(t, i, k) >= 1
  }

  /** The closing brace at j matches the opening one at i. */
  ghost predicate Match(t: string, i: nat, j: nat) {
    i < j < |t| && t[j] == '}' && Open(t, i, j) && Depth(t, i, j + 1) == 0
  }

  lemma MatchUnique(t: string, i: nat, j: nat, j': nat)
    requires Match(t, i, j) && Match(t, i, j')
    ensures j == j'
  {
  }

  lemma {:induction false} DepthSplit(t: string, i: nat, j: nat, k: nat)
    requires i <= j <= k <= |t|
    ensures Depth(t, i, k) == Depth(t, i, j) + Depth(t, j, k)
    decreases k - j
  {
    if j < k {
      DepthSplit(t, i, j, k - 1);
    }
  }

  /** A brace that nothing matches stays open to the end. */
  lemma {:induction false} UnmatchedStaysOpen(t: string, i: nat, k: nat)
    requires i < k <= |t| && t[i] == '{' && forall j: nat :: !Match(t, i, j)
    ensures Open(t, i, k)
  {
    if k == i + 1 {
      assert Depth(t, i, i + 1) == 1;
    } else {
      UnmatchedStaysOpen(t, i, k - 1);
      assert !Match(t, i, k - 1);
    }
  }

  /** Matched groups nest: a brace that opens inside a group closes inside it. */
  lemma GroupsNest(t: string, i: nat, j: nat, i': nat)
    requires Match(t, i, j) && i < i' < j && t[i'] == '{'
    ensures exists j': nat :: Match(t, i', j') && j' < j
  {
    hide Depth;
    if forall j': nat :: !Match(t, i', j') {
      UnmatchedStaysOpen(t, i', j + 1);
      DepthSplit(t, i, i', j + 1);
    } else {
      var j': nat :| Match(t, i', j');
      assert j' > j ==> Depth(t, i', j + 1) >= 1;
      DepthSplit(t, i, i', j + 1);
    }
  }

  /** The scanner finds the matching brace, and fails exactly when there is none. */
  method BalancedEnd(masked: string, brace: nat) returns (end: Option<nat>)
    requires brace < |masked| && masked[brace] == '{'
    ensures end.Some? ==> Match(masked, brace, end.value)
    ensures end.None? ==> forall j :: !Match(masked, brace, j)
  {
    var depth := 0;
    for pos := brace to |masked|
      invariant depth == Depth(masked, brace, pos) && (pos > brace ==> Open(masked, brace, pos))
    {
      if masked[pos] == '{' {
        depth := depth + 1;
      } else if masked[pos] == '}' {
        depth := depth - 1;
        if depth == 0 {
          return Some(pos);
        }
      }
    }
    return None;
  }

  // ----- the innermost callable -----

  /** Whitespace, import lines and control heads, as the regular expressions decide them. */
  datatype Words = Words(space: char -> bool, imports: string -> bool, control: string -> bool)

  function Strip(w: Words, s: string): string {
    if s == "" then ""
    else if w.space(s[0]) then Strip(w, s[1..])
    else if w.space(s[|s| - 1]) then Strip(w, s[..|s| - 1])
    else s
  }

  function LineStart(t: string, pos: nat): (start: nat)
    ensures start <= pos
  {
    if pos == 0 || pos > |t| || t[pos - 1] == '\n' then pos else LineStart(t, pos - 1)
  }

  /** The line that ends at this newline is a preprocessor line. */
  predicate Directive(w: Words, t: string, pos: nat)
    requires pos < |t|
  {
    var line := Strip(w, t[LineStart(t, pos)..pos]);
    line != "" && line[0] == '#'
  }

  /** The offset after the previous ';', '}' or preprocessor line. */
  function Boundary(w: Words, t: string, pos: nat): (start: nat)
    requires pos <= |t|
    ensures start <= pos
    ensures forall k | start <= k < pos :: t[k] != ';' && t[k] != '}'
  {
    if pos == 0 || t[pos - 1] == ';' || t[pos - 1] == '}' || (t[pos - 1] == '\n' && Directive(w, t, pos - 1)) then pos
    else Boundary(w, t, pos - 1)
  }

  function NextNewline(s: string, i: nat): (k: nat)
    requires i <= |s|
    ensures i <= k <= |s| && (k < |s| ==> s[k] == '\n') && forall l | i <= l < k :: s[l] != '\n'
    decreases |s| - i
  {
    if i == |s| || s[i] == '\n' then i else NextNewline(s, i + 1)
  }

  /** Past blank lines and import statements. */
  function Skip(w: Words, source: string, t: string, start: nat): (r: nat)
    requires |t| == |source| && start <= |t|
    ensures start <= r <= |t|
    decreases |t| - start
  {
    var end := NextNewline(source, start);
    if end == |source| then start
    else
      var line := Strip(w, t[start..end]);
      if line != "" && !w.imports(line) then start else Skip(w, source, t, end + 1)
  }

  function Declarator(w: Words, source: string, t: string, anchor: nat): nat
    requires |t| == |source| && anchor <= |t|
  {
    Skip(w, source, t, Boundary(w, t, anchor))
  }

  /** The walk back to the boundary, and forward past blank and import lines. */
  method DeclaratorStart(w: Words, source: string, masked: string, anchor: nat) returns (start: nat)
    requires |masked| == |source| && anchor <= |masked|
    ensures start == Declarator(w, source, masked, anchor)
  {
    hide Directive, Strip;
    var pos := anchor - 1;
    while pos >= 0
      invariant -1 <= pos < anchor && Boundary(w, masked, pos + 1) == Boundary(w, masked, anchor)
    {
      var ch := masked[pos];
      if ch == ';' || ch == '}' {
        break;
      }
      if ch == '\n' && Directive(w, masked, pos) {
        break;
      }
      pos := pos - 1;
    }
    start := pos + 1;
    while true
      invariant start <= |masked| && Skip(w, source, masked, start) == Declarator(w, source, masked, anchor)
      decreases |masked| - start
    {
      var end := NextNewline(source, start);
      if end == |source| {
        break;
      }
      var line := Strip(w, masked[start..end]);
      if line != "" && !w.imports(line) {
        break;
      }
      start := end + 1;
    }
  }

  function CountOf(s: string, ch: char): nat {
    if s == "" then 0 else CountOf(s[..|s| - 1], ch) + if s[|s| - 1] == ch then 1 else 0
  }

  /** A matched group that looks like a callable whose text, declarator included, holds the target. */
  ghost predicate Candidate(w: Words, source: string, t: string, target: nat, i: nat, j: nat)
    requires |t| == |source|
  {
    && i < j < |t| && Match(t, i, j) && target <= j
    && CallableHead(w, source, t, target, i)
  }

  predicate CallableHead(w: Words, source: string, t: string, target: nat, i: nat)
    requires |t| == |source| && i <= |t|
  {
    var start := Declarator(w, source, t, i);
    && start <= target && start <= i
    && var head := t[start..i];
       '(' in head && ')' in head && !w.control(Strip(w, head)) && CountOf(head, '{') == CountOf(head, '}')
  }

  function SpanOf(w: Words, source: string, t: string, i: nat, j: nat): (nat, nat)
    requires |t| == |source| && i <= |t|
  {
    (LineAt(source, Declarator(w, source, t, i)), LineAt(source, j))
  }

  /** The open braces, outermost first, are exactly the stack. */
  ghost predicate StackIs(t: string, pos: nat, stack: seq<nat>) {
    && pos <= |t|
    && (forall k | 0 <= k < |stack| :: Open(t, stack[k], pos) && Depth(t, stack[k], pos) == |stack| - k)
    && (forall k, l | 0 <= k < l < |stack| :: stack[k] < stack[l])
    && (forall i | 0 <= i < pos && Open(t, i, pos) :: i in stack)
  }

  /** Popping at a closing brace pops its match; with an empty stack it matches nothing. */
  lemma PopMatches(t: string, pos: nat, stack: seq<nat>)
    requires StackIs(t, pos, stack) && pos < |t| && t[pos] == '}'
    ensures stack == [] ==> forall i :: !Match(t, i, pos)
    ensures stack != [] ==> forall i :: Match(t, i, pos) <==> i == stack[|stack| - 1]
  {
    forall i | Match(t, i, pos) ensures stack != [] && i == stack[|stack| - 1] {
      assert Open(t, i, pos);
      assert i in stack;
      var k :| 0 <= k < |stack| && stack[k] == i;
      assert Depth(t, i, pos + 1) == Depth(t, i, pos) - 1;
    }
    if stack != [] {
      assert Open(t, stack[|stack| - 1], pos);
    }
  }

  lemma OpenLater(t: string, i: nat, pos: nat)
    requires i < pos < |t|
    ensures Depth(t, i, pos + 1) == Depth(t, i, pos) + Delta(t[pos])
    ensures Open(t, i, pos + 1) <==> Open(t, i, pos) && Depth(t, i, pos) + Delta(t[pos]) >= 1
  {
    if Open(t, i, pos) && Depth(t, i, pos) + Delta(t[pos]) >= 1 {
      assert Depth(t, i, pos + 1) >= 1;
    }
  }

  lemma Opens(t: string, pos: nat)
    requires pos < |t| && t[pos] == '{'
    ensures Open(t, pos, pos + 1) && Depth(t, pos, pos + 1) == 1
  {
    assert Depth(t, pos, pos) == 0;
  }

  lemma NotYetOpen(t: string, pos: nat)
    ensures !Open(t, pos, pos) && (pos < |t| && t[pos] != '{' ==> !Open(t, pos, pos + 1))
  {
  }

  lemma PushOpens(t: string, pos: nat, stack: seq<nat>)
    requires StackIs(t, pos, stack) && pos < |t| && t[pos] == '{'
    ensures StackIs(t, pos + 1, stack + [pos])
  {
    StackBelow(t, pos, stack);
    Opens(t, pos);
    hide Depth, Open;
    var next := stack + [pos];
    forall k | 0 <= k < |next| ensures Open(t, next[k], pos + 1) && Depth(t, next[k], pos + 1) == |next| - k {
      if k < |stack| { OpenLater(t, stack[k], pos); }
    }
    forall i | 0 <= i < pos + 1 && Open(t, i, pos + 1) ensures i in next {
      if i < pos { OpenLater(t, i, pos); assert i in stack; } else { assert next[|stack|] == i; }
    }
  }

  lemma StackBelow(t: string, pos: nat, stack: seq<nat>)
    requires StackIs(t, pos, stack)
    ensures forall k | 0 <= k < |stack| :: stack[k] < pos && Depth(t, stack[k], pos) >= 1
  {
  }

  lemma PopCloses(t: string, pos: nat, stack: seq<nat>)
    requires StackIs(t, pos, stack) && pos < |t| && t[pos] == '}'
    ensures StackIs(t, pos + 1, if stack == [] then [] else stack[..|stack| - 1])
  {
    StackBelow(t, pos, stack);
    NotYetOpen(t, pos);
    hide Depth, Open;
    var next := if stack == [] then [] else stack[..|stack| - 1];
    forall k | 0 <= k < |next| ensures Open(t, next[k], pos + 1) && Depth(t, next[k], pos + 1) == |next| - k {
      OpenLater(t, stack[k], pos);
    }
    forall i | 0 <= i < pos + 1 && Open(t, i, pos + 1) ensures i in next {
      OpenLater(t, i, pos);
      var k :| 0 <= k < |stack| && stack[k] == i;
      assert next[k] == i;
    }
  }

  lemma OtherKeeps(t: string, pos: nat, stack: seq<nat>)
    requires StackIs(t, pos, stack) && pos < |t| && t[pos] != '{' && t[pos] != '}'
    ensures StackIs(t, pos + 1, stack)
  {
    StackBelow(t, pos, stack);
    NotYetOpen(t, pos);
    hide Depth, Open;
    forall k | 0 <= k < |stack| ensures Open(t, stack[k], pos + 1) && Depth(t, stack[k], pos + 1) == |stack| - k {
      OpenLater(t, stack[k], pos);
    }
    forall i | 0 <= i < pos + 1 && Open(t, i, pos + 1) ensures i in stack {
      OpenLater(t, i, pos);
    }
  }

  ghost predicate Inner(w: Words, source: string, t: string, target: nat, i: nat, j: nat, best: (nat, nat))
    requires |t| == |source|
  {
    Candidate(w, source, t, target, i, j) ==>
      SpanOf(w, source, t, i, j).0 < best.0
      || (SpanOf(w, source, t, i, j).0 == best.0 && best.1 <= SpanOf(w, source, t, i, j).1)
  }

  /** Best so far: the largest start line among the candidates closed before pos, the first closed of
      those that share it. */
  ghost predicate BestIs(w: Words, source: string, t: string, target: nat, pos: nat, best: Option<(nat, nat)>)
    requires |t| == |source|
  {
    match best
    case None => forall i: nat, j: nat | j < pos :: !Candidate(w, source, t, target, i, j)
    case Some(span) =>
      && (exists i: nat, j: nat | j < pos ::
            Candidate(w, source, t, target, i, j) && SpanOf(w, source, t, i, j) == span)
      && (forall i: nat, j: nat | j < pos :: Inner(w, source, t, target, i, j, span))
  }

  /** The stack scan returns the innermost callable-looking group around the line, if there is one. */
  method InnermostFunctionBounds(w: Words, source: string, masked: string, line: int) returns (best: Option<(nat, nat)>)
    requires |masked| == |source|
    ensures !(1 <= line <= |Offsets(source)|) ==> best == None
    ensures 1 <= line <= |Offsets(source)| ==> BestIs(w, source, masked, Offsets(source)[line - 1], |source|, best)
  {
    hide StackIs, BestIs, Match, CallableHead, Declarator, LineAt;
    var offsets := LineOffsets(source);
    if line < 1 || line > |offsets| {
      return None;
    }
    var target := offsets[line - 1];
    var stack: seq<nat> := [];
    best := None;
    Start(w, source, masked, target);
    for pos := 0 to |masked|
      invariant StackIs(masked, pos, stack) && BestIs(w, source, masked, target, pos, best)
    {
      ghost var before := best;
      if masked[pos] == '{' {
        PushOpens(masked, pos, stack);
        stack := stack + [pos];
        NoneCloses(w, source, masked, target, pos, best);
      } else if masked[pos] == '}' && stack != [] {
        PopMatches(masked, pos, stack);
        PopCloses(masked, pos, stack);
        TopIsEarlier(masked, pos, stack);
        var open := stack[|stack| - 1];
        stack := stack[..|stack| - 1];
        if pos >= target && CallableHead(w, source, masked, target, open) {
          var start := DeclaratorStart(w, source, masked, open);
          var first := LineOf(source, offsets, start);
          var last := LineOf(source, offsets, pos);
          if best.None? || first > best.value.0 {
            best := Some((first, last));
          }
        }
        Better(w, source, masked, target, pos, open, before, best);
      } else {
        if masked[pos] == '}' {
          PopMatches(masked, pos, stack);
          PopCloses(masked, pos, stack);
        } else {
          OtherKeeps(masked, pos, stack);
        }
        NoneCloses(w, source, masked, target, pos, best);
      }
    }
  }

  lemma Start(w: Words, source: string, t: string, target: nat)
    requires |t| == |source|
    ensures StackIs(t, 0, []) && BestIs(w, source, t, target, 0, None)
  {
  }

  lemma TopIsEarlier(t: string, pos: nat, stack: seq<nat>)
    requires StackIs(t, pos, stack) && stack != []
    ensures stack[|stack| - 1] < pos
  {
  }

  /** Where no group closes the best stays the best. */
  lemma NoneCloses(w: Words, source: string, t: string, target: nat, pos: nat, best: Option<(nat, nat)>)
    requires |t| == |source| && pos < |t| && BestIs(w, source, t, target, pos, best)
    requires t[pos] != '}' || forall i :: !Match(t, i, pos)
    ensures BestIs(w, source, t, target, pos + 1, best)
  {
    hide CallableHead, Declarator, LineAt, SpanOf, Open, Depth;
    forall i: nat, j: nat | j < pos + 1 && Candidate(w, source, t, target, i, j) ensures j < pos {
      assert j == pos ==> Match(t, i, pos);
    }
  }

  lemma Better(w: Words, source: string, t: string, target: nat, pos: nat, open: nat,
               before: Option<(nat, nat)>, after: Option<(nat, nat)>)
    requires |t| == |source| && pos < |t| && open < |t|
    requires BestIs(w, source, t, target, pos, before) && forall i :: Match(t, i, pos) <==> i == open
    requires after == if target <= pos && CallableHead(w, source, t, target, open) &&
                         (before.None? || SpanOf(w, source, t, open, pos).0 > before.value.0)
                      then Some(SpanOf(w, source, t, open, pos)) else before
    ensures BestIs(w, source, t, target, pos + 1, after)
  {
    hide Match, CallableHead, Declarator, LineAt;
    assert Candidate(w, source, t, target, open, pos) <==>
           target <= pos && CallableHead(w, source, t, target, open) by {
      assert Match(t, open, pos);
      MatchBounds(t, open, pos);
    }
    forall i: nat, j: nat | j < pos + 1 && Candidate(w, source, t, target, i, j)
      ensures after.Some? && Inner(w, source, t, target, i, j, after.value)
    {
      if j == pos {
        assert i == open;
        if before.Some? {
          var i': nat, j': nat :|
            j' < pos && Candidate(w, source, t, target, i', j') && SpanOf(w, source, t, i', j') == before.value;
          LinesGrow(source, j', pos);
        }
      } else {
        assert before.Some? && Inner(w, source, t, target, i, j, before.value);
      }
    }
    if after.Some? && after != before {
      assert Candidate(w, source, t, target, open, pos) && SpanOf(w, source, t, open, pos) == after.value;
    }
  }

  lemma MatchBounds(t: string, i: nat, j: nat)
    requires Match(t, i, j)
    ensures i < j < |t|
  {
  }

  /** The span found contains the line. */
  lemma CandidateHoldsLine(w: Words, source: string, t: string, line: nat, i: nat, j: nat)
    requires |t| == |source| && 1 <= line <= |Offsets(source)|
    requires Candidate(w, source, t, Offsets(source)[line - 1], i, j)
    ensures SpanOf(w, source, t, i, j).0 <= line <= SpanOf(w, source, t, i, j).1
  {
    var target := Offsets(source)[line - 1];
    StartOfLine(source, line);
    LinesGrow(source, Declarator(w, source, t, i), target);
    LinesGrow(source, target, j);
  }

  /** What the scan returns is a span around the line, and no candidate around it starts on a later line. */
  lemma BestIsInnermost(w: Words, source: string, t: string, line: nat, best: (nat, nat), i: nat, j: nat)
    requires |t| == |source| && 1 <= line <= |Offsets(source)|
    requires BestIs(w, source, t, Offsets(source)[line - 1], |source|, Some(best))
    ensures best.0 <= line <= best.1
    ensures Candidate(w, source, t, Offsets(source)[line - 1], i, j) ==> SpanOf(w, source, t, i, j).0 <= best.0
  {
    hide Match, CallableHead, Declarator, LineAt;
    var target := Offsets(source)[line - 1];
    var i': nat, j': nat :|
      j' < |source| && Candidate(w, source, t, target, i', j') && SpanOf(w, source, t, i', j') == best;
    CandidateHoldsLine(w, source, t, line, i', j');
    assert Candidate(w, source, t, target, i, j) ==> Inner(w, source, t, target, i, j, best);
  }

  // ----- the outermost callable -----

  datatype Bounds = Found(first: nat, last: nat) | Outside | IndexError

  /** A matched group that opens at depth zero. */
  ghost predicate TopGroup(t: string, i: nat, j: nat) {
    Match(t, i, j) && Depth(t, 0, i) == 0
  }

  predicate Spans(source: string, line: int, i: nat, j: nat) {
    LineAt(source, i) <= line <= LineAt(source, j)
  }

  /** The scanner's open brace is the top group open before pos, if any. */
  ghost predicate TopIs(t: string, pos: nat, open: Option<nat>) {
    && pos <= |t|
    && (open.Some? ==> Open(t, open.value, pos) && Depth(t, 0, open.value) == 0)
    && (forall i: nat | i < pos && Open(t, i, pos) && Depth(t, 0, i) == 0 :: open == Some(i))
  }

  /** No top group closed before pos reaches over the line. */
  ghost predicate NoneYet(source: string, t: string, line: int, pos: nat) {
    forall i: nat, j: nat | j < pos && TopGroup(t, i, j) :: !Spans(source, line, i, j)
  }

  lemma TopOpens(t: string, pos: nat, open: Option<nat>)
    requires TopIs(t, pos, open) && pos < |t| && t[pos] == '{'
    ensures TopIs(t, pos + 1, if Depth(t, 0, pos) == 0 then Some(pos) else open)
  {
    Opens(t, pos);
    hide Depth, Open;
    forall i: nat | i < pos && Open(t, i, pos + 1) && Depth(t, 0, i) == 0
      ensures open == Some(i) && Depth(t, 0, pos) != 0
    {
      OpenLater(t, i, pos);
      OpenDepth(t, i, pos);
      DepthSplit(t, 0, i, pos);
    }
    if open.Some? {
      OpenBefore(t, open.value, pos);
      OpenLater(t, open.value, pos);
      OpenDepth(t, open.value, pos);
    }
  }

  lemma OpenDepth(t: string, i: nat, pos: nat)
    requires Open(t, i, pos)
    ensures Depth(t, i, pos) >= 1
  {
  }

  lemma OpenBefore(t: string, i: nat, pos: nat)
    requires Open(t, i, pos)
    ensures i < pos <= |t|
  {
  }

  /** At a closing brace the depth is back to zero exactly when it matches the open top group; otherwise nothing
      changes. */
  lemma TopCloses(t: string, pos: nat, open: Option<nat>)
    requires TopIs(t, pos, open) && pos < |t| && t[pos] == '}'
    ensures var closes := open.Some? && Depth(t, 0, pos) == 1;
            && (open.Some? ==> open.value < pos && Depth(t, 0, pos) >= 1)
            && TopIs(t, pos + 1, if closes then None else open)
            && (forall i: nat :: TopGroup(t, i, pos) <==> closes && i == open.value)
  {
    NotYetOpen(t, pos);
    if open.Some? {
      DepthSplit(t, 0, open.value, pos);
      OpenLater(t, open.value, pos);
    }
    forall i: nat | TopGroup(t, i, pos) ensures open == Some(i) && Depth(t, 0, pos) == 1 {
      DepthSplit(t, 0, i, pos);
      OpenLater(t, i, pos);
    }
    hide Depth, Open;
    forall i: nat | i < pos + 1 && Open(t, i, pos + 1) && Depth(t, 0, i) == 0
      ensures open == Some(i) && Depth(t, 0, pos) != 1
    {
      OpenLater(t, i, pos);
      DepthSplit(t, 0, i, pos);
    }
    if open.Some? && Depth(t, 0, pos) == 1 {
      Closes(t, open.value, pos);
    }
  }

  lemma Closes(t: string, i: nat, pos: nat)
    requires pos < |t| && t[pos] == '}' && Open(t, i, pos) && Depth(t, i, pos) == 1
    ensures Match(t, i, pos)
  {
  }

  lemma TopStays(t: string, pos: nat, open: Option<nat>)
    requires TopIs(t, pos, open) && pos < |t| && t[pos] != '{' && t[pos] != '}'
    ensures TopIs(t, pos + 1, open)
  {
    NotYetOpen(t, pos);
    if open.Some? {
      OpenBefore(t, open.value, pos);
      OpenLater(t, open.value, pos);
      OpenDepth(t, open.value, pos);
    }
    hide Depth, Open;
    forall i: nat | i < pos + 1 && Open(t, i, pos + 1) && Depth(t, 0, i) == 0 ensures open == Some(i) {
      OpenLater(t, i, pos);
    }
  }

  lemma NoneGoesOn(source: string, t: string, line: int, pos: nat)
    requires NoneYet(source, t, line, pos) && forall i: nat | TopGroup(t, i, pos) :: !Spans(source, line, i, pos)
    ensures NoneYet(source, t, line, pos + 1)
  {
    hide Match, Depth, LineAt;
  }

  lemma DepthStep(t: string, pos: nat)
    requires pos < |t|
    ensures Depth(t, 0, pos + 1) == Depth(t, 0, pos) + Delta(t[pos])
    ensures t[pos] != '}' ==> forall i: nat :: !TopGroup(t, i, pos)
  {
  }

  lemma TopStart(source: string, t: string, line: int)
    ensures TopIs(t, 0, None) && NoneYet(source, t, line, 0) && Depth(t, 0, 0) == 0
  {
  }

  /** Being on the line or around its start is the same as reaching over the line. */
  lemma AroundIsSpans(source: string, line: nat, i: nat, j: nat)
    requires 1 <= line <= |Offsets(source)|
    ensures i <= Offsets(source)[line - 1] <= j ==> Spans(source, line, i, j)
  {
    var target := Offsets(source)[line - 1];
    if i <= target <= j {
      StartOfLine(source, line);
      LinesGrow(source, i, target);
      LinesGrow(source, target, j);
    }
  }

  /** The line passes the check against the pieces and has no line start. */
  predicate Raises(source: string, line: int) {
    |Offsets(source)| < line <= Pieces(source)
  }

  /** Some line raises if and only if there are two stray boundaries, or one and the text does not end with
      a boundary. */
  lemma SomeLineRaisesIff(source: string)
    ensures (exists line :: Raises(source, line)) <==>
              Strays(source) >= 2 || (Strays(source) == 1 && Unfinished(source))
  {
    PiecesExceedIff(source);
    if Pieces(source) > |Offsets(source)| {
      assert Raises(source, Pieces(source));
    }
  }

  /** The first top group that reaches over the line, from its declarator on. The line is checked against the pieces
      str.splitlines sees, which may be more than the line starts. */
  method FunctionBoundsAt(w: Words, source: string, masked: string, line: int) returns (bounds: Bounds)
    requires |masked| == |source|
    ensures bounds.IndexError? <==> Raises(source, line)
    ensures bounds.Found? ==> 1 <= line <= Pieces(source) && exists i: nat, j: nat ::
              && TopGroup(masked, i, j) && Spans(source, line, i, j) && NoneYet(source, masked, line, j)
              && (bounds.first, bounds.last) == SpanOf(w, source, masked, i, j)
    ensures bounds.Outside? && 1 <= line <= Pieces(source) ==> NoneYet(source, masked, line, |masked|)
  {
    hide TopIs, NoneYet, Match, Declarator, LineAt, Depth, Open, Pieces;
    OffsetsCount(source);
    if line < 1 || line > Pieces(source) {
      return Outside;
    }
    var offsets := LineOffsets(source);
    if line > |offsets| {
      return IndexError;
    }
    var target := offsets[line - 1];
    var depth := 0;
    var open: Option<nat> := None;
    TopStart(source, masked, line);
    for pos := 0 to |masked|
      invariant depth == Depth(masked, 0, pos) && TopIs(masked, pos, open) && NoneYet(source, masked, line, pos)
    {
      DepthStep(masked, pos);
      if masked[pos] == '{' {
        TopOpens(masked, pos, open);
        if depth == 0 {
          open := Some(pos);
        }
        depth := depth + 1;
        NoneGoesOn(source, masked, line, pos);
      } else if masked[pos] == '}' {
        TopCloses(masked, pos, open);
        depth := depth - 1;
        if depth == 0 && open.Some? {
          var first := LineOf(source, offsets, open.value);
          var last := LineOf(source, offsets, pos);
          AroundIsSpans(source, line, open.value, pos);
          if open.value <= target <= pos || first <= line <= last {
            assert TopGroup(masked, open.value, pos) && Spans(source, line, open.value, pos);
            var start := DeclaratorStart(w, source, masked, open.value);
            first := LineOf(source, offsets, start);
            return Found(first, last);
          }
          open := None;
        }
        NoneGoesOn(source, masked, line, pos);
      } else {
        TopStays(masked, pos, open);
        NoneGoesOn(source, masked, line, pos);
      }
    }
    return Outside;
  }

  /** A text of one line start on whose second piece the lookup raises. */
  method RaisingLookup(w: Words) returns (bounds: Bounds)
    ensures bounds == IndexError
  {
    var source := "a\U{2028}b";
    StrayExample();
    bounds := FunctionBoundsAt(w, source, source, 2);
  }
}
