/** Where the declarator of a brace starts, and which braces open a callable, said without the walks. */
module Heads {
  import opened Braces

  predicate AllSpace(w: Words, s: string) { forall k | 0 <= k < |s| :: w.space(s[k]) }

  /** What is stripped is space, and what is left neither begins nor ends with one. */
  lemma {:induction false} StripIs(w: Words, s: string) returns (a: string, b: string)
    ensures s == a + Strip(w, s) + b && AllSpace(w, a) && AllSpace(w, b)
    ensures var r := Strip(w, s); r != "" ==> !w.space(r[0]) && !w.space(r[|r| - 1])
    ensures Strip(w, s) == "" <==> AllSpace(w, s)
  {
    if s == "" {
      a, b := "", "";
    } else if w.space(s[0]) {
      var rest := s[1..];
      assert Strip(w, s) == Strip(w, rest);
      a, b := StripIs(w, rest);
      SpaceFront(w, s[0], a);
      SpaceFront(w, s[0], rest);
      assert s == [s[0]] + rest;
      a := [s[0]] + a;
    } else if w.space(s[|s| - 1]) {
      var front := s[..|s| - 1];
      assert Strip(w, s) == Strip(w, front);
      a, b := StripIs(w, front);
      b := b + [s[|s| - 1]];
      assert s == front + [s[|s| - 1]];
      assert !w.space(s[0]) && s[0] == front[0];
    } else {
      a, b := "", "";
      assert !w.space(s[0]);
    }
  }

  lemma SpaceFront(w: Words, ch: char, s: string)
    requires w.space(ch)
    ensures AllSpace(w, [ch] + s) <==> AllSpace(w, s)
  {
    var all := [ch] + s;
    assert forall k | 0 <= k < |s| :: s[k] == all[k + 1];
  }

  predicate LineFrom(t: string, start: nat, pos: nat) {
    && start <= pos <= |t| && (start == 0 || t[start - 1] == '\n')
    && forall k | start <= k < pos :: t[k] != '\n'
  }

  lemma {:induction false} LineStartIs(t: string, pos: nat)
    requires pos <= |t|
    ensures LineFrom(t, LineStart(t, pos), pos)
  {
    if pos > 0 && t[pos - 1] != '\n' {
      LineStartIs(t, pos - 1);
    }
  }

  /** The newline at pos ends a line whose first character other than a space is '#'. */
  ghost predicate EndsDirective(w: Words, t: string, pos: nat) {
    && pos < |t| && t[pos] == '\n'
    && exists start: nat, hash: nat ::
         LineFrom(t, start, pos) && start <= hash < pos && AllSpace(w, t[start..hash]) && t[hash] == '#'
  }

  lemma DirectiveIff(w: Words, t: string, pos: nat)
    requires pos < |t| && t[pos] == '\n' && !w.space('#')
    ensures Directive(w, t, pos) <==> EndsDirective(w, t, pos)
  {
    var start := LineStart(t, pos);
    LineStartIs(t, pos);
    var line := t[start..pos];
    var a, b := StripIs(w, line);
    var r := Strip(w, line);
    if Directive(w, t, pos) {
      var hash := start + |a|;
      assert line[|a|] == r[0] == '#';
      assert t[start..hash] == line[..|a|] == a;
    }
    if EndsDirective(w, t, pos) {
      var start': nat, hash: nat :|
        LineFrom(t, start', pos) && start' <= hash < pos && AllSpace(w, t[start'..hash]) && t[hash] == '#';
      assert start == start';
      FirstMark(w, t, start, pos, hash, a, r, b);
    }
  }

  /** The first character that is not a space is where the stripped line begins. */
  lemma FirstMark(w: Words, t: string, start: nat, pos: nat, hash: nat, a: string, r: string, b: string)
    requires start <= hash < pos <= |t| && t[start..pos] == a + r + b && AllSpace(w, a) && AllSpace(w, b)
    requires r != "" ==> !w.space(r[0])
    requires AllSpace(w, t[start..hash]) && !w.space(t[hash])
    ensures r != "" && r[0] == t[hash]
  {
    var line, n := t[start..pos], hash - start;
    assert line[n] == t[hash] && forall k | 0 <= k < n :: line[k] == t[start..hash][k];
    assert forall k | 0 <= k < |a| :: line[k] == a[k];
    assert n >= |a|;
    assert line[|a|] == (r + b)[0];
  }

  /** The walk back stops behind this character. */
  ghost predicate StopsWalk(w: Words, t: string, k: nat) {
    k < |t| && (t[k] == ';' || t[k] == '}' || EndsDirective(w, t, k))
  }

  /** The boundary stands behind the last such character before the anchor, or at the start of the file. */
  lemma {:induction false} BoundaryIs(w: Words, t: string, pos: nat)
    requires pos <= |t| && !w.space('#')
    ensures var start := Boundary(w, t, pos);
            && (start == 0 || StopsWalk(w, t, start - 1))
            && forall k: nat | start <= k < pos :: !StopsWalk(w, t, k)
  {
    hide Directive, EndsDirective;
    if pos > 0 {
      if t[pos - 1] == '\n' { DirectiveIff(w, t, pos - 1); } else { NoDirective(w, t, pos - 1); }
      if Boundary(w, t, pos) < pos {
        BoundaryIs(w, t, pos - 1);
      }
    }
  }

  lemma NoDirective(w: Words, t: string, pos: nat)
    requires pos < |t| && t[pos] != '\n'
    ensures !EndsDirective(w, t, pos)
  {
  }

  /** The line of the source that begins at start ends at this newline, and its masked text is blank or an import. */
  ghost predicate Skippable(w: Words, source: string, t: string, start: nat, end: nat)
    requires |t| == |source|
  {
    && start <= end < |source| && source[end] == '\n' && (forall k | start <= k < end :: source[k] != '\n')
    && (AllSpace(w, t[start..end]) || w.imports(Strip(w, t[start..end])))
  }

  /** These are the starts of one skipped line after the other. */
  ghost predicate SkipsOver(w: Words, source: string, t: string, starts: seq<nat>)
    requires |t| == |source|
  {
    |starts| < 2 ||
    (starts[1] > 0 && Skippable(w, source, t, starts[0], starts[1] - 1) && SkipsOver(w, source, t, starts[1..]))
  }

  /** The walk forward passes such lines and stops at the first place where none begins. */
  lemma {:induction false} SkipIs(w: Words, source: string, t: string, start: nat) returns (starts: seq<nat>)
    requires |t| == |source| && start <= |t|
    ensures starts != [] && starts[0] == start && starts[|starts| - 1] == Skip(w, source, t, start)
    ensures SkipsOver(w, source, t, starts)
    ensures forall end: nat :: !Skippable(w, source, t, Skip(w, source, t, start), end)
    decreases |t| - start
  {
    hide Strip;
    var end := NextNewline(source, start);
    if end < |source| {
      var line := Strip(w, t[start..end]);
      var a, b := StripIs(w, t[start..end]);
      if line == "" || w.imports(line) {
        var rest := SkipIs(w, source, t, end + 1);
        starts := [start] + rest;
        assert starts[1..] == rest;
        return;
      }
    }
    starts := [start];
  }

  lemma {:induction false} CountNone(s: string, ch: char)
    ensures CountOf(s, ch) == 0 <==> ch !in s
  {
    if s != "" {
      CountNone(s[..|s| - 1], ch);
      assert s == s[..|s| - 1] + [s[|s| - 1]];
    }
  }

  /** A callable's head has parentheses and no brace at all, and is not a control head: the declarator starts behind
      every closing brace before it, so equal counts are no counts. */
  lemma HeadIff(w: Words, source: string, t: string, target: nat, i: nat)
    requires |t| == |source| && i <= |t|
    ensures CallableHead(w, source, t, target, i) <==>
              var start := Declarator(w, source, t, i);
              && start <= target && start <= i
              && var head := t[start..i];
                 '(' in head && ')' in head && '{' !in head && '}' !in head && !w.control(Strip(w, head))
  {
    hide Skip, Strip, Boundary;
    var start := Declarator(w, source, t, i);
    if start <= i {
      var head := t[start..i];
      CountNone(head, '{');
      CountNone(head, '}');
      assert forall k | 0 <= k < |head| :: head[k] == t[start + k];
    }
  }
}
