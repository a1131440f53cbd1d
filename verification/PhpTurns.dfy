/** The turns of the PHP scanner: where each goes on, what it blanks, and whether they ever end. */
module PhpTurns {
  import opened Optional
  import opened Lexer
  import opened Braces

  /** The regular expressions for a heredoc: the label opened at an offset, and the end of the first line
      start at or after an offset that carries it. */
  datatype Heredoc = Heredoc(name: (string, nat) -> Option<string>, ends: (string, string, nat) -> Option<nat>) {
    /** A label is not empty, so the closing match ends after the offset the search starts from. */
    ghost predicate Sound() {
      forall text: string, name: string, from: nat ::
        from <= |text| && ends(text, name, from).Some? ==> from < ends(text, name, from).value <= |text|
    }
  }

  /** The first occurrence of a two-character token at or after i, or the end of the text. */
  function FindPair(s: string, a: char, b: char, i: nat): (k: nat)
    requires i <= |s|
    ensures i <= k <= |s| && (k < |s| ==> IsPair(s, k, a, b)) && forall l | i <= l < k :: !IsPair(s, l, a, b)
    decreases |s| - i
  {
    if i == |s| || IsPair(s, i, a, b) then i else FindPair(s, a, b, i + 1)
  }

  predicate StartsWith(s: string, i: nat, word: string) {
    i <= |s| && word <= s[i..]
  }

  /** Where a quoted literal ends; a trailing backslash steps past the end of the text. */
  function QuoteEnd(s: string, q: char, j: nat): (k: nat)
    ensures j <= k && (j <= |s| ==> k <= |s| + 1) && (k < |s| ==> s[k] == q)
    decreases |s| + 1 - j
  {
    if j >= |s| || s[j] == q then j
    else if s[j] == '\\' then QuoteEnd(s, q, j + 2)
    else QuoteEnd(s, q, j + 1)
  }

  /** str.find(newline) plus one: zero when there is none. */
  function AfterNewline(s: string, i: nat): (from: nat)
    requires i <= |s|
    ensures from <= |s|
    ensures from > 0 ==> i < from && s[from - 1] == '\n' && forall l | i <= l < from - 1 :: s[l] != '\n'
    ensures from == 0 ==> forall l | i <= l < |s| :: s[l] != '\n'
  {
    var k := NextNewline(s, i);
    if k == |s| then 0 else k + 1
  }

  function HeredocEnd(h: Heredoc, s: string, i: nat): (j: nat)
    requires i + 3 <= |s|
  {
    match h.name(s, i)
    case None => i + 3
    case Some(name) =>
      match h.ends(s, name, AfterNewline(s, i))
      case None => i + 3
      case Some(end) => end
  }

  /** One turn of the loop: the offset and mode it goes on with, and the range it blanks. */
  datatype Move = Move(i: nat, php: bool, from: nat, upto: nat)

  function Next(h: Heredoc, s: string, i: nat, php: bool): Move
    requires i < |s|
  {
    if !php then
      var j := FindPair(s, '<', '?', i);
      if j == |s| then Move(j, false, i, j)
      else Move(j + if StartsWith(s, j, "<?php") then 5 else 2, true, i, j)
    else if IsPair(s, i, '?', '>') then Move(i + 2, false, i, i)
    else if IsPair(s, i, '/', '/') || (s[i] == '#' && !IsPair(s, i, '#', '[')) then
      var a, b := NextNewline(s, i), FindPair(s, '?', '>', i);
      var j := if a < b then a else b;
      Move(j, true, i, j)
    else if IsPair(s, i, '/', '*') then
      var k := FindPair(s, '*', '/', i + 2);
      var j := if k == |s| then k else k + 2;
      Move(j, true, i, j)
    else if StartsWith(s, i, "<<<") then
      var j := HeredocEnd(h, s, i);
      Move(j, true, i, j)
    else if s[i] in {'\'', '"'} then
      var j := QuoteEnd(s, s[i], i + 1);
      Move(j + 1, true, i + 1, j)
    else Move(i + 1, true, i, i)
  }

  /** A heredoc label with no newline after it, whose closing label was then found at or before it. */
  predicate Backward(h: Heredoc, s: string, i: nat)
    requires i < |s|
  {
    && StartsWith(s, i, "<<<") && h.name(s, i).Some? && NextNewline(s, i) == |s|
    && var end := h.ends(s, h.name(s, i).value, 0);
       end.Some? && end.value <= i
  }

  /** A turn moves forward unless it stands on such a label. */
  lemma AdvancesUnlessBackward(h: Heredoc, s: string, i: nat, php: bool)
    requires h.Sound() && i < |s|
    ensures Next(h, s, i, php).i > i <==>
              !(php && Backward(h, s, i) && !IsPair(s, i, '?', '>') && !IsPair(s, i, '/', '/') &&
                  !IsPair(s, i, '/', '*'))
  {
    if StartsWith(s, i, "<<<") {
      assert s[i] == s[i..][0] && s[i] == '<';
      var from := AfterNewline(s, i);
      assert NextNewline(s, i) < |s| ==> from > i;
    }
  }

  /** No label of the text sends the search back. */
  predicate Settled(h: Heredoc, s: string) {
    forall i | 0 <= i < |s| :: !Backward(h, s, i)
  }

  /** A newline after every heredoc label is enough. */
  lemma NewlineAfterLabelSettles(h: Heredoc, s: string)
    requires forall i | 0 <= i < |s| && StartsWith(s, i, "<<<") && h.name(s, i).Some? :: NextNewline(s, i) < |s|
    ensures Settled(h, s)
  {
  }

  // ----- does the loop end? -----

  /** Where n turns lead; a finished loop stays where it is. */
  function After(h: Heredoc, s: string, i: nat, php: bool, n: nat): (nat, bool)
    decreases n
  {
    if n == 0 || i >= |s| then (i, php)
    else
      var m := Next(h, s, i, php);
      After(h, s, m.i, m.php, n - 1)
  }

  ghost predicate Ends(h: Heredoc, s: string) {
    exists n: nat :: After(h, s, 0, false, n).0 >= |s|
  }

  lemma {:induction false} AfterSplit(h: Heredoc, s: string, i: nat, php: bool, a: nat, b: nat)
    ensures After(h, s, i, php, a + b) == (var (j, q) := After(h, s, i, php, a); After(h, s, j, q, b))
    decreases a
  {
    hide Next;
    if a != 0 && i < |s| {
      var m := Next(h, s, i, php);
      AfterSplit(h, s, m.i, m.php, a - 1, b);
    }
  }

  /** A loop that comes back to an unfinished turn never ends. */
  lemma {:induction false} ReturningNeverEnds(h: Heredoc, s: string, i: nat, php: bool, period: nat, n: nat)
    requires i < |s| && period > 0 && After(h, s, i, php, period) == (i, php)
    ensures After(h, s, i, php, n).0 < |s|
    decreases n
  {
    hide Next;
    if n >= period {
      ReturningNeverEnds(h, s, i, php, period, n - period);
      AfterSplit(h, s, i, php, period, n - period);
    } else {
      AfterSplit(h, s, i, php, n, period - n);
    }
  }

  lemma {:induction false} SettledAdvances(h: Heredoc, s: string, i: nat, php: bool, n: nat)
    requires h.Sound() && Settled(h, s)
    ensures After(h, s, i, php, n).0 >= |s| || After(h, s, i, php, n).0 >= i + n
    decreases n
  {
    hide Next, Backward;
    if n != 0 && i < |s| {
      AdvancesUnlessBackward(h, s, i, php);
      var m := Next(h, s, i, php);
      SettledAdvances(h, s, m.i, m.php, n - 1);
    }
  }

  lemma SettledEnds(h: Heredoc, s: string)
    requires h.Sound() && Settled(h, s)
    ensures Ends(h, s)
  {
    SettledAdvances(h, s, 0, false, |s|);
  }

  /** More values than there is room for: two are equal. */
  lemma {:induction false} Crowded(q: seq<nat>, bound: nat)
    requires |q| > bound && forall k | 0 <= k < |q| :: q[k] < bound
    ensures exists a: nat, b: nat :: a < b < |q| && q[a] == q[b]
  {
    if p: nat :| p < |q| && q[p] == bound - 1 {
      if r: nat :| r < |q| && r != p && q[r] == bound - 1 {
        var a, b := if p < r then p else r, if p < r then r else p;
        assert a < b < |q| && q[a] == q[b];
      } else {
        var rest := q[..p] + q[p + 1..];
        Crowded(rest, bound - 1);
        var a: nat, b: nat :| a < b < |rest| && rest[a] == rest[b];
        var a', b' := if a < p then a else a + 1, if b < p then b else b + 1;
        assert a' < b' < |q| && q[a'] == q[b'];
      }
    } else {
      assert q[0] < bound;
      Crowded(q, bound - 1);
    }
  }

  function Code(turn: (nat, bool)): nat { 2 * turn.0 + if turn.1 then 1 else 0 }

  /** The loop ends exactly when it has ended after twice as many turns as there are characters. */
  lemma EndsIff(h: Heredoc, s: string)
    ensures Ends(h, s) <==> After(h, s, 0, false, 2 * |s|).0 >= |s|
  {
    hide Next;
    if Ends(h, s) && After(h, s, 0, false, 2 * |s|).0 < |s| {
      var n: nat :| After(h, s, 0, false, n).0 >= |s|;
      var q := seq(2 * |s| + 1, k requires 0 <= k => Code(After(h, s, 0, false, k)));
      forall k | 0 <= k < |q| ensures q[k] < 2 * |s| {
        AfterSplit(h, s, 0, false, k, 2 * |s| - k);
      }
      Crowded(q, 2 * |s|);
      var a: nat, b: nat :| a < b < |q| && q[a] == q[b];
      var (i, php) := After(h, s, 0, false, a);
      AfterSplit(h, s, 0, false, a, b - a);
      AfterSplit(h, s, 0, false, a, n);
      AfterSplit(h, s, 0, false, n, a);
      ReturningNeverEnds(h, s, i, php, b - a, n);
      assert false;
    }
  }

  /** A heredoc on the last line whose label starts an earlier line: the loop never ends. */
  lemma UnclosedHeredocNeverEnds(h: Heredoc)
    requires h.name("<?php\nA\n<<<A", 8) == Some("A") && h.ends("<?php\nA\n<<<A", "A", 0) == Some(7)
    ensures !Ends(h, "<?php\nA\n<<<A")
  {
    var s := "<?php\nA\n<<<A";
    assert StartsWith(s, 0, "<?php") && FindPair(s, '<', '?', 0) == 0;
    assert Next(h, s, 0, false) == Move(5, true, 0, 0);
    assert s[5] == '\n' && Next(h, s, 5, true).i == 6;
    assert s[6] == 'A' && Next(h, s, 6, true).i == 7;
    assert After(h, s, 0, false, 3) == (7, true);
    assert s[7] == '\n' && Next(h, s, 7, true) == Move(8, true, 7, 7);
    assert s[8..] == "<<<A" && StartsWith(s, 8, "<<<");
    assert NextNewline(s, 12) == 12 && NextNewline(s, 10) == 12 && NextNewline(s, 8) == 12;
    assert HeredocEnd(h, s, 8) == 7;
    assert Next(h, s, 8, true).i == 7;
    assert After(h, s, 7, true, 2) == (7, true);
    forall n: nat ensures After(h, s, 0, false, n).0 < |s| {
      AfterSplit(h, s, 0, false, 3, n);
      ReturningNeverEnds(h, s, 7, true, 2, n);
      AfterSplit(h, s, 0, false, n, 3);
    }
  }

  // ----- what the turns blank -----

  /** One of the next n turns blanks the character at k. */
  predicate Hidden(h: Heredoc, s: string, i: nat, php: bool, n: nat, k: nat)
    decreases n
  {
    n > 0 && i < |s| &&
    var m := Next(h, s, i, php);
    m.from <= k < m.upto || Hidden(h, s, m.i, m.php, n - 1, k)
  }

  /** The character at k after n turns from i, when t stands there. */
  function Shown(h: Heredoc, s: string, i: nat, php: bool, n: nat, t: string, k: nat): char
    requires k < |t|
  {
    if Hidden(h, s, i, php, n, k) then Blank(t[k]) else t[k]
  }

  /** The character at k when the loop has ended, as it has after this many turns if it ends at all. */
  function Final(h: Heredoc, s: string, k: nat): char
    requires k < |s|
  {
    Shown(h, s, 0, false, 2 * |s|, s, k)
  }

  /** n more turns end the loop and make of t what all turns make of the source. */
  ghost predicate Remains(h: Heredoc, s: string, i: nat, php: bool, n: nat, t: string) {
    && |t| == |s| && After(h, s, i, php, n).0 >= |s|
    && forall k | 0 <= k < |s| :: Shown(h, s, i, php, n, t, k) == Final(h, s, k)
  }

  lemma TurnRemains(h: Heredoc, s: string, i: nat, php: bool, n: nat, before: string, after: string)
    requires i < |s| && Remains(h, s, i, php, n, before) && |after| == |s|
    requires var m := Next(h, s, i, php);
             forall k | 0 <= k < |s| :: after[k] == if m.from <= k < m.upto then Blank(before[k]) else before[k]
    ensures var m := Next(h, s, i, php); n > 0 && Remains(h, s, m.i, m.php, n - 1, after)
  {
    hide Next, Final;
    var m := Next(h, s, i, php);
    forall k | 0 <= k < |s| ensures Shown(h, s, m.i, m.php, n - 1, after, k) == Shown(h, s, i, php, n, before, k) {
      assert Hidden(h, s, i, php, n, k) <==> m.from <= k < m.upto || Hidden(h, s, m.i, m.php, n - 1, k);
    }
  }

  lemma NothingTurned(h: Heredoc, s: string)
    requires Ends(h, s)
    ensures Remains(h, s, 0, false, 2 * |s|, s)
  {
    EndsIff(h, s);
  }

  lemma AllTurnsDone(h: Heredoc, s: string, i: nat, php: bool, n: nat, t: string)
    requires i >= |s| && Remains(h, s, i, php, n, t)
    ensures |t| == |s| && forall k | 0 <= k < |s| :: t[k] == Final(h, s, k)
  {
    hide Final;
    forall k | 0 <= k < |s| ensures t[k] == Final(h, s, k) {
      assert !Hidden(h, s, i, php, n, k);
    }
  }
}
