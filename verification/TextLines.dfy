/** Splitting text into lines at a given set of boundary characters. */
module TextLines {

  const NEWLINE: set<char> := {'\n'}

  /** The other characters str.splitlines breaks at. */
  const FOREIGN: set<char> := {'\r', '\U{0B}', '\U{0C}', '\U{1C}', '\U{1D}', '\U{1E}', '\U{85}', '\U{2028}', '\U{2029}'}

  function FirstBreak(text: string, breaks: set<char>): (k: nat)
    ensures k <= |text| && (k < |text| ==> text[k] in breaks) && forall i | 0 <= i < k :: text[i] !in breaks
  {
    if text == "" || text[0] in breaks then 0 else 1 + FirstBreak(text[1..], breaks)
  }

  /** Where a piece ends whose boundary is at k: a carriage return and its newline are one boundary. */
  function PieceAfter(text: string, k: nat): (e: nat)
    requires k < |text|
    ensures k < e <= |text|
  {
    if text[k] == '\r' && k + 1 < |text| && text[k + 1] == '\n' then k + 2 else k + 1
  }

  /** A final line without a boundary counts; a final boundary opens no further line. */
  function Lines(text: string, breaks: set<char>): seq<string> {
    if text == "" then []
    else
      var k := FirstBreak(text, breaks);
      if k == |text| then [text] else [text[..k]] + Lines(text[k + 1..], breaks)
  }

  /** Every line of the text is complete. */
  predicate Complete(text: string, breaks: set<char>) {
    text == "" || text[|text| - 1] in breaks
  }

  /** The first boundary of a text does not depend on what follows it. */
  lemma {:induction false} SameBreak(text: string, more: string, breaks: set<char>)
    requires text != "" && text[|text| - 1] in breaks
    ensures FirstBreak(text, breaks) < |text| && FirstBreak(text + more, breaks) == FirstBreak(text, breaks)
  {
    if text[0] !in breaks {
      assert (text + more)[1..] == text[1..] + more;
      SameBreak(text[1..], more, breaks);
    }
  }

  lemma {:induction false} LinesAppend(text: string, more: string, breaks: set<char>)
    requires Complete(text, breaks)
    ensures Lines(text + more, breaks) == Lines(text, breaks) + Lines(more, breaks)
    decreases |text|
  {
    if text == "" {
      assert text + more == more;
    } else {
      var k := FirstBreak(text, breaks);
      SameBreak(text, more, breaks);
      var rest := text[k + 1..];
      assert (text + more)[..k] == text[..k] && (text + more)[k + 1..] == rest + more;
      LinesAppend(rest, more, breaks);
    }
  }

  lemma OneLine(line: string, end: char, breaks: set<char>)
    requires end in breaks && forall k | 0 <= k < |line| :: line[k] !in breaks
    ensures Lines(line + [end], breaks) == [line]
  {
    var text := line + [end];
    assert text[|line|] == end;
    assert forall k | 0 <= k < |line| :: text[k] == line[k];
    assert FirstBreak(text, breaks) == |line|;
    assert text[..|line|] == line && text[|line| + 1..] == "";
  }

  /** A last line without its boundary is a line too. */
  lemma LastLine(line: string, breaks: set<char>)
    requires line != "" && forall k | 0 <= k < |line| :: line[k] !in breaks
    ensures Lines(line, breaks) == [line]
  {
    assert FirstBreak(line, breaks) == |line|;
  }
}
