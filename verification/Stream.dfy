/** The evidence a backend gathers from an event stream: line assembly, rollback, and the one retry. */
module Stream {
  import opened Optional
  import opened TextLines
  import opened Picks

  /** What a line of output says: a question was put, rows were answered, both or neither. */
  datatype Event = Event(question: Option<string>, answer: Option<(string, string)>)

  datatype Evidence = Evidence(asked: seq<string>, answers: map<string, string>, counts: map<string, nat>)

  const NOTHING := Evidence([], map[], map[])

  function Apply(e: Evidence, event: Event): Evidence {
    var asked := if event.question.Some? then e.asked + [event.question.value] else e.asked;
    match event.answer
    case None => Evidence(asked, e.answers, e.counts)
    case Some((id, rows)) =>
      Evidence(asked, e.answers[id := rows], e.counts[id := 1 + if id in e.counts then e.counts[id] else 0])
  }

  /** What these lines make of the evidence, one after the other. */
  function Fold(parse: string -> Event, e: Evidence, lines: seq<string>): Evidence {
    if lines == [] then e else Apply(Fold(parse, e, lines[..|lines| - 1]), parse(lines[|lines| - 1]))
  }

  lemma {:induction false} FoldSplit(parse: string -> Event, e: Evidence, a: seq<string>, b: seq<string>)
    ensures Fold(parse, e, a + b) == Fold(parse, Fold(parse, e, a), b)
    decreases |b|
  {
    if b == [] {
      assert a + b == a;
    } else {
      var front := b[..|b| - 1];
      FoldSplit(parse, e, a, front);
      assert (a + b)[..|a + b| - 1] == a + front;
    }
  }

  lemma FoldNone(parse: string -> Event, e: Evidence)
    ensures Fold(parse, e, []) == e
  {
  }

  lemma FoldOne(parse: string -> Event, e: Evidence, lines: seq<string>, line: string)
    ensures Fold(parse, e, lines + [line]) == Apply(Fold(parse, e, lines), parse(line))
  {
    assert (lines + [line])[..|lines|] == lines;
  }

  // ----- what the evidence is, line by line -----

  predicate Asks(parse: string -> Event, line: string) { parse(line).question.Some? }

  predicate Answers(parse: string -> Event, line: string, id: string) {
    parse(line).answer.Some? && parse(line).answer.value.0 == id
  }

  ghost predicate LastAnswer(parse: string -> Event, lines: seq<string>, id: string, k: nat) {
    && k < |lines| && Answers(parse, lines[k], id)
    && forall l: nat | k < l < |lines| :: !Answers(parse, lines[l], id)
  }

  predicate Put(parse: string -> Event, asking: seq<string>, asked: seq<string>) {
    |asked| == |asking| && forall k | 0 <= k < |asking| :: parse(asking[k]).question == Some(asked[k])
  }

  /** The questions of the lines in their order; for an id the rows of its last answer and the number of its answers. */
  ghost predicate Collected(parse: string -> Event, lines: seq<string>, e: Evidence) {
    && (exists asking :: Picked(line => Asks(parse, line), lines, asking) && Put(parse, asking, e.asked))
    && (forall id :: id in e.answers <==> exists k: nat :: LastAnswer(parse, lines, id, k))
    && (forall id, k: nat | LastAnswer(parse, lines, id, k) ::
          id in e.answers && e.answers[id] == parse(lines[k]).answer.value.1)
    && (forall id :: id in e.counts <==> id in e.answers)
    && (forall id | id in e.counts :: e.counts[id] == Rank(line => Answers(parse, line, id), lines, |lines|))
  }

  /** From nothing the lines collect exactly this. */
  lemma {:induction false} FoldCollects(parse: string -> Event, lines: seq<string>)
    ensures Collected(parse, lines, Fold(parse, NOTHING, lines))
  {
    if lines == [] {
      assert Picked(line => Asks(parse, line), lines, []) && Put(parse, [], NOTHING.asked);
    } else {
      var front, line := lines[..|lines| - 1], lines[|lines| - 1];
      assert lines == front + [line];
      FoldCollects(parse, front);
      CollectOneMore(parse, front, line, Fold(parse, NOTHING, front));
    }
  }

  lemma CollectOneMore(parse: string -> Event, lines: seq<string>, line: string, e: Evidence)
    requires Collected(parse, lines, e)
    ensures Collected(parse, lines + [line], Apply(e, parse(line)))
  {
    hide Picked, LastAnswer, Rank, Answers, Asks, Put;
    var p := line => Asks(parse, line);
    var asking :| Picked(p, lines, asking) && Put(parse, asking, e.asked);
    PickOneMore(p, lines, asking, line);
    PutOneMore(parse, asking, e, line);
    AnswersOneMore(parse, lines, line, e);
    CountsOneMore(parse, lines, line, e);
  }

  lemma PutOneMore(parse: string -> Event, asking: seq<string>, e: Evidence, line: string)
    requires Put(parse, asking, e.asked)
    ensures Put(parse, asking + if Asks(parse, line) then [line] else [], Apply(e, parse(line)).asked)
  {
  }

  lemma AnswersOneMore(parse: string -> Event, lines: seq<string>, line: string, e: Evidence)
    requires Collected(parse, lines, e)
    ensures var all, after := lines + [line], Apply(e, parse(line));
            (forall id :: id in after.answers <==> exists k: nat :: LastAnswer(parse, all, id, k)) &&
            (forall id, k: nat | LastAnswer(parse, all, id, k) ::
               id in after.answers && after.answers[id] == parse(all[k]).answer.value.1)
  {
    hide Picked, Rank;
    var all, after := lines + [line], Apply(e, parse(line));
    forall id, k: nat | LastAnswer(parse, all, id, k)
      ensures id in after.answers && after.answers[id] == parse(all[k]).answer.value.1
    {
      LastOneMore(parse, lines, line, id, k);
      assert k < |lines| ==> all[k] == lines[k];
    }
    forall id | id in after.answers ensures exists k: nat :: LastAnswer(parse, all, id, k) {
      LastOneMore(parse, lines, line, id, |lines|);
      if !Answers(parse, line, id) {
        var k: nat :| LastAnswer(parse, lines, id, k);
        LastOneMore(parse, lines, line, id, k);
      }
    }
  }

  lemma CountsOneMore(parse: string -> Event, lines: seq<string>, line: string, e: Evidence)
    requires Collected(parse, lines, e)
    ensures var all, after := lines + [line], Apply(e, parse(line));
            forall id | id in after.counts :: after.counts[id] == Rank(line => Answers(parse, line, id), all, |all|)
  {
    hide Picked, LastAnswer, Rank, Answers;
    var all, after := lines + [line], Apply(e, parse(line));
    forall id | id in after.counts ensures after.counts[id] == Rank(line => Answers(parse, line, id), all, |all|) {
      Names(parse, line, id);
      CountOneMore(parse, lines, line, id);
      if id !in e.answers { NoneCounted(parse, lines, id); }
    }
  }

  lemma Names(parse: string -> Event, line: string, id: string)
    ensures Answers(parse, line, id) <==> parse(line).answer.Some? && parse(line).answer.value.0 == id
  {
  }

  lemma LastOneMore(parse: string -> Event, lines: seq<string>, line: string, id: string, k: nat)
    ensures LastAnswer(parse, lines + [line], id, k) <==>
              if Answers(parse, line, id) then k == |lines| else LastAnswer(parse, lines, id, k)
    ensures LastAnswer(parse, lines, id, k) ==> k < |lines|
  {
    var all := lines + [line];
    assert all[|lines|] == line;
    assert forall l: nat | l < |lines| :: all[l] == lines[l];
  }

  lemma CountOneMore(parse: string -> Event, lines: seq<string>, line: string, id: string)
    ensures Rank(line => Answers(parse, line, id), lines + [line], |lines| + 1) ==
            Rank(line => Answers(parse, line, id), lines, |lines|) + if Answers(parse, line, id) then 1 else 0
  {
    RankGrows(line => Answers(parse, line, id), lines, line, |lines|);
  }

  /** An id without a last answer has no answer. */
  lemma NoneCounted(parse: string -> Event, lines: seq<string>, id: string)
    requires forall k: nat :: !LastAnswer(parse, lines, id, k)
    ensures Rank(line => Answers(parse, line, id), lines, |lines|) == 0
  {
    var p := line => Answers(parse, line, id);
    var answering := set l: nat | l < |lines| && p(lines[l]);
    if answering != {} {
      var last := Greatest(answering);
      forall l: nat | last < l < |lines| ensures !Answers(parse, lines[l], id) {
        assert l !in answering;
      }
      assert LastAnswer(parse, lines, id, last);
    }
    assert forall l: nat | l < |lines| :: p(lines[l]) ==> l in answering;
    NonePicked(p, lines);
  }

  lemma {:induction false} Greatest(s: set<nat>) returns (m: nat)
    requires s != {}
    ensures m in s && forall k | k in s :: k <= m
  {
    m :| m in s;
    if s != {m} {
      var rest := s - {m};
      assert s == rest + {m};
      var top := Greatest(rest);
      m := if top > m then top else m;
    }
  }

  // ----- complete lines -----

  /** The offset after the last newline. */
  function CompleteEnd(text: string): (n: nat)
    ensures n <= |text| && (n > 0 ==> text[n - 1] == '\n') && forall k | n <= k < |text| :: text[k] != '\n'
  {
    if text == "" || text[|text| - 1] == '\n' then |text| else CompleteEnd(text[..|text| - 1])
  }

  /** The lines of the text that have ended. */
  function Whole(text: string): seq<string> {
    Lines(text[..CompleteEnd(text)], NEWLINE)
  }

  lemma CompleteEndIs(text: string, n: nat)
    requires n <= |text| && (n > 0 ==> text[n - 1] == '\n') && forall k | n <= k < |text| :: text[k] != '\n'
    ensures CompleteEnd(text) == n
  {
  }

  lemma EndCut(text: string, n: nat)
    requires n <= |text| && (n > 0 ==> text[n - 1] == '\n')
    ensures CompleteEnd(text) == n + CompleteEnd(text[n..])
  {
    hide CompleteEnd;
    var rest := text[n..];
    var m := CompleteEnd(rest);
    forall k | n + m <= k < |text| ensures text[k] != '\n' {
      assert text[k] == rest[k - n];
    }
    if m > 0 {
      assert rest[m - 1] == text[n + m - 1];
    }
    CompleteEndIs(text, n + m);
  }

  /** Cutting a text after a newline cuts its complete lines in two. */
  lemma WholeCut(text: string, n: nat)
    requires n <= |text| && (n > 0 ==> text[n - 1] == '\n')
    ensures Whole(text) == Lines(text[..n], NEWLINE) + Whole(text[n..])
  {
    hide CompleteEnd, Lines;
    EndCut(text, n);
    var rest := text[n..];
    var m := CompleteEnd(rest);
    assert text[..n + m] == text[..n] + rest[..m];
    assert Complete(text[..n], NEWLINE);
    LinesAppend(text[..n], rest[..m], NEWLINE);
  }

  lemma NoLine(text: string)
    requires FirstBreak(text, NEWLINE) == |text|
    ensures CompleteEnd(text) == 0 && Whole(text) == []
  {
    hide CompleteEnd, FirstBreak;
    forall k | 0 <= k < |text| ensures text[k] != '\n' {
      assert text[k] !in NEWLINE;
    }
    CompleteEndIs(text, 0);
    assert text[..0] == "";
  }

  /** Splitting at the first newline splits off the first complete line. */
  lemma FirstLineIs(text: string, k: nat)
    requires k < |text| && text[k] == '\n' && forall i | 0 <= i < k :: text[i] !in NEWLINE
    ensures Whole(text) == [text[..k]] + Whole(text[k + 1..])
  {
    hide Lines, Whole;
    WholeCut(text, k + 1);
    assert text[..k + 1] == text[..k] + ['\n'];
    OneLine(text[..k], '\n', NEWLINE);
  }

  lemma OnlyNewline(ch: char)
    requires ch in NEWLINE
    ensures ch == '\n'
  {
  }

  lemma FirstLine(text: string)
    requires FirstBreak(text, NEWLINE) < |text|
    ensures var k := FirstBreak(text, NEWLINE);
            text[k] == '\n' && Whole(text) == [text[..k]] + Whole(text[k + 1..])
  {
    hide *;
    var k := FirstBreak(text, NEWLINE);
    assert text[k] in NEWLINE;
    OnlyNewline(text[k]);
    FirstLineIs(text, k);
  }

  // ----- what the session observer takes -----

  /** Where the first piece ends, when it ends with a newline. */
  function PieceEnd(text: string): (e: Option<nat>)
    ensures e.Some? ==> 0 < e.value <= |text| && text[e.value - 1] == '\n'
  {
    var k := FirstBreak(text, FOREIGN + NEWLINE);
    if k == |text| then None
    else
      var e := PieceAfter(text, k);
      if text[e - 1] == '\n' then Some(e) else None
  }

  /** How far the observer gets: it stops at the first piece that does not end with a newline. */
  function Consumed(text: string): (n: nat)
    ensures n <= |text| && (n > 0 ==> text[n - 1] == '\n')
    decreases |text|
  {
    match PieceEnd(text)
    case None => 0
    case Some(e) => e + Consumed(text[e..])
  }

  function SessionLines(text: string): seq<string>
    decreases |text|
  {
    match PieceEnd(text)
    case None => []
    case Some(e) => [text[..e - 1]] + SessionLines(text[e..])
  }

  lemma FirstPiece(text: string)
    ensures match PieceEnd(text)
            case None => Consumed(text) == 0 && SessionLines(text) == []
            case Some(e) =>
              && Consumed(text) == e + Consumed(text[e..])
              && SessionLines(text) == [text[..e - 1]] + SessionLines(text[e..])
  {
  }

  lemma PieceStays(text: string, more: string)
    requires PieceEnd(text).Some?
    ensures PieceEnd(text + more) == PieceEnd(text)
  {
    var breaks := FOREIGN + NEWLINE;
    var k, k' := FirstBreak(text, breaks), FirstBreak(text + more, breaks);
    assert (text + more)[k] == text[k];
    assert k' < |text| ==> (text + more)[k'] == text[k'];
  }

  /** What is consumed early is consumed for good, and the rest goes on from there. */
  lemma {:induction false} ConsumedAppend(text: string, more: string)
    ensures var n := Consumed(text);
            Consumed(text + more) == n + Consumed(text[n..] + more)
            && SessionLines(text + more) == SessionLines(text) + SessionLines(text[n..] + more)
    decreases |text|
  {
    hide PieceEnd, Consumed, SessionLines, FirstBreak;
    FirstPiece(text);
    if PieceEnd(text).None? {
      assert text[0..] == text;
    } else {
      var e := PieceEnd(text).value;
      var rest := text[e..];
      PieceStays(text, more);
      FirstPiece(text + more);
      assert (text + more)[e..] == rest + more;
      assert (text + more)[..e - 1] == text[..e - 1];
      ConsumedAppend(rest, more);
      assert rest[Consumed(rest)..] == text[e + Consumed(rest)..];
    }
  }

  lemma PieceHasNoNewline(text: string)
    requires PieceEnd(text).Some?
    ensures forall k | 0 <= k < PieceEnd(text).value - 1 :: text[k] !in NEWLINE
  {
    assert NEWLINE <= FOREIGN + NEWLINE && '\r' !in NEWLINE;
  }

  /** The piece is the first complete line. */
  lemma PieceIsLine(text: string)
    requires PieceEnd(text).Some?
    ensures var e := PieceEnd(text).value; Whole(text) == [text[..e - 1]] + Whole(text[e..])
  {
    PieceHasNoNewline(text);
    FirstLineIs(text, PieceEnd(text).value - 1);
  }

  /** Every other boundary in a complete line is the carriage return before its newline. */
  predicate Plain(text: string) {
    forall k | 0 <= k < CompleteEnd(text) && text[k] in FOREIGN :: text[k] == '\r' && text[k + 1] == '\n'
  }

  /** The observer sees every complete line exactly when there is no foreign boundary inside one, and otherwise only
      some
      first ones. */
  lemma {:induction false} ObserverMissesIff(text: string)
    ensures SessionLines(text) <= Whole(text)
    ensures SessionLines(text) == Whole(text) <==> Plain(text)
    decreases |text|
  {
    FirstPiece(text);
    if PieceEnd(text).None? {
      StuckIff(text);
    } else {
      var rest := text[PieceEnd(text).value..];
      PieceIsLine(text);
      PlainCut(text);
      ObserverMissesIff(rest);
      hide PieceEnd, Whole, Plain, SessionLines;
      assert SessionLines(text)[1..] == SessionLines(rest) && Whole(text)[1..] == Whole(rest);
    }
  }

  /** Before its first piece the observer is stuck if and only if there is a complete line to miss. */
  lemma StuckIff(text: string)
    requires PieceEnd(text).None?
    ensures !Plain(text) <==> CompleteEnd(text) > 0
    ensures Whole(text) == [] <==> CompleteEnd(text) == 0
  {
    var n, k := CompleteEnd(text), FirstBreak(text, FOREIGN + NEWLINE);
    if n > 0 {
      assert text[n - 1] in FOREIGN + NEWLINE;
      assert k < n && text[k] in FOREIGN;
      assert text[..n] != "";
    }
  }

  /** A first piece without a newline is followed by none, once a complete line is out. */
  lemma StuckStays(text: string, more: string)
    requires PieceEnd(text).None? && CompleteEnd(text) > 0
    ensures PieceEnd(text + more).None?
  {
    var breaks := FOREIGN + NEWLINE;
    var n := CompleteEnd(text);
    assert text[n - 1] in breaks;
    var k, k' := FirstBreak(text, breaks), FirstBreak(text + more, breaks);
    assert k < n - 1;
    assert (text + more)[k] == text[k] && (text + more)[k + 1] == text[k + 1];
    assert k' < |text| ==> (text + more)[k'] == text[k'];
  }

  /** Once a foreign boundary stands inside a complete line, no later output frees the observer. */
  lemma {:induction false} WaitsForEver(text: string, more: string)
    requires !Plain(text)
    ensures Consumed(text + more) == Consumed(text) && SessionLines(text + more) == SessionLines(text)
    decreases |text|
  {
    hide PieceEnd, Plain, Consumed, SessionLines, FirstBreak, CompleteEnd, Whole;
    FirstPiece(text);
    FirstPiece(text + more);
    if PieceEnd(text).None? {
      StuckIff(text);
      StuckStays(text, more);
    } else {
      var e := PieceEnd(text).value;
      PieceStays(text, more);
      PlainCut(text);
      assert (text + more)[e..] == text[e..] + more;
      assert (text + more)[..e - 1] == text[..e - 1];
      WaitsForEver(text[e..], more);
    }
  }

  /** A text whose one complete line is never seen. */
  lemma MissedLine(more: string)
    ensures Whole("a\U{2028}b\n") == ["a\U{2028}b"] && SessionLines("a\U{2028}b\n" + more) == []
  {
    var text := "a\U{2028}b\n";
    assert text[0] == 'a' && text[1] == '\U{2028}' && text[2] == 'b' && text[3] == '\n';
    assert 'a' !in FOREIGN + NEWLINE && '\U{2028}' in FOREIGN + NEWLINE;
    FirstLineIs(text, 3);
    assert text[..3] == "a\U{2028}b" && text[4..] == "" && Whole("") == [];
    var k := FirstBreak(text, FOREIGN + NEWLINE);
    assert k == 1;
    assert PieceEnd(text).None?;
    StuckIff(text);
    WaitsForEver(text, more);
  }

  lemma PlainCut(text: string)
    requires PieceEnd(text).Some?
    ensures Plain(text) <==> Plain(text[PieceEnd(text).value..])
  {
    var e := PieceEnd(text).value;
    var rest := text[e..];
    hide CompleteEnd, PieceEnd;
    EndCut(text, e);
    if Plain(rest) {
      forall k | 0 <= k < CompleteEnd(text) && text[k] in FOREIGN ensures text[k] == '\r' && text[k + 1] == '\n' {
        if k >= e { assert rest[k - e] == text[k]; }
      }
    }
    if Plain(text) {
      forall k | 0 <= k < CompleteEnd(rest) && rest[k] in FOREIGN ensures rest[k] == '\r' && rest[k + 1] == '\n' {
        assert text[k + e] == rest[k];
      }
    }
  }

  // ----- the backend -----

  datatype Fault = NoFault | EngineBug | Other

  /** What one attempt of the shipped batch does: the lines it streams, the fault it leaves, whether it ran
      out of time, whether its overlay pass asked for a retry, and whether it answered. */
  datatype Attempt = Attempt(lines: seq<string>, fault: Fault, late: bool, overlay: bool, answered: bool)

  function Concat(chunks: seq<string>): string {
    if chunks == [] then "" else Concat(chunks[..|chunks| - 1]) + chunks[|chunks| - 1]
  }

  function Last(outputs: seq<string>): string {
    if outputs == [] then "" else outputs[|outputs| - 1]
  }

  class Backend {
    const parse: string -> Event
    var asked: seq<string>
    var answers: map<string, string>
    var counts: map<string, nat>
    var fatal: Fault
    var timedOut: bool
    var retryPending: bool
    var retries: seq<bool>

    constructor (parse: string -> Event)
      ensures this.parse == parse && Gathered() == NOTHING
      ensures fatal == NoFault && !timedOut && !retryPending && retries == []
    {
      this.parse := parse;
      asked, answers, counts := [], map[], map[];
      fatal, timedOut, retryPending, retries := NoFault, false, false, [];
    }

    function Gathered(): Evidence
      reads this`asked, this`answers, this`counts
    {
      Evidence(asked, answers, counts)
    }

    method Take(line: string)
      modifies this`asked, this`answers, this`counts
      ensures Gathered() == Apply(old(Gathered()), parse(line))
    {
      var event := parse(line);
      if event.question.Some? {
        asked := asked + [event.question.value];
      }
      if event.answer.Some? {
        var (id, rows) := event.answer.value;
        answers := answers[id := rows];
        counts := counts[id := 1 + if id in counts then counts[id] else 0];
      }
    }

    /** One chunk of process output joins the pending text, and every line it completes is taken. */
    method Feed(pending: string, chunk: string) returns (rest: string)
      requires forall k | 0 <= k < |pending| :: pending[k] != '\n'
      modifies this`asked, this`answers, this`counts
      ensures Gathered() == Fold(parse, old(Gathered()), Whole(pending + chunk))
      ensures rest == (pending + chunk)[CompleteEnd(pending + chunk)..]
    {
      hide Lines, Fold, Apply, Whole, FirstBreak, CompleteEnd;
      ghost var text, taken := pending + chunk, 0;
      ghost var lines: seq<string> := [];
      rest := pending + chunk;
      FoldNone(parse, old(Gathered()));
      while true
        invariant taken <= |text| && (taken > 0 ==> text[taken - 1] == '\n') && rest == text[taken..]
        invariant lines + Whole(rest) == Whole(text)
        invariant Gathered() == Fold(parse, old(Gathered()), lines)
        decreases |rest|
      {
        var k := FirstBreak(rest, NEWLINE);
        if k == |rest| {
          NoLine(rest);
          break;
        }
        FirstLine(rest);
        var line := rest[..k];
        Take(line);
        FoldOne(parse, old(Gathered()), lines, line);
        lines := lines + [line];
        rest := rest[k + 1..];
        taken := taken + k + 1;
      }
      assert lines + [] == lines;
      EndCut(text, taken);
    }

    /** The process run: however the output is cut into chunks, the evidence is what its complete lines say. */
    method Run(chunks: seq<string>)
      modifies this`asked, this`answers, this`counts
      ensures Gathered() == Fold(parse, old(Gathered()), Whole(Concat(chunks)))
    {
      var pending := "";
      for n := 0 to |chunks|
        invariant Gathered() == Fold(parse, old(Gathered()), Whole(Concat(chunks[..n])))
        invariant pending == Concat(chunks[..n])[CompleteEnd(Concat(chunks[..n]))..]
      {
        ghost var before := Concat(chunks[..n]);
        assert chunks[..n + 1][..n] == chunks[..n] && Concat(chunks[..n + 1]) == before + chunks[n];
        FeedGoesOn(parse, old(Gathered()), before, chunks[n]);
        pending := Feed(pending, chunks[n]);
      }
      assert chunks[..|chunks|] == chunks;
    }

    /** The session observer is given all output so far and takes the lines it has not consumed. */
    method Observe(output: string, consumed: nat) returns (next: nat)
      requires consumed <= |output|
      modifies this`asked, this`answers, this`counts
      ensures next == consumed + Consumed(output[consumed..])
      ensures Gathered() == Fold(parse, old(Gathered()), SessionLines(output[consumed..]))
    {
      hide PieceEnd, Consumed, SessionLines, Fold, Apply;
      next := consumed;
      ghost var lines: seq<string> := [];
      FoldNone(parse, old(Gathered()));
      while true
        invariant consumed <= next <= |output|
        invariant next + Consumed(output[next..]) == consumed + Consumed(output[consumed..])
        invariant lines + SessionLines(output[next..]) == SessionLines(output[consumed..])
        invariant Gathered() == Fold(parse, old(Gathered()), lines)
        decreases |output| - next
      {
        var rest := output[next..];
        FirstPiece(rest);
        var end := PieceEnd(rest);
        if end.None? {
          break;
        }
        var line := rest[..end.value - 1];
        Take(line);
        FoldOne(parse, old(Gathered()), lines, line);
        assert rest[end.value..] == output[next + end.value..];
        lines := lines + [line];
        next := next + end.value;
      }
      assert lines + [] == lines;
    }

    /** A session attempt, over the growing outputs it is shown: unverified, it leaves no trace. */
    method SessionPayload(outputs: seq<string>, late: bool, verified: bool) returns (kept: bool)
      requires forall n | 0 < n < |outputs| :: outputs[n - 1] <= outputs[n]
      modifies this`asked, this`answers, this`counts, this`timedOut
      ensures kept == (late || verified) && timedOut == (old(timedOut) || late)
      ensures Gathered() == if kept then Fold(parse, old(Gathered()), SessionLines(Last(outputs))) else old(Gathered())
    {
      var priorAsked, priorAnswers, priorCounts := asked, answers, counts;
      var consumed := 0;
      for n := 0 to |outputs|
        invariant timedOut == old(timedOut)
        invariant consumed == Consumed(Last(outputs[..n])) && |Last(outputs[..n])| >= consumed
        invariant Gathered() == Fold(parse, old(Gathered()), SessionLines(Last(outputs[..n])))
      {
        ghost var before := Last(outputs[..n]);
        assert Last(outputs[..n + 1]) == outputs[n] && before <= outputs[n];
        ObserveGoesOn(parse, old(Gathered()), before, outputs[n]);
        consumed := Observe(outputs[n], consumed);
      }
      assert outputs[..|outputs|] == outputs;
      assert Gathered() == Fold(parse, old(Gathered()), SessionLines(Last(outputs)));
      if late {
        timedOut := true;
        return true;
      }
      if !verified {
        asked, answers, counts := priorAsked, priorAnswers, priorCounts;
      }
      kept := verified;
    }

    /** The shipped batch, as a step of its own. */
    method Ship(attempt: Attempt) returns (answered: bool)
      modifies this`asked, this`answers, this`counts, this`fatal, this`timedOut, this`retryPending
      ensures Gathered() == Fold(parse, old(Gathered()), attempt.lines)
      ensures fatal == attempt.fault && timedOut == (old(timedOut) || attempt.late)
      ensures retryPending == (old(retryPending) || attempt.overlay) && answered == attempt.answered
    {
      for n := 0 to |attempt.lines|
        invariant Gathered() == Fold(parse, old(Gathered()), attempt.lines[..n])
        invariant unchanged(this`fatal, this`timedOut, this`retryPending)
      {
        Take(attempt.lines[n]);
        assert attempt.lines[..n + 1] == attempt.lines[..n] + [attempt.lines[n]];
        FoldOne(parse, old(Gathered()), attempt.lines[..n], attempt.lines[n]);
      }
      assert attempt.lines[..|attempt.lines|] == attempt.lines;
      fatal, timedOut, retryPending := attempt.fault, timedOut || attempt.late, retryPending || attempt.overlay;
      answered := attempt.answered;
    }

    /** One batch: over any calls at most one retry, and a retry counts on nothing gathered before it. */
    method BatchOnce(taint: bool, shipped: Attempt, script: bool, retried: Attempt) returns (answered: bool)
      requires |retries| <= 1
      modifies this
      ensures |retries| <= 1 && old(retries) <= retries
      ensures retries != old(retries) <==>
                Retries(old(!fatal.NoFault? || timedOut), old(retryPending), old(retries) != [], taint, shipped)
      ensures retries != old(retries) ==>
                Gathered() == Fold(parse, NOTHING, if script then retried.lines else [])
                && (retries[0] <==> script && retried.answered && retried.fault.NoFault? && !retried.late)
                && (fatal.NoFault? <==> retries[0]) && timedOut == (script && retried.late)
                && answered == (script && retried.answered)
      ensures retries == old(retries) && old(fatal.NoFault? && !timedOut && !retryPending) ==>
                Gathered() == Fold(parse, old(Gathered()), shipped.lines) && fatal == shipped.fault
                && timedOut == shipped.late && answered == (shipped.answered && !shipped.fault.EngineBug?)
      ensures retries == old(retries) && old(!fatal.NoFault? || timedOut || retryPending) ==>
                Gathered() == old(Gathered()) && !answered && timedOut == old(timedOut)
                && fatal == if old(fatal.NoFault? && !timedOut) then EngineBug else old(fatal)
    {
      if !fatal.NoFault? || timedOut {
        return false;
      }
      if !retryPending {
        answered := Ship(shipped);
        if !fatal.EngineBug? {
          return;
        }
      }
      if !taint || timedOut || retries != [] {
        fatal := EngineBug;
        return false;
      }
      retryPending, fatal := false, NoFault;
      retries := retries + [false];
      asked, answers, counts := [], map[], map[];
      if !script {
        fatal := EngineBug;
        return false;
      }
      answered := Ship(retried);
      retries := retries[0 := answered && fatal.NoFault? && !timedOut];
      if !retries[0] {
        fatal := EngineBug;
      }
    }
  }

  /** The run is blocked, or this call is the one that retries. */
  predicate Retries(blocked: bool, pending: bool, spent: bool, taint: bool, shipped: Attempt) {
    !blocked && taint && !spent && (pending || (shipped.fault.EngineBug? && !shipped.late))
  }

  lemma FeedGoesOn(parse: string -> Event, e: Evidence, before: string, chunk: string)
    ensures var pending := before[CompleteEnd(before)..];
            var text := pending + chunk;
            && (forall k | 0 <= k < |pending| :: pending[k] != '\n')
            && Fold(parse, e, Whole(before + chunk)) == Fold(parse, Fold(parse, e, Whole(before)), Whole(text))
            && (before + chunk)[CompleteEnd(before + chunk)..] == text[CompleteEnd(text)..]
  {
    hide Fold, Whole, CompleteEnd;
    var n := CompleteEnd(before);
    var all := before + chunk;
    WholeIs(before);
    assert all[n..] == before[n..] + chunk && all[..n] == before[..n];
    WholeCut(all, n);
    EndCut(all, n);
    FoldSplit(parse, e, Whole(before), Whole(all[n..]));
  }

  lemma WholeIs(text: string)
    ensures Whole(text) == Lines(text[..CompleteEnd(text)], NEWLINE)
  {
  }

  lemma ObserveGoesOn(parse: string -> Event, e: Evidence, before: string, output: string)
    requires before <= output
    ensures var n := Consumed(before);
            && Consumed(output) == n + Consumed(output[n..])
            && Fold(parse, e, SessionLines(output)) ==
               Fold(parse, Fold(parse, e, SessionLines(before)), SessionLines(output[n..]))
  {
    hide Consumed, SessionLines, Fold;
    var more := output[|before|..];
    assert output == before + more;
    ConsumedAppend(before, more);
    var n := Consumed(before);
    assert output[n..] == before[n..] + more;
    FoldSplit(parse, e, SessionLines(before), SessionLines(output[n..]));
  }
}
