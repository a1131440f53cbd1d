/** The append-only usage ledger: a digest chain over text lines, and the usage policy of its rows. */
module Ledger {

  import opened Optional
  import opened TextLines

  /** The fields a caller supplies. */
  datatype Usage = Usage(slice: int, decision: string, purpose: string, date: string,
                         result: string, freeze: string)

  datatype Row = Row(usage: Usage, previous: string, digest: string)

  const ZERO: string := "0000000000000000000000000000000000000000000000000000000000000000"

  /** JSON text and the digest, as functions; a line that is not an object with exactly the expected
      fields decodes to nothing. */
  datatype Codec = Codec(encode: Row -> string, decode: string -> Option<Row>, digest: (Usage, string) -> string)

  ghost predicate Faithful(c: Codec) {
    && (forall r :: c.decode(c.encode(r)) == Some(r))
    && (forall r, k | 0 <= k < |c.encode(r)| :: c.encode(r)[k] !in BREAKS)
    && (forall u, p, u', p' :: c.digest(u, p) == c.digest(u', p') ==> u == u' && p == p')
    && (forall u, p :: c.digest(u, p) != ZERO)
  }

  // ----- field checks -----

  predicate IsDigit(ch: char) { '0' <= ch <= '9' }

  predicate IsLabel(s: string) {
    s != "" && forall k | 0 <= k < |s| ::
      IsDigit(s[k]) || 'a' <= s[k] <= 'z' || 'A' <= s[k] <= 'Z' || s[k] == '_' || s[k] == '-'
  }

  predicate IsDigest(s: string) {
    |s| == 64 && forall k | 0 <= k < |s| :: IsDigit(s[k]) || 'a' <= s[k] <= 'f'
  }

  function Number(s: string): nat
    requires forall k | 0 <= k < |s| :: IsDigit(s[k])
  {
    if s == "" then 0
    else
      assert IsDigit(s[|s| - 1]);
      10 * Number(s[..|s| - 1]) + (s[|s| - 1] as int - '0' as int)
  }

  function DaysIn(year: nat, month: nat): nat {
    if month == 2 then (if year % 4 == 0 && (year % 100 != 0 || year % 400 == 0) then 29 else 28)
    else if month in {4, 6, 9, 11} then 30
    else 31
  }

  /** YYYY-MM-DD, a date of the calendar. */
  predicate IsDate(s: string) {
    && |s| == 10 && s[4] == '-' && s[7] == '-'
    && (forall k | 0 <= k < 10 && k != 4 && k != 7 :: IsDigit(s[k]))
    && var year, month, day := Number(s[..4]), Number(s[5..7]), Number(s[8..]);
       year >= 1 && 1 <= month <= 12 && 1 <= day <= DaysIn(year, month)
  }

  predicate ValidUsage(u: Usage) {
    && u.purpose in {"baseline", "exploratory", "informed", "qualifies"}
    && u.slice >= 1 && IsLabel(u.decision) && IsDigest(u.result) && IsDigest(u.freeze) && IsDate(u.date)
  }

  // ----- lines -----

  /** Line boundaries of decoded text. */
  const BREAKS: set<char> := NEWLINE + (FOREIGN - {'\r'})

  function LinesOf(text: string): seq<string> { Lines(text, BREAKS) }

  predicate Terminated(text: string) { text == "" || text[|text| - 1] == '\n' }

  // ----- the chain -----

  /** The digest the next row must name. */
  function Head(rows: seq<Row>): string { if rows == [] then ZERO else rows[|rows| - 1].digest }

  predicate Links(c: Codec, previous: string, row: Row) {
    row.previous == previous && c.digest(row.usage, row.previous) == row.digest && ValidUsage(row.usage)
  }

  predicate Linked(c: Codec, rows: seq<Row>) {
    forall i | 0 <= i < |rows| :: Links(c, Head(rows[..i]), rows[i])
  }

  /** The text is a ledger with exactly these rows. */
  predicate Reads(c: Codec, text: string, rows: seq<Row>) {
    && Terminated(text) && |LinesOf(text)| == |rows|
    && (forall i | 0 <= i < |rows| :: c.decode(LinesOf(text)[i]) == Some(rows[i]))
    && Linked(c, rows)
  }

  /** The reader accepts exactly the texts that are ledgers, and returns their rows. */
  method Read(c: Codec, text: string) returns (r: Option<seq<Row>>)
    ensures r.Some? ==> Reads(c, text, r.value)
    ensures r.None? ==> forall rows :: !Reads(c, text, rows)
  {
    if text != "" && text[|text| - 1] != '\n' {
      return None;
    }
    hide Linked, Links, Reads, Lines;
    var previous := ZERO;
    var rows: seq<Row> := [];
    var lines := LinesOf(text);
    NothingLinked(c);
    for i := 0 to |lines|
      invariant |rows| == i && previous == Head(rows) && Linked(c, rows)
      invariant forall k | 0 <= k < i :: c.decode(lines[k]) == Some(rows[k])
    {
      var row := c.decode(lines[i]);
      if row.None? || !Links(c, previous, row.value) {
        forall all ensures !Reads(c, text, all) {
          if Reads(c, text, all) { Continues(c, text, rows, all); }
        }
        return None;
      }
      LinkedMore(c, rows, row.value);
      rows := rows + [row.value];
      previous := row.value.digest;
    }
    AllRead(c, text, rows);
    return Some(rows);
  }

  lemma NothingLinked(c: Codec)
    ensures Linked(c, [])
  {
  }

  lemma LinkedMore(c: Codec, rows: seq<Row>, row: Row)
    requires Linked(c, rows) && Links(c, Head(rows), row)
    ensures Linked(c, rows + [row])
  {
    hide Links;
    var all := rows + [row];
    forall k | 0 <= k < |all| ensures Links(c, Head(all[..k]), all[k]) {
      assert all[..k] == rows[..k];
      assert rows[..|rows|] == rows;
    }
  }

  lemma AllRead(c: Codec, text: string, rows: seq<Row>)
    requires Terminated(text) && Linked(c, rows) && |rows| == |LinesOf(text)|
    requires forall k | 0 <= k < |rows| :: c.decode(LinesOf(text)[k]) == Some(rows[k])
    ensures Reads(c, text, rows)
  {
  }

  /** Every reading of the text continues the rows read so far with its next line. */
  lemma Continues(c: Codec, text: string, rows: seq<Row>, all: seq<Row>)
    requires Reads(c, text, all) && |rows| < |LinesOf(text)|
    requires forall k | 0 <= k < |rows| :: c.decode(LinesOf(text)[k]) == Some(rows[k])
    ensures |all| == |LinesOf(text)|
    ensures var i := |rows|; c.decode(LinesOf(text)[i]) == Some(all[i]) && Links(c, Head(rows), all[i])
  {
    assert c.decode(LinesOf(text)[|rows|]) == Some(all[|rows|]);
    forall k | 0 <= k < |rows| ensures all[k] == rows[k] {
      assert c.decode(LinesOf(text)[k]) == Some(all[k]);
    }
    assert all[..|rows|] == rows;
    assert Links(c, Head(all[..|rows|]), all[|rows|]);
  }

  lemma LastLinks(c: Codec, rows: seq<Row>)
    requires Linked(c, rows) && rows != []
    ensures var n := |rows| - 1;
            Linked(c, rows[..n]) && Links(c, Head(rows[..n]), rows[n]) && rows == rows[..n] + [rows[n]]
  {
    hide Links;
    LinkedPrefix(c, rows, |rows| - 1);
    assert Links(c, Head(rows[..|rows| - 1]), rows[|rows| - 1]);
  }

  /** The final digest binds the whole history: two accepted ones that end in it are equal, row by row. */
  lemma {:induction false} DigestBindsHistory(c: Codec, a: seq<Row>, b: seq<Row>)
    requires Faithful(c) && Linked(c, a) && Linked(c, b) && Head(a) == Head(b)
    ensures a == b
  {
    hide Linked, ValidUsage;
    if a != [] { LastLinks(c, a); }
    if b != [] { LastLinks(c, b); }
    if a != [] && b != [] {
      DigestBindsHistory(c, a[..|a| - 1], b[..|b| - 1]);
    }
  }

  lemma LinkedPrefix(c: Codec, rows: seq<Row>, n: nat)
    requires Linked(c, rows) && n <= |rows|
    ensures Linked(c, rows[..n])
  {
    forall i | 0 <= i < n ensures Links(c, Head(rows[..n][..i]), rows[..n][i]) {
      assert rows[..n][..i] == rows[..i];
    }
  }

  // ----- appending and truncating -----

  /** Reading after an append gives the old rows and the new one. */
  lemma AppendReads(c: Codec, text: string, rows: seq<Row>, row: Row)
    requires Faithful(c) && Reads(c, text, rows) && Links(c, Head(rows), row)
    ensures Reads(c, text + c.encode(row) + "\n", rows + [row])
  {
    hide Links, Lines, Linked;
    var line := c.encode(row);
    LinesAppend(text, line + "\n", BREAKS);
    OneLine(line, '\n', BREAKS);
    assert text + line + "\n" == text + (line + "\n");
    assert c.decode(line) == Some(row);
    LinkedMore(c, rows, row);
  }

  /** Any truncation is refused or reads as a prefix. */
  lemma TruncationIsPrefix(c: Codec, text: string, rows: seq<Row>, k: nat, fewer: seq<Row>)
    requires Reads(c, text, rows) && k <= |text| && Reads(c, text[..k], fewer)
    ensures fewer <= rows
  {
    assert text == text[..k] + text[k..];
    LinesAppend(text[..k], text[k..], BREAKS);
    forall i | 0 <= i < |fewer| ensures fewer[i] == rows[i] {
      assert LinesOf(text)[i] == LinesOf(text[..k])[i];
      assert c.decode(LinesOf(text[..k])[i]) == Some(fewer[i]) && c.decode(LinesOf(text)[i]) == Some(rows[i]);
    }
  }

  // ----- the usage policy -----

  predicate SameQuestion(a: Usage, b: Usage) { a.slice == b.slice && a.decision == b.decision }

  /** One freeze digest, no duplicate, and no qualification of what was informed before. */
  predicate Policy(rows: seq<Row>) {
    forall i, j | 0 <= i < j < |rows| ::
      && rows[i].usage.freeze == rows[j].usage.freeze
      && rows[i].usage != rows[j].usage
      && !(SameQuestion(rows[i].usage, rows[j].usage) && rows[i].usage.purpose == "informed"
           && rows[j].usage.purpose == "qualifies")
  }

  /** The history after one more request. */
  function Next(c: Codec, rows: seq<Row>, u: Usage): seq<Row> {
    if ValidUsage(u) && Admits(rows, u) then rows + [Row(u, Head(rows), c.digest(u, Head(rows)))] else rows
  }

  datatype Answer = Invalid | Broken | Duplicate | FreezeChanged | Informed | Appended(digest: string)

  class File {
    const codec: Codec
    var text: string

    constructor (codec: Codec, text: string)
      ensures this.codec == codec && this.text == text
    {
      this.codec, this.text := codec, text;
    }

    /** One append under the exclusive lock. A refused one leaves the text alone; `rows` is what the
        text reads as, if it is a ledger at all. */
    method Append(u: Usage, ghost rows: seq<Row>) returns (a: Answer)
      requires Faithful(codec)
      requires Reads(codec, text, rows) || forall all :: !Reads(codec, text, all)
      modifies this
      ensures a.Invalid? <==> !ValidUsage(u)
      ensures a.Broken? <==> ValidUsage(u) && !Reads(codec, old(text), rows)
      ensures a.Appended? <==> ValidUsage(u) && Reads(codec, old(text), rows) && Admits(rows, u)
      ensures !a.Appended? ==> text == old(text)
      ensures a.Appended? ==> var row := Row(u, Head(rows), codec.digest(u, Head(rows)));
                && a.digest == row.digest
                && text == old(text) + codec.encode(row) + "\n"
      ensures Reads(codec, old(text), rows) ==> Reads(codec, text, Next(codec, rows, u))
    {
      hide ValidUsage, Faithful, Reads;
      if !ValidUsage(u) {
        return Invalid;
      }
      var read := Read(codec, text);
      if read.None? {
        return Broken;
      }
      var past := read.value;
      OneReading(codec, text, past, rows);
      if exists i :: 0 <= i < |past| && past[i].usage == u {
        return Duplicate;
      }
      if past != [] && past[0].usage.freeze != u.freeze {
        return FreezeChanged;
      }
      if u.purpose == "qualifies" &&
         exists i :: 0 <= i < |past| && SameQuestion(past[i].usage, u) && past[i].usage.purpose == "informed" {
        return Informed;
      }
      var previous := if past == [] then ZERO else past[|past| - 1].digest;
      var sha := codec.digest(u, previous);
      Continuing(codec, past, u);
      AppendReads(codec, text, past, Row(u, previous, sha));
      text := text + codec.encode(Row(u, previous, sha)) + "\n";
      return Appended(sha);
    }
  }

  lemma Continuing(c: Codec, rows: seq<Row>, u: Usage)
    requires ValidUsage(u)
    ensures Links(c, Head(rows), Row(u, Head(rows), c.digest(u, Head(rows))))
  {
  }

  lemma OneReading(c: Codec, text: string, a: seq<Row>, b: seq<Row>)
    requires Reads(c, text, a) && (Reads(c, text, b) || forall all :: !Reads(c, text, all))
    ensures a == b
  {
    forall i | 0 <= i < |a| && |a| == |b| ensures a[i] == b[i] {
      assert c.decode(LinesOf(text)[i]) == Some(a[i]);
      assert c.decode(LinesOf(text)[i]) == Some(b[i]);
    }
  }

  predicate Admits(rows: seq<Row>, u: Usage) {
    && (forall i | 0 <= i < |rows| :: rows[i].usage != u)
    && (rows != [] ==> rows[0].usage.freeze == u.freeze)
    && (u.purpose == "qualifies" ==>
          forall i | 0 <= i < |rows| :: !(SameQuestion(rows[i].usage, u) && rows[i].usage.purpose == "informed"))
  }

  /** The three checks of an append are exactly what the policy of the longer history asks. */
  lemma PolicyExtends(rows: seq<Row>, row: Row)
    requires Policy(rows)
    ensures Policy(rows + [row]) <==> Admits(rows, row.usage)
  {
    var all := rows + [row];
    if Policy(all) {
      assert forall i | 0 <= i < |rows| :: all[i] == rows[i] && all[|rows|] == row;
    }
  }

  /** A history built by appends alone: each requested usage is appended or refused. */
  function Built(c: Codec, requests: seq<Usage>): seq<Row> {
    if requests == [] then [] else Next(c, Built(c, requests[..|requests| - 1]), requests[|requests| - 1])
  }

  /** Every history built by appends is a chain and obeys the policy. */
  lemma {:induction false} BuiltObeysPolicy(c: Codec, requests: seq<Usage>)
    requires Faithful(c)
    ensures Policy(Built(c, requests)) && Linked(c, Built(c, requests))
  {
    if requests != [] {
      var rows := Built(c, requests[..|requests| - 1]);
      var u := requests[|requests| - 1];
      BuiltObeysPolicy(c, requests[..|requests| - 1]);
      var row := Row(u, Head(rows), c.digest(u, Head(rows)));
      hide Policy, Linked, Links, ValidUsage;
      PolicyExtends(rows, row);
      if ValidUsage(u) && Admits(rows, u) {
        Continuing(c, rows, u);
        LinkedMore(c, rows, row);
      }
    }
  }
}
