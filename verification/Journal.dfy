/** The sourcing journal: replayed on open, written ahead of memory, with a repository lookup cache. */
module Journal {
  import opened Optional
  import opened TextLines

  datatype Stage = Advisories | Resolution | Eligibility | Extraction | Completion

  /** A stored unit; a repository that was not found is stored with the value None. */
  datatype Row = Row(id: string, value: Option<string>, elapsed: real)

  datatype Codec = Codec(encode: Row -> string, decode: string -> Option<Row>)

  ghost predicate Faithful(c: Codec) {
    && (forall r :: c.decode(c.encode(r)) == Some(r))
    && (forall r, k | 0 <= k < |c.encode(r)| :: c.encode(r)[k] != '\n')
  }

  type Table = map<string, Option<string>>

  function TableOf(rows: seq<Row>): Table {
    if rows == [] then map[] else TableOf(rows[..|rows| - 1])[rows[|rows| - 1].id := rows[|rows| - 1].value]
  }

  predicate Distinct(rows: seq<Row>) {
    forall i, j | 0 <= i < j < |rows| :: rows[i].id != rows[j].id
  }

  /** The stage file holds exactly these rows, each in a complete line. */
  predicate Holds(c: Codec, text: string, rows: seq<Row>) {
    && Complete(text, NEWLINE) && |Lines(text, NEWLINE)| == |rows| && Distinct(rows)
    && forall i | 0 <= i < |rows| :: c.decode(Lines(text, NEWLINE)[i]) == Some(rows[i])
  }

  /** No rows make this text a journal. */
  ghost predicate Foreign(c: Codec, text: string) {
    forall rows :: !Holds(c, text, rows)
  }

  lemma HoldsOnce(c: Codec, text: string, a: seq<Row>, b: seq<Row>)
    requires Holds(c, text, a) && Holds(c, text, b)
    ensures a == b
  {
    forall i | 0 <= i < |a| ensures a[i] == b[i] {
      assert c.decode(Lines(text, NEWLINE)[i]) == Some(a[i]) && c.decode(Lines(text, NEWLINE)[i]) == Some(b[i]);
    }
  }

  /** A completed put adds its row. */
  lemma PutHolds(c: Codec, text: string, rows: seq<Row>, row: Row)
    requires Faithful(c) && Holds(c, text, rows) && forall r | r in rows :: r.id != row.id
    ensures Holds(c, text + c.encode(row) + "\n", rows + [row])
  {
    var line := c.encode(row);
    LinesAppend(text, line + "\n", NEWLINE);
    OneLine(line, '\n', NEWLINE);
    assert text + line + "\n" == text + (line + "\n");
    assert c.decode(line) == Some(row);
  }

  /** A torn record is refused, whatever complete records precede it. */
  lemma TornIsRefused(c: Codec, text: string, row: Row, k: nat, rows: seq<Row>)
    requires Faithful(c) && 0 < k <= |c.encode(row)|
    ensures !Holds(c, text + c.encode(row)[..k], rows)
  {
    var torn := text + c.encode(row)[..k];
    assert torn[|torn| - 1] == c.encode(row)[k - 1];
  }

  lemma TornForeign(c: Codec, text: string, row: Row, k: nat)
    requires Faithful(c) && 0 < k <= |c.encode(row)|
    ensures Foreign(c, text + c.encode(row)[..k])
  {
    forall rows ensures !Holds(c, text + c.encode(row)[..k], rows) {
      TornIsRefused(c, text, row, k, rows);
    }
  }

  lemma {:induction false} TableHas(rows: seq<Row>)
    ensures forall id :: id in TableOf(rows) <==> exists r :: r in rows && r.id == id
    ensures Distinct(rows) ==> forall r | r in rows :: TableOf(rows)[r.id] == r.value
  {
    if rows != [] {
      var front, last := rows[..|rows| - 1], rows[|rows| - 1];
      TableHas(front);
      assert rows == front + [last];
      if Distinct(rows) {
        forall r | r in rows ensures TableOf(rows)[r.id] == r.value {
          var k :| 0 <= k < |rows| && rows[k] == r;
        }
      }
    }
  }

  /** The latest elapsed time among `before` and the rows. */
  function Latest(before: real, rows: seq<Row>): real {
    if rows == [] then before
    else
      var e := Latest(before, rows[..|rows| - 1]);
      if rows[|rows| - 1].elapsed >= e then rows[|rows| - 1].elapsed else e
  }

  lemma RowsNone(before: real)
    ensures TableOf([]) == map[] && Latest(before, []) == before
  {
  }

  lemma LatestAppend(before: real, rows: seq<Row>, row: Row)
    ensures Latest(before, rows + [row]) == if row.elapsed >= Latest(before,
            rows) then row.elapsed else Latest(before, rows)
  {
    assert (rows + [row])[..|rows|] == rows;
  }

  lemma {:induction false} LatestBounds(before: real, rows: seq<Row>)
    ensures before <= Latest(before, rows) && forall r | r in rows :: r.elapsed <= Latest(before, rows)
    ensures Latest(before, rows) == before || exists r :: r in rows && r.elapsed == Latest(before, rows)
  {
    if rows != [] {
      var front, last := rows[..|rows| - 1], rows[|rows| - 1];
      LatestBounds(before, front);
      assert rows == front + [last];
      assert last in rows;
    }
  }

  /** A line that is no record, or repeats a unit, makes the whole text foreign. */
  lemma NoContinuation(c: Codec, text: string, rows: seq<Row>)
    requires |rows| < |Lines(text, NEWLINE)|
    requires forall k | 0 <= k < |rows| :: c.decode(Lines(text, NEWLINE)[k]) == Some(rows[k])
    requires var row := c.decode(Lines(text, NEWLINE)[|rows|]);
             row.None? || exists r :: r in rows && r.id == row.value.id
    ensures Foreign(c, text)
  {
    forall all ensures !Holds(c, text, all) {
      if Holds(c, text, all) { Continues(c, text, rows, all); }
    }
  }

  /** Replay of one stage file into memory; duplicates, torn and foreign lines are refused. */
  method Replay(c: Codec, text: string, before: real) returns (ok: bool, table: Table, elapsed: real,
      ghost rows: seq<Row>)
    ensures ok ==> Holds(c, text, rows) && table == TableOf(rows) && elapsed == Latest(before, rows)
    ensures !ok ==> Foreign(c, text)
  {
    hide Lines, TableOf, Latest;
    RowsNone(before);
    table, elapsed, rows := map[], before, [];
    var lines := Lines(text, NEWLINE);
    for i := 0 to |lines|
      invariant |rows| == i && Distinct(rows) && table == TableOf(rows) && elapsed == Latest(before, rows)
      invariant forall k | 0 <= k < i :: c.decode(lines[k]) == Some(rows[k])
    {
      var row := c.decode(lines[i]);
      TableHas(rows);
      if row.None? || row.value.id in table {
        NoContinuation(c, text, rows);
        return false, table, elapsed, rows;
      }
      TableAppend(rows, row.value);
      LatestAppend(before, rows, row.value);
      if row.value.elapsed >= elapsed {
        elapsed := row.value.elapsed;
      }
      table := table[row.value.id := row.value.value];
      rows := rows + [row.value];
    }
    if text != "" && text[|text| - 1] != '\n' {
      return false, table, elapsed, rows;
    }
    return true, table, elapsed, rows;
  }

  lemma Continues(c: Codec, text: string, rows: seq<Row>, all: seq<Row>)
    requires Holds(c, text, all) && |rows| < |all|
    requires forall k | 0 <= k < |rows| :: c.decode(Lines(text, NEWLINE)[k]) == Some(rows[k])
    ensures c.decode(Lines(text, NEWLINE)[|rows|]) == Some(all[|rows|])
    ensures forall r | r in rows :: r.id != all[|rows|].id
  {
    var lines := Lines(text, NEWLINE);
    assert c.decode(lines[|rows|]) == Some(all[|rows|]);
    forall r | r in rows ensures r.id != all[|rows|].id {
      var k :| 0 <= k < |rows| && rows[k] == r;
      assert c.decode(lines[k]) == Some(all[k]);
    }
  }

  const STAGES: seq<Stage> := [Advisories, Resolution, Eligibility, Extraction, Completion]

  type Disk = map<Stage, string>

  function Text(disk: Disk, s: Stage): string { if s in disk then disk[s] else "" }

  datatype Opening = Opened | InputsChanged | InputsMissing | Corrupt

  datatype Put = Done | Duplicate | Died

  datatype Got = Found(value: string) | NotFound | Stopped | Failed | Lost

  /** A direct lookup, and whether its answer was stored. */
  datatype Lookup = Lookup(key: string, kept: bool)

  lemma TableAppend(rows: seq<Row>, row: Row)
    ensures TableOf(rows + [row]) == TableOf(rows)[row.id := row.value]
  {
    assert (rows + [row])[..|rows|] == rows;
  }

  /** One more row was put. */
  ghost predicate AddedTo(earlier: map<Stage, seq<Row>>, later: map<Stage, seq<Row>>, s: Stage, row: Row) {
    s in earlier && later == earlier[s := earlier[s] + [row]]
  }

  type Stored = map<Stage, seq<Row>>

  /** The stage files hold exactly what was put. */
  ghost predicate DurableIn(c: Codec, disk: Disk, stored: Stored) {
    forall s: Stage :: s in stored && Holds(c, Text(disk, s), stored[s])
  }

  ghost predicate Mirrors(rows: map<Stage, Table>, stored: Stored) {
    forall s: Stage :: s in stored && s in rows && rows[s] == TableOf(stored[s])
  }

  /** No stored row is later than e. */
  ghost predicate Timely(stored: Stored, e: real) {
    forall s, r | s in stored && r in stored[s] :: r.elapsed <= e
  }

  /** Cached repositories are what the service says; a kept answer is never looked up again. */
  ghost predicate CachedIn(service: string -> Option<string>, stored: Stored, lookups: seq<Lookup>) {
    && Resolution in stored
    && (forall r | r in stored[Resolution] :: r.value == service(r.id))
    && (forall i | 0 <= i < |lookups| && lookups[i].kept :: lookups[i].key in TableOf(stored[Resolution]))
    && (forall i, j | 0 <= i < j < |lookups| && lookups[i].key == lookups[j].key :: !lookups[i].kept)
  }

  lemma DurableAdd(c: Codec, disk: Disk, stored: Stored, s: Stage, row: Row)
    requires Faithful(c) && DurableIn(c, disk, stored) && forall r | r in stored[s] :: r.id != row.id
    ensures DurableIn(c, disk[s := Text(disk, s) + (c.encode(row) + "\n")], stored[s := stored[s] + [row]])
  {
    PutHolds(c, Text(disk, s), stored[s], row);
    assert Text(disk, s) + (c.encode(row) + "\n") == Text(disk, s) + c.encode(row) + "\n";
  }

  lemma MirrorsAdd(rows: map<Stage, Table>, stored: Stored, s: Stage, row: Row)
    requires Mirrors(rows, stored)
    ensures Mirrors(rows[s := rows[s][row.id := row.value]], stored[s := stored[s] + [row]])
  {
    TableAppend(stored[s], row);
  }

  lemma MirrorsHas(rows: map<Stage, Table>, stored: Stored, s: Stage, key: string)
    requires Mirrors(rows, stored)
    ensures s in rows && s in stored && (key !in rows[s] ==> forall r | r in stored[s] :: r.id != key)
  {
    TableHas(stored[s]);
  }

  lemma TimelyAdd(stored: Stored, e: real, s: Stage, row: Row)
    requires Timely(stored, e) && s in stored && row.elapsed >= e
    ensures Timely(stored[s := stored[s] + [row]], row.elapsed)
  {
  }

  lemma CachedAsk(service: string -> Option<string>, stored: Stored, lookups: seq<Lookup>, key: string)
    requires CachedIn(service, stored, lookups) && key !in TableOf(stored[Resolution])
    ensures CachedIn(service, stored, lookups + [Lookup(key, false)])
  {
  }

  lemma CachedKeep(service: string -> Option<string>, stored: Stored, lookups: seq<Lookup>, row: Row, kept: bool)
    requires CachedIn(service, stored, lookups)
    requires row.id !in TableOf(stored[Resolution]) && row.value == service(row.id)
    ensures CachedIn(service, stored[Resolution := stored[Resolution] + [row]], lookups + [Lookup(row.id, kept)])
  {
    TableAppend(stored[Resolution], row);
  }

  lemma CachedAnswer(c: Codec, disk: Disk, rows: map<Stage, Table>, service: string -> Option<string>,
      stored: Stored, lookups: seq<Lookup>, key: string)
    requires DurableIn(c, disk, stored) && Mirrors(rows, stored) && CachedIn(service, stored, lookups)
    ensures Resolution in rows && rows[Resolution] == TableOf(stored[Resolution])
    ensures key in rows[Resolution] ==> rows[Resolution][key] == service(key)
  {
    assert Holds(c, Text(disk, Resolution), stored[Resolution]);
    TableHas(stored[Resolution]);
  }

  lemma HoldsNotForeign(c: Codec, text: string, rows: seq<Row>)
    requires Holds(c, text, rows)
    ensures !Foreign(c, text)
  {
  }

  /** What a replay read is what was stored, and memory mirrors it. */
  lemma ReplayedIsStored(c: Codec, disk: Disk, rows: map<Stage, Table>, before: real, read: Stored, stored: Stored)
    requires DurableIn(c, disk, stored)
    requires forall s: Stage :: s in read && s in rows && Holds(c, Text(disk, s), read[s])
                                && rows[s] == TableOf(read[s]) && forall r | r in read[s] :: r.elapsed <= before
    ensures Mirrors(rows, stored) && Timely(stored, before)
  {
    hide Holds, TableOf;
    forall s: Stage ensures s in stored && read[s] == stored[s] {
      HoldsOnce(c, Text(disk, s), read[s], stored[s]);
    }
  }

  /** What happens to a journal over its sessions. */
  datatype Use =
    | Start(parameters: map<string, string>, now: real)                  // a fresh process opens it
    | Get(name: string, now: real)                                       // the process asks for a repository
    | Keep(stage: Stage, key: string, value: Option<string>, now: real)  // it stores a unit of another stage

  /** The answer is what a direct lookup would have said. */
  predicate Truthful(service: string -> Option<string>, key: string, g: Got) {
    && (g.Found? ==> service(key) == Some(g.value))
    && (g.NotFound? ==> service(key) == None)
  }

  lemma CachedElsewhere(service: string -> Option<string>, before: Stored, after: Stored, lookups: seq<Lookup>,
      s: Stage, row: Row)
    requires CachedIn(service, before, lookups) && s != Resolution
    requires after == before || AddedTo(before, after, s, row)
    ensures CachedIn(service, after, lookups)
  {
  }

  /** The directory and one process using it. The service answers every lookup the same way. */
  class Sourcing {
    const codec: Codec
    const service: string -> Option<string>
    const normalize: string -> string
    // durable
    var inputs: Option<map<string, string>>
    var disk: Disk
    // the process
    var running: bool
    var rows: map<Stage, Table>
    var before: real
    var started: real
    var clock: real
    // over all sessions: the rows successfully put and the direct lookups made
    ghost var stored: Stored
    ghost var lookups: seq<Lookup>

    constructor (codec: Codec, service: string -> Option<string>, normalize: string -> string,
        inputs: Option<map<string, string>>, disk: Disk)
      ensures this.codec == codec && this.service == service && this.normalize == normalize
      ensures this.inputs == inputs && this.disk == disk && !running && lookups == []
      ensures forall s: Stage :: s in stored && stored[s] == []
      ensures disk == map[] ==> Durable()
      ensures Cached()
    {
      this.codec, this.service, this.normalize := codec, service, normalize;
      this.inputs, this.disk := inputs, disk;
      running, rows, before, started, clock := false, map[], 0.0, 0.0, 0.0;
      stored, lookups := map s: Stage | s in STAGES :: [], [];
      new;
      AllStages();
    }

    ghost predicate Durable()
      reads this`disk, this`stored
    {
      DurableIn(codec, disk, stored)
    }

    function Elapsed(): real
      reads this`before, this`started, this`clock
    {
      before + clock - started
    }

    /** Memory mirrors the files, and no stored row is later than now. */
    ghost predicate Ready()
      reads this`disk, this`stored, this`running, this`rows, this`before, this`started, this`clock
    {
      running && Durable() && started <= clock && Mirrors(rows, stored) && Timely(stored, Elapsed())
    }

    ghost predicate Cached()
      reads this`stored, this`lookups
    {
      CachedIn(service, stored, lookups)
    }

    /** A fresh process replays the files. It refuses other inputs, and any file that is not a journal. */
    method Open(parameters: map<string, string>, now: real) returns (o: Opening)
      modifies this`inputs, this`running, this`rows, this`before, this`started, this`clock
      ensures o.InputsChanged? <==> old(inputs).Some? && old(inputs).value != parameters
      ensures o.InputsMissing? <==> old(inputs).None? && disk != map[]
      ensures o.Corrupt? ==> exists s: Stage :: Foreign(codec, Text(disk, s))
      ensures o.Opened? ==> forall s: Stage :: !Foreign(codec, Text(disk, s))
      ensures o.Opened? && Durable() ==> Ready()
      ensures o.Opened? || o.Corrupt? ==> inputs == Some(parameters)
      ensures !o.Opened? ==> !running
      ensures clock == now
    {
      running, rows, before, started, clock := false, map[], 0.0, now, now;
      if inputs.Some? && inputs.value != parameters {
        return InputsChanged;
      }
      if inputs.None? && disk != map[] {
        return InputsMissing;
      }
      inputs := Some(parameters);
      var ok: bool;
      ghost var read: Stored;
      read, ok := ReplayAll();
      if !ok {
        return Corrupt;
      }
      running := true;
      hide Holds, TableOf, Foreign;
      forall s: Stage ensures !Foreign(codec, Text(disk, s)) {
        assert Mirrored(s, read);
        HoldsNotForeign(codec, Text(disk, s), read[s]);
      }
      if Durable() {
        forall s: Stage ensures s in read && s in rows && s in stored && Holds(codec, Text(disk, s), read[s])
                                && rows[s] == TableOf(read[s]) && forall r | r in read[s] :: r.elapsed <= before
        {
          assert Mirrored(s, read);
        }
        ReplayedIsStored(codec, disk, rows, before, read, stored);
      }
      return Opened;
    }

    method ReplayAll() returns (ghost read: Stored, ok: bool)
      modifies this`rows, this`before
      ensures ok ==> forall s: Stage :: Mirrored(s, read)
      ensures !ok ==> exists s: Stage :: Foreign(codec, Text(disk, s))
    {
      hide Holds, TableOf;
      read := map[];
      for i := 0 to |STAGES|
        invariant forall k | 0 <= k < i :: Mirrored(STAGES[k], read)
      {
        var s := STAGES[i];
        ghost var all;
        var table, elapsed;
        ok, table, elapsed, all := Replay(codec, Text(disk, s), before);
        if !ok {
          assert Foreign(codec, Text(disk, s));
          return;
        }
        LatestBounds(before, all);
        rows, before := rows[s := table], elapsed;
        read := read[s := all];
      }
      AllStages();
      forall s: Stage ensures Mirrored(s, read) {
        assert s in STAGES;
        var k :| 0 <= k < |STAGES| && STAGES[k] == s;
      }
      ok := true;
    }

    ghost predicate Mirrored(s: Stage, read: Stored)
      reads this`disk, this`rows, this`before
    {
      && s in read && s in rows && Holds(codec, Text(disk, s), read[s]) && rows[s] == TableOf(read[s])
      && forall r | r in read[s] :: r.elapsed <= before
    }

    /** The line reaches the disk whole, in part, or not at all; only a whole one lets the process go on. */
    method Write(s: Stage, row: Row) returns (died: bool)
      requires Faithful(codec) && Durable() && s in stored && forall r | r in stored[s] :: r.id != row.id
      modifies this`disk, this`stored
      ensures !died ==> Durable() && AddedTo(old(stored), stored, s, row)
      ensures died ==> Durable() || Foreign(codec, Text(disk, s))
      ensures died ==> stored == old(stored) || AddedTo(old(stored), stored, s, row)
    {
      hide Foreign, Faithful, DurableIn;
      var line := codec.encode(row) + "\n";
      DurableAdd(codec, disk, stored, s, row);
      died := *;
      if died {
        var written: int := *;
        if 0 < written < |line| {
          TornForeign(codec, Text(disk, s), row, written);
          assert line[..written] == codec.encode(row)[..written];
          disk := disk[s := Text(disk, s) + line[..written]];
          return;
        } else if written <= 0 {
          return;
        }
      }
      disk := disk[s := Text(disk, s) + line];
      stored := stored[s := stored[s] + [row]];
    }

    /** Memory is written only after the line is on disk. */
    method Store(s: Stage, key: string, value: Option<string>, now: real) returns (p: Put)
      requires Faithful(codec) && Ready() && now >= clock && s in rows
      modifies this`disk, this`running, this`rows, this`clock, this`stored
      ensures p.Duplicate? <==> key in old(rows[s])
      ensures p.Duplicate? ==> Ready() && disk == old(disk) && stored == old(stored)
      ensures p.Done? ==> Ready() && AddedTo(old(stored), stored, s, Row(key, value, Elapsed()))
      ensures p.Done? ==> s in rows && key in rows[s]
      ensures p.Died? ==> !running && (Durable() || Foreign(codec, Text(disk, s)))
      ensures p.Died? ==> stored == old(stored) || AddedTo(old(stored), stored, s, Row(key, value, Elapsed()))
      ensures clock == now && Timely(old(stored), Elapsed())
    {
      hide Foreign, Faithful, DurableIn, Mirrors, Timely, TableOf;
      Later(stored, Elapsed(), before + now - started);
      clock := now;
      if key in rows[s] {
        return Duplicate;
      }
      var row := Row(key, value, Elapsed());
      MirrorsHas(rows, stored, s, key);
      MirrorsAdd(rows, stored, s, row);
      TimelyAdd(stored, Elapsed(), s, row);
      var died := Write(s, row);
      if died {
        running := false;
        return Died;
      }
      rows := rows[s := rows[s][key := value]];
      return Done;
    }

    /** A repository is looked up directly only if no answer is cached; either way the caller gets what
        a direct lookup would say, including that it does not exist. */
    method GetRepo(name: string, now: real) returns (g: Got)
      requires Faithful(codec) && Ready() && Cached() && now >= clock && Resolution in rows
      modifies this`disk, this`running, this`rows, this`clock, this`stored, this`lookups
      ensures Cached() && (!g.Lost? ==> Ready())
      ensures g.Lost? ==> !running && (Durable() || Foreign(codec, Text(disk, Resolution)))
      ensures g.Found? ==> service(normalize(name)) == Some(g.value)
      ensures g.NotFound? ==> service(normalize(name)) == None
      ensures normalize(name) in old(rows[Resolution]) ==> (g.Found? || g.NotFound?) && lookups == old(lookups)
      ensures g.Found? || g.NotFound? ==> Resolution in rows && normalize(name) in rows[Resolution]
      ensures lookups == old(lookups) || exists kept :: lookups == old(lookups) + [Lookup(normalize(name), kept)]
    {
      hide Foreign, Faithful, DurableIn, Mirrors, Timely, TableOf, CachedIn;
      var key := normalize(name);
      CachedAnswer(codec, disk, rows, service, stored, lookups, key);
      if key !in rows[Resolution] {
        var choice: int := *;
        if choice == 0 {
          return Stopped;
        }
        CachedAsk(service, stored, lookups, key);
        if choice == 1 {
          lookups := lookups + [Lookup(key, false)];
          return Failed;
        }
        var value := service(key);
        CachedKeep(service, stored, lookups, Row(key, value, before + now - started), true);
        CachedKeep(service, stored, lookups, Row(key, value, before + now - started), false);
        var p := Store(Resolution, key, value, now);
        lookups := lookups + [Lookup(key, p.Done?)];
        if !p.Done? {
          return Lost;
        }
        CachedAnswer(codec, disk, rows, service, stored, lookups, key);
      }
      if rows[Resolution][key].None? {
        return NotFound;
      }
      return Found(rows[Resolution][key].value);
    }

    /** What holds between any two uses: the files hold exactly what was put, or one of them is refused for good. */
    ghost predicate Consistent()
      reads this
    {
      && Cached() && (running ==> Ready())
      && (Durable() || exists s: Stage :: Foreign(codec, Text(disk, s)))
    }

    method DoStart(parameters: map<string, string>, now: real)
      requires Consistent()
      modifies this
      ensures Consistent()
    {
      hide Foreign, DurableIn, CachedIn, Mirrors, Timely;
      ghost var files := disk;
      var o := Open(parameters, now);
    }

    method DoGet(name: string, now: real) returns (g: Got)
      requires Faithful(codec) && Consistent() && running && now >= clock
      modifies this
      ensures Consistent() && Truthful(service, normalize(name), g)
    {
      hide Foreign, Faithful, DurableIn, CachedIn, Mirrors, Timely;
      MirrorsHas(rows, stored, Resolution, normalize(name));
      g := GetRepo(name, now);
    }

    method DoKeep(stage: Stage, key: string, value: Option<string>, now: real)
      requires Faithful(codec) && Consistent() && running && now >= clock && stage != Resolution
      modifies this
      ensures Consistent()
    {
      hide Foreign, Faithful, DurableIn, CachedIn, Mirrors, Timely, AddedTo;
      MirrorsHas(rows, stored, stage, key);
      ghost var before := stored;
      var p := Store(stage, key, value, now);
      CachedElsewhere(service, before, stored, lookups, stage, Row(key, value, Elapsed()));
    }
  }

  /** From an empty directory, over any number of sessions that may die at any put: the files hold exactly what was
      put or
      one of them is refused for good, every answer is true, and a kept answer is never looked up again. */
  method Play(codec: Codec, service: string -> Option<string>, normalize: string -> string, script: seq<Use>)
    returns (d: Sourcing, answers: seq<(string, Got)>)
    requires Faithful(codec)
    ensures fresh(d) && d.codec == codec && d.service == service
    ensures DurableIn(codec, d.disk, d.stored) || exists s: Stage :: Foreign(codec, Text(d.disk, s))
    ensures CachedIn(service, d.stored, d.lookups)
    ensures forall a | a in answers :: Truthful(service, normalize(a.0), a.1)
  {
    hide Faithful, Foreign, DurableIn, CachedIn, Mirrors, Timely, Truthful;
    d := new Sourcing(codec, service, normalize, None, map[]);
    answers := [];
    for n := 0 to |script|
      invariant fresh(d) && d.codec == codec && d.service == service && d.normalize == normalize && d.Consistent()
      invariant forall a | a in answers :: Truthful(service, normalize(a.0), a.1)
    {
      match script[n]
      case Start(parameters, now) =>
        d.DoStart(parameters, now);
      case Get(name, now) =>
        if d.running && now >= d.clock {
          var g := d.DoGet(name, now);
          answers := answers + [(name, g)];
        }
      case Keep(stage, key, value, now) =>
        if d.running && now >= d.clock && stage != Resolution {
          d.DoKeep(stage, key, value, now);
        }
    }
  }

  lemma Later(stored: Stored, e: real, e': real)
    requires Timely(stored, e) && e <= e'
    ensures Timely(stored, e')
  {
  }

  lemma AllStages()
    ensures forall s: Stage :: s in STAGES
  {
    forall s: Stage ensures s in STAGES {
      match s
      case Advisories => assert STAGES[0] == s;
      case Resolution => assert STAGES[1] == s;
      case Eligibility => assert STAGES[2] == s;
      case Extraction => assert STAGES[3] == s;
      case Completion => assert STAGES[4] == s;
    }
  }
}
