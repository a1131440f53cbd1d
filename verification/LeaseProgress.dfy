/** A kept task can still be finished: from any state in which it is listed, one idle worker is enough. */
module LeaseProgress {
  import opened LeaseQueue
  import opened LeaseRecovery

  ghost predicate Reaches(c: Config, s: State, t: State) {
    exists actions :: Run(c, s, actions) == t
  }

  lemma Stays(c: Config, s: State)
    ensures Reaches(c, s, s)
  {
    assert Run(c, s, []) == s;
  }

  lemma ReachesOn(c: Config, s: State, t: State, u: State)
    requires Reaches(c, s, t) && Reaches(c, t, u)
    ensures Reaches(c, s, u)
  {
    var a :| Run(c, s, a) == t;
    var b :| Run(c, t, b) == u;
    RunAppend(c, s, a, b);
  }

  lemma OneStep(c: Config, s: State, a: Action)
    ensures Reaches(c, s, Step(c, s, a))
  {
    assert Run(c, s, [a]) == Run(c, Step(c, s, a), [a][1..]);
  }

  /** s with worker w in phase p moves by its next operation, the clock exact. */
  lemma Moves(c: Config, s: State, w: Worker, p: Phase, k: Worker)
    requires ValidConfig(c) && w < |s.phases|
    ensures var t := At(s, w, p);
            Reaches(c, t, At(Effect(t, w), w, Advance(c, t, w, t.now, k)))
  {
    OneStep(c, At(s, w, p), Act(w, s.now, k));
  }

  lemma AtAt(s: State, w: Worker, p: Phase, q: Phase)
    requires w < |s.phases|
    ensures At(At(s, w, p), w, q) == At(s, w, q)
  {
    assert s.phases[w := p][w := q] == s.phases[w := q];
  }

  // ----- the others fall silent -----

  function Silenced(phases: seq<Phase>, w: Worker, n: nat): seq<Phase> {
    seq(|phases|, i requires 0 <= i < |phases| => if i < n && i != w then Dead else phases[i])
  }

  /** Crashed workers, and at last the children they leave, are gone. */
  lemma {:induction false} OthersDie(c: Config, s: State, w: Worker, n: nat)
    requires ValidConfig(c) && w < |s.phases| && n <= |s.phases|
    ensures Reaches(c, s, s.(phases := Silenced(s.phases, w, n)))
  {
    if n == 0 {
      assert Silenced(s.phases, w, 0) == s.phases;
      Stays(c, s);
    } else {
      var t := s.(phases := Silenced(s.phases, w, n - 1));
      OthersDie(c, s, w, n - 1);
      if n - 1 == w {
        assert Silenced(s.phases, w, n) == Silenced(s.phases, w, n - 1);
      } else {
        OneDies(c, t, n - 1);
        assert At(t, n - 1, Dead).phases == Silenced(s.phases, w, n);
        ReachesOn(c, s, t, At(t, n - 1, Dead));
      }
    }
  }

  lemma OneDies(c: Config, s: State, x: Worker)
    requires ValidConfig(c) && x < |s.phases|
    ensures Reaches(c, s, At(s, x, Dead))
  {
    OneStep(c, s, Crash(x));
    if Runs(s.phases[x]) {
      var p := Holding(s.phases[x].mine, Orphaned(s.phases[x].hold.until));
      Moves(c, s, x, p, 0);
      AtAt(s, x, p, Dead);
      ReachesOn(c, s, At(s, x, p), At(s, x, Dead));
    }
  }

  // ----- the leases expire -----

  lemma {:induction false} AllExpire(markers: map<Worker, Marker>, now: real) returns (late: real)
    ensures late > now && forall k | k in markers :: markers[k].expires < late
    decreases |markers|
  {
    if markers == map[] {
      late := now + 1.0;
    } else {
      var k :| k in markers;
      late := AllExpire(markers - {k}, now);
      if markers[k].expires >= late {
        late := markers[k].expires + 1.0;
      }
      forall x | x in markers ensures markers[x].expires < late {
        assert x != k ==> x in markers - {k};
      }
    }
  }

  // ----- one scan over markers that are all expired but the own -----

  /** Every marker but that of w has expired. */
  predicate OthersExpired(s: State, w: Worker) {
    forall k | k in s.markers && k != w :: s.markers[k].expires <= s.now
  }

  /** What a scan has read is what is stored. */
  predicate ReadFrom(seen: Seen, s: State) {
    forall k | k in seen :: k in s.markers && seen[k] == s.markers[k]
  }

  lemma {:induction false} TallyReads(c: Config, s: State, w: Worker, due: real, todo: set<Worker>, seen: Seen)
    returns (all: Seen)
    requires ValidConfig(c) && w < |s.phases| && ReadFrom(seen, s)
    ensures ReadFrom(all, s) && forall k | k in s.markers && (k in todo || k in seen) :: k in all
    ensures Reaches(c, At(s, w, Tallying(due, todo, seen, 0)), At(s, w, Tallying(due, {}, all, 0)))
    decreases |todo|
  {
    var p := Tallying(due, todo, seen, 0);
    if todo == {} {
      all := seen;
      Stays(c, At(s, w, p));
    } else {
      var k :| k in todo;
      var next := Read(s, k, seen);
      all := TallyReads(c, s, w, due, todo - {k}, next);
      Moves(c, s, w, p, k);
      AtAt(s, w, p, Tallying(due, todo - {k}, next, 0));
      ReachesOn(c, At(s, w, p), At(s, w, Tallying(due, todo - {k}, next, 0)), At(s, w, Tallying(due, {}, all, 0)));
    }
  }

  /** The highest live ticket among those seen, or the one so far. */
  ghost predicate Highest(top: nat, so: nat, seen: Seen, now: real) {
    && so <= top
    && (forall k | k in seen && seen[k].expires > now :: seen[k].ticket <= top)
    && (top == so || exists k :: k in seen && seen[k].expires > now && seen[k].ticket == top)
  }

  /** One marker judged raises the top to its ticket if it is live. */
  lemma TallyJudge(c: Config, s: State, w: Worker, due: real, seen: Seen, so: nat, k: Worker) returns (next: nat)
    requires ValidConfig(c) && w < |s.phases| && k in seen
    ensures next == if seen[k].expires > s.now && seen[k].ticket > so then seen[k].ticket else so
    ensures Reaches(c, At(s, w, Tallying(due, {}, seen, so)), At(s, w, Tallying(due, {}, seen - {k}, next)))
  {
    next := if seen[k].expires > s.now && seen[k].ticket > so then seen[k].ticket else so;
    var p := Tallying(due, {}, seen, so);
    Moves(c, s, w, p, k);
    AtAt(s, w, p, Tallying(due, {}, seen - {k}, next));
  }

  lemma HighestOf(top: nat, so: nat, next: nat, seen: Seen, k: Worker, now: real)
    requires k in seen && Highest(top, next, seen - {k}, now)
    requires next == if seen[k].expires > now && seen[k].ticket > so then seen[k].ticket else so
    ensures Highest(top, so, seen, now)
  {
    forall x | x in seen && seen[x].expires > now ensures seen[x].ticket <= top {
      assert x != k ==> x in seen - {k};
    }
    if top != next {
      var x :| x in seen - {k} && (seen - {k})[x].expires > now && (seen - {k})[x].ticket == top;
      assert x in seen && seen[x].ticket == top;
    }
  }

  lemma TallyEnds(c: Config, s: State, w: Worker, due: real, so: nat)
    requires ValidConfig(c) && w < |s.phases|
    ensures Reaches(c, At(s, w, Tallying(due, {}, map[], so)), At(s, w, Chosen(Marker(1 + so, due))))
  {
    var p := Tallying(due, {}, map[], so);
    Moves(c, s, w, p, 0);
    AtAt(s, w, p, Chosen(Marker(1 + so, due)));
  }

  lemma {:induction false} TallyJudges(c: Config, s: State, w: Worker, due: real, seen: Seen, so: nat)
    returns (top: nat)
    requires ValidConfig(c) && w < |s.phases|
    ensures Highest(top, so, seen, s.now)
    ensures Reaches(c, At(s, w, Tallying(due, {}, seen, so)), At(s, w, Chosen(Marker(1 + top, due))))
    decreases |seen|
  {
    hide Reaches;
    var p := Tallying(due, {}, seen, so);
    if seen == map[] {
      top := so;
      TallyEnds(c, s, w, due, so);
    } else {
      hide Advance, Effect, Highest;
      var k :| k in seen;
      var next := TallyJudge(c, s, w, due, seen, so, k);
      top := TallyJudges(c, s, w, due, seen - {k}, next);
      HighestOf(top, so, next, seen, k, s.now);
      ReachesOn(c, At(s, w, p), At(s, w, Tallying(due, {}, seen - {k}, next)), At(s, w, Chosen(Marker(1 + top, due))));
    }
  }

  /** A scan nobody disturbs chooses one more than the highest live ticket stored. */
  lemma TicketIsNext(c: Config, s: State, w: Worker, due: real) returns (top: nat)
    requires ValidConfig(c) && w < |s.phases|
    ensures Highest(top, 0, s.markers, s.now)
    ensures Reaches(c, At(s, w, Choosing(due)), At(s, w, Chosen(Marker(1 + top, due))))
  {
    var p := Tallying(due, s.markers.Keys, map[], 0);
    Moves(c, s, w, Choosing(due), 0);
    AtAt(s, w, Choosing(due), p);
    var all := TallyReads(c, s, w, due, s.markers.Keys, map[]);
    assert all == s.markers;
    ReachesOn(c, At(s, w, Choosing(due)), At(s, w, p), At(s, w, Tallying(due, {}, all, 0)));
    top := TallyJudges(c, s, w, due, all, 0);
    ReachesOn(c, At(s, w, Choosing(due)), At(s, w, Tallying(due, {}, all, 0)), At(s, w, Chosen(Marker(1 + top, due))));
  }

  lemma {:induction false} CompareReads(c: Config, s: State, w: Worker, mine: Marker, todo: set<Worker>, seen: Seen)
    returns (all: Seen)
    requires ValidConfig(c) && w < |s.phases| && ReadFrom(seen, s)
    ensures ReadFrom(all, s)
    ensures Reaches(c, At(s, w, Racing(mine, Comparing(todo, seen, false, false))),
                    At(s, w, Racing(mine, Comparing({}, all, false, false))))
    decreases |todo|
  {
    var p := Racing(mine, Comparing(todo, seen, false, false));
    if todo == {} {
      all := seen;
      Stays(c, At(s, w, p));
    } else {
      var k :| k in todo;
      var next := Read(s, k, seen);
      all := CompareReads(c, s, w, mine, todo - {k}, next);
      Moves(c, s, w, p, k);
      var q := Racing(mine, Comparing(todo - {k}, next, false, false));
      AtAt(s, w, p, q);
      ReachesOn(c, At(s, w, p), At(s, w, q), At(s, w, Racing(mine, Comparing({}, all, false, false))));
    }
  }

  /** Nobody else is live. */
  lemma CompareJudge(c: Config, s: State, w: Worker, mine: Marker, seen: Seen, k: Worker)
    requires ValidConfig(c) && w < |s.phases| && ReadFrom(seen, s) && OthersExpired(s, w) && k in seen
    ensures Reaches(c, At(s, w, Racing(mine, Comparing({}, seen, false, false))),
                    At(s, w, Racing(mine, Comparing({}, seen - {k}, false, false))))
  {
    hide Reaches;
    var p := Racing(mine, Comparing({}, seen, false, false));
    Moves(c, s, w, p, k);
    assert !(k != w && seen[k].expires > s.now);
    AtAt(s, w, p, Racing(mine, Comparing({}, seen - {k}, false, false)));
  }

  lemma {:induction false} CompareJudges(c: Config, s: State, w: Worker, mine: Marker, seen: Seen)
    requires ValidConfig(c) && w < |s.phases| && ReadFrom(seen, s) && OthersExpired(s, w)
    ensures Reaches(c, At(s, w, Racing(mine, Comparing({}, seen, false, false))), At(s, w, Racing(mine, Verifying)))
    decreases |seen|
  {
    var p := Racing(mine, Comparing({}, seen, false, false));
    if seen == map[] {
      Moves(c, s, w, p, 0);
      AtAt(s, w, p, Racing(mine, Verifying));
    } else {
      var k :| k in seen;
      CompareJudges(c, s, w, mine, seen - {k});
      var q := Racing(mine, Comparing({}, seen - {k}, false, false));
      CompareJudge(c, s, w, mine, seen, k);
      hide Reaches, Advance, Effect;
      ReachesOn(c, At(s, w, p), At(s, w, q), At(s, w, Racing(mine, Verifying)));
    }
  }

  // ----- the idle worker finishes the task -----

  /** An unfinished task that nobody else can claim. */
  predicate Free(s: State, w: Worker) {
    w < |s.phases| && !s.result && w !in s.stopping && OthersExpired(s, w)
  }

  /** From the sighted task to the choosing marker. */
  lemma Announces(c: Config, s: State, w: Worker)
    requires ValidConfig(c) && Free(s, w)
    ensures var due := s.now + c.deadline + MARGIN;
            Reaches(c, At(s, w, Found), At(s.(markers := s.markers[w := Marker(0, due)]), w, Choosing(due)))
  {
    hide Reaches;
    var due := s.now + c.deadline + MARGIN;
    Moves(c, s, w, Found, 0);
    AtAt(s, w, Found, Checked);
    Moves(c, s, w, Checked, 0);
    AtAt(s, w, Checked, Prepared(due));
    ReachesOn(c, At(s, w, Found), At(s, w, Checked), At(s, w, Prepared(due)));
    var t := s.(markers := s.markers[w := Marker(0, due)]);
    Moves(c, s, w, Prepared(due), 0);
    assert Effect(At(s, w, Prepared(due)), w) == At(t, w, Prepared(due));
    AtAt(t, w, Prepared(due), Choosing(due));
    ReachesOn(c, At(s, w, Found), At(s, w, Prepared(due)), At(t, w, Choosing(due)));
  }

  /** The ticket is written. */
  lemma Enters(c: Config, s: State, w: Worker, mine: Marker)
    requires ValidConfig(c) && w < |s.phases|
    ensures Reaches(c, At(s, w, Chosen(mine)), At(s.(markers := s.markers[w := mine]), w, Racing(mine, Waiting)))
  {
    var u := s.(markers := s.markers[w := mine]);
    Moves(c, s, w, Chosen(mine), 0);
    assert Effect(At(s, w, Chosen(mine)), w) == At(u, w, Chosen(mine));
    AtAt(u, w, Chosen(mine), Racing(mine, Waiting));
  }

  /** From the sighted task to the ticket. */
  lemma TakesTicket(c: Config, s: State, w: Worker)
    requires ValidConfig(c) && Free(s, w)
    ensures var mine := Marker(1, s.now + c.deadline + MARGIN);
            Reaches(c, At(s, w, Found), At(s.(markers := s.markers[w := mine]), w, Racing(mine, Waiting)))
  {
    hide Reaches, Advance, Effect;
    var due := s.now + c.deadline + MARGIN;
    var mine := Marker(1, due);
    var t := s.(markers := s.markers[w := Marker(0, due)]);
    Announces(c, s, w);
    ScansAndChooses(c, t, w, due);
    ReachesOn(c, At(s, w, Found), At(t, w, Choosing(due)), At(t, w, Chosen(mine)));
    Enters(c, t, w, mine);
    assert t.markers[w := mine] == s.markers[w := mine];
    var u := s.(markers := s.markers[w := mine]);
    ReachesOn(c, At(s, w, Found), At(t, w, Chosen(mine)), At(u, w, Racing(mine, Waiting)));
  }

  lemma ScansAndChooses(c: Config, s: State, w: Worker, due: real)
    requires ValidConfig(c) && w < |s.phases| && OthersExpired(s, w) && w in s.markers && s.markers[w].ticket == 0
    ensures Reaches(c, At(s, w, Choosing(due)), At(s, w, Chosen(Marker(1, due))))
  {
    hide Reaches;
    var top := TicketIsNext(c, s, w, due);
    assert top == 0;
  }

  /** Through the waiting loop to the deletion of the pending object. */
  lemma WinsRace(c: Config, s: State, w: Worker, mine: Marker)
    requires ValidConfig(c) && Free(s, w) && w in s.markers && s.markers[w] == mine
    requires mine.expires == s.now + c.deadline + MARGIN
    ensures Reaches(c, At(s, w, Racing(mine, Waiting)), At(s, w, Holding(mine, Won)))
  {
    var start := At(s, w, Racing(mine, Waiting));
    Moves(c, s, w, Racing(mine, Waiting), 0);
    AtAt(s, w, Racing(mine, Waiting), Racing(mine, Timed));
    var p := Racing(mine, Comparing(s.markers.Keys, map[], false, false));
    Moves(c, s, w, Racing(mine, Timed), 0);
    AtAt(s, w, Racing(mine, Timed), p);
    ReachesOn(c, start, At(s, w, Racing(mine, Timed)), At(s, w, p));
    var all := CompareReads(c, s, w, mine, s.markers.Keys, map[]);
    ReachesOn(c, start, At(s, w, p), At(s, w, Racing(mine, Comparing({}, all, false, false))));
    CompareJudges(c, s, w, mine, all);
    ReachesOn(c, start, At(s, w, Racing(mine, Comparing({}, all, false, false))), At(s, w, Racing(mine, Verifying)));
    Confirmed(c, s, w, mine);
    ReachesOn(c, start, At(s, w, Racing(mine, Verifying)), At(s, w, Holding(mine, Won)));
  }

  lemma Confirmed(c: Config, s: State, w: Worker, mine: Marker)
    requires ValidConfig(c) && Free(s, w) && w in s.markers && s.markers[w] == mine
    ensures Reaches(c, At(s, w, Racing(mine, Verifying)), At(s, w, Holding(mine, Won)))
  {
    Moves(c, s, w, Racing(mine, Verifying), 0);
    AtAt(s, w, Racing(mine, Verifying), Racing(mine, Confirming));
    Moves(c, s, w, Racing(mine, Confirming), 0);
    AtAt(s, w, Racing(mine, Confirming), Holding(mine, Won));
    ReachesOn(c, At(s, w, Racing(mine, Verifying)), At(s, w, Racing(mine, Confirming)), At(s, w, Holding(mine, Won)));
  }

  /** From the deletion of the pending object to the stored result. */
  lemma Publishes(c: Config, s: State, w: Worker, mine: Marker)
    requires ValidConfig(c) && c.deadline > 0.0 && Free(s, w) && w in s.markers && s.markers[w] == mine
    requires mine.expires == s.now + c.deadline + MARGIN
    ensures exists t :: Reaches(c, At(s, w, Holding(mine, Won)), t) && t.result
  {
    var start, t := At(s, w, Holding(mine, Won)), s.(pending := false);
    Moves(c, s, w, Holding(mine, Won), 0);
    assert Effect(start, w) == At(t, w, Holding(mine, Won));
    AtAt(t, w, Holding(mine, Won), Holding(mine, Owner));
    Moves(c, t, w, Holding(mine, Owner), 0);
    AtAt(t, w, Holding(mine, Owner), Holding(mine, Leased));
    ReachesOn(c, start, At(t, w, Holding(mine, Owner)), At(t, w, Holding(mine, Leased)));
    var run := Executing(s.now + c.deadline);
    Moves(c, t, w, Holding(mine, Leased), 0);
    AtAt(t, w, Holding(mine, Leased), Holding(mine, run));
    ReachesOn(c, start, At(t, w, Holding(mine, Leased)), At(t, w, Holding(mine, run)));
    Moves(c, t, w, Holding(mine, run), 0);
    AtAt(t, w, Holding(mine, run), Holding(mine, Executed));
    ReachesOn(c, start, At(t, w, Holding(mine, run)), At(t, w, Holding(mine, Executed)));
    Moves(c, t, w, Holding(mine, Executed), 0);
    var u := At(Effect(At(t, w, Holding(mine, Executed)), w), w, Cleaning(Published));
    ReachesOn(c, start, At(t, w, Holding(mine, Executed)), u);
    assert u.result;
  }

  lemma Finishes(c: Config, s: State, w: Worker)
    requires ValidConfig(c) && c.deadline > 0.0 && Free(s, w)
    ensures exists t :: Reaches(c, At(s, w, Found), t) && t.result
  {
    var mine := Marker(1, s.now + c.deadline + MARGIN);
    var u := s.(markers := s.markers[w := mine]);
    TakesTicket(c, s, w);
    WinsRace(c, u, w, mine);
    ReachesOn(c, At(s, w, Found), At(u, w, Racing(mine, Waiting)), At(u, w, Holding(mine, Won)));
    Publishes(c, u, w, mine);
    var t :| Reaches(c, At(u, w, Holding(mine, Won)), t) && t.result;
    ReachesOn(c, At(s, w, Found), At(u, w, Holding(mine, Won)), t);
  }

  /** With every lease expired, an idle worker sights the kept task. */
  lemma Sights(c: Config, s: State, w: Worker)
    requires ValidConfig(c) && w < |s.phases| && s.phases[w].Idle?
    requires s.pending || exists h :: h in s.markers && s.markers[h].expires < s.now
    ensures Reaches(c, s, At(s, w, Found))
  {
    if s.pending {
      OneStep(c, s, Look(w));
    } else {
      var h :| h in s.markers && s.markers[h].expires < s.now;
      OneStep(c, s, LookLease(w, h));
      Moves(c, s, w, Sighted(s.markers[h]), 0);
      AtAt(s, w, Sighted(s.markers[h]), Found);
      ReachesOn(c, s, At(s, w, Sighted(s.markers[h])), At(s, w, Found));
    }
  }

  /** The others crash, time passes their leases, and what is left is one idle worker and the task. */
  lemma Clears(c: Config, s: State, w: Worker) returns (t: State)
    requires ValidConfig(c) && w < |s.phases| && s.phases[w].Idle? && !s.result && w !in s.stopping
    ensures Reaches(c, s, t) && Free(t, w) && t.phases[w].Idle?
    ensures t.pending == s.pending && t.markers == s.markers
    ensures forall k | k in t.markers :: t.markers[k].expires < t.now
  {
    var silent := s.(phases := Silenced(s.phases, w, |s.phases|));
    OthersDie(c, s, w, |s.phases|);
    var late := AllExpire(s.markers, s.now);
    t := silent.(now := late);
    OneStep(c, silent, Tick(late));
    assert MayPass(silent, late);
    ReachesOn(c, s, silent, t);
  }

  /** From every state in which an unfinished task is kept, any idle worker that is not stopping can still store its
      result. */
  lemma KeptCanFinish(c: Config, s: State, w: Worker)
    requires ValidConfig(c) && c.deadline > 0.0 && IsSubmitted(s) && Kept(s) && !s.result
    requires w < |s.phases| && s.phases[w].Idle? && w !in s.stopping
    ensures exists more :: Run(c, s, more).result
  {
    hide Run, Silenced;
    var t := Clears(c, s, w);
    if !s.pending {
      var h :| Keeper(s, h);
      assert h in t.markers;
    }
    Sights(c, t, w);
    Finishes(c, t, w);
    var u :| Reaches(c, At(t, w, Found), u) && u.result;
    ReachesOn(c, t, At(t, w, Found), u);
    ReachesOn(c, s, t, u);
  }

  /** After every harmless run a submitted task has its result, or any idle worker can still store it. */
  lemma TaskCanFinish(c: Config, workers: nat, start: real, actions: seq<Action>, w: Worker)
    requires ValidConfig(c) && c.deadline > 0.0 && HarmlessRun(c, Init(workers, start), actions)
    requires var s := Run(c, Init(workers, start), actions);
             IsSubmitted(s) && w < |s.phases| && s.phases[w].Idle? && w !in s.stopping
    ensures exists more :: Run(c, Run(c, Init(workers, start), actions), more).result
  {
    var s := Run(c, Init(workers, start), actions);
    RunKept(c, Init(workers, start), actions);
    if s.result {
      assert Run(c, s, []).result;
    } else {
      KeptCanFinish(c, s, w);
    }
  }

  // ----- the cleanup -----

  /** A marker the cleanup of w deletes: its own, or an expired one. */
  predicate Spent(s: State, w: Worker, k: Worker) {
    k in s.markers && (k == w || s.markers[k].expires < s.now)
  }

  lemma {:induction false} SweepReads(c: Config, s: State, w: Worker, todo: set<Worker>, seen: Seen) returns (all: Seen)
    requires ValidConfig(c) && w < |s.phases| && ReadFrom(seen, s)
    ensures ReadFrom(all, s) && forall k | k in s.markers && (k in todo || k in seen) :: k in all
    ensures Reaches(c, At(s, w, Cleaning(Sweeping(todo, seen))), At(s, w, Cleaning(Sweeping({}, all))))
    decreases |todo|
  {
    var p := Cleaning(Sweeping(todo, seen));
    if todo == {} {
      all := seen;
      Stays(c, At(s, w, p));
    } else {
      var k :| k in todo;
      var next := Read(s, k, seen);
      all := SweepReads(c, s, w, todo - {k}, next);
      Moves(c, s, w, p, k);
      AtAt(s, w, p, Cleaning(Sweeping(todo - {k}, next)));
      ReachesOn(c, At(s, w, p), At(s, w, Cleaning(Sweeping(todo - {k}, next))), At(s, w, Cleaning(Sweeping({}, all))));
    }
  }

  /** One marker judged is deleted exactly when it is spent. */
  lemma SweepJudge(c: Config, s: State, w: Worker, seen: Seen, k: Worker) returns (t: State)
    requires ValidConfig(c) && w < |s.phases| && ReadFrom(seen, s) && k in seen
    ensures t == s.(markers := if Spent(s, w, k) then s.markers - {k} else s.markers)
    ensures Reaches(c, At(s, w, Cleaning(Sweeping({}, seen))), At(t, w, Cleaning(Sweeping({}, seen - {k}))))
  {
    var p, q := Cleaning(Sweeping({}, seen)), Cleaning(Sweeping({}, seen - {k}));
    t := s.(markers := if Spent(s, w, k) then s.markers - {k} else s.markers);
    Moves(c, s, w, p, k);
    if Spent(s, w, k) {
      var d := Cleaning(Condemned(k, seen - {k}));
      AtAt(s, w, p, d);
      Moves(c, s, w, d, 0);
      AtAt(t, w, d, q);
      assert Effect(At(s, w, d), w) == At(t, w, d);
      ReachesOn(c, At(s, w, p), At(s, w, d), At(t, w, q));
    } else {
      AtAt(s, w, p, q);
    }
  }

  lemma {:induction false} SweepJudges(c: Config, s: State, w: Worker, seen: Seen) returns (t: State)
    requires ValidConfig(c) && w < |s.phases| && ReadFrom(seen, s)
    ensures t == s.(markers := t.markers)
    ensures forall k :: k in t.markers <==> k in s.markers && !(k in seen && Spent(s, w, k))
    ensures forall k | k in t.markers :: t.markers[k] == s.markers[k]
    ensures Reaches(c, At(s, w, Cleaning(Sweeping({}, seen))), At(t, w, Idle))
    decreases |seen|
  {
    var p := Cleaning(Sweeping({}, seen));
    if seen == map[] {
      t := s;
      Moves(c, s, w, p, 0);
      AtAt(s, w, p, Idle);
    } else {
      var k :| k in seen;
      var u := SweepJudge(c, s, w, seen, k);
      hide Reaches, Advance, Effect;
      t := SweepJudges(c, u, w, seen - {k});
      ReachesOn(c, At(s, w, p), At(u, w, Cleaning(Sweeping({}, seen - {k}))), At(t, w, Idle));
    }
  }

  /** A cleanup nobody disturbs deletes the input, the own marker and the expired ones, and nothing else. */
  lemma CleansUp(c: Config, s: State, w: Worker) returns (t: State)
    requires ValidConfig(c) && w < |s.phases|
    ensures t == s.(input := false, markers := t.markers)
    ensures Reaches(c, At(s, w, Cleaning(Published)), At(t, w, Idle))
    ensures forall k :: k in t.markers <==> k in s.markers && k != w && s.markers[k].expires >= s.now
    ensures forall k | k in t.markers :: t.markers[k] == s.markers[k]
  {
    var start, u := At(s, w, Cleaning(Published)), s.(input := false);
    Moves(c, s, w, Cleaning(Published), 0);
    assert Effect(start, w) == At(u, w, Cleaning(Published));
    AtAt(u, w, Cleaning(Published), Cleaning(Tidying));
    var p := Cleaning(Sweeping(u.markers.Keys, map[]));
    Moves(c, u, w, Cleaning(Tidying), 0);
    AtAt(u, w, Cleaning(Tidying), p);
    ReachesOn(c, start, At(u, w, Cleaning(Tidying)), At(u, w, p));
    var all := SweepReads(c, u, w, u.markers.Keys, map[]);
    assert all == u.markers;
    ReachesOn(c, start, At(u, w, p), At(u, w, Cleaning(Sweeping({}, all))));
    t := SweepJudges(c, u, w, all);
    ReachesOn(c, start, At(u, w, Cleaning(Sweeping({}, all))), At(t, w, Idle));
  }
}
