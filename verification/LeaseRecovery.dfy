/** No submitted task is lost, and the one re-claim that can lose it. */
module LeaseRecovery {
  import opened LeaseQueue

  /** In these phases a worker may still remove its own marker although no result is stored. */
  predicate MayWithdraw(p: Phase) {
    p.Choosing? || p.Tallying? || p.Chosen? || p.Racing? || p.Abandoning? || (p.Holding? && p.hold.Won?)
  }

  /** The marker of w carries the task until it expires, and w will not withdraw it. */
  predicate Keeper(s: State, w: Worker) {
    w in s.markers && w < |s.phases| && !MayWithdraw(s.phases[w])
  }

  predicate IsSubmitted(s: State) {
    s.client.Submitted? || s.client.Delivered? || s.client.Closed?
  }

  /** Every submitted, uncancelled task has a pending object, a kept lease or a stored result. */
  ghost predicate Kept(s: State) {
    IsSubmitted(s) ==> s.pending || s.result || exists w :: Keeper(s, w)
  }

  /** Other workers delete markers only after the result is stored, so a claim finds its own. */
  predicate WorkerSound(s: State, w: Worker)
    requires w < |s.phases|
  {
    var p := s.phases[w];
    && (p.Cleaning? ==> s.result)
    && (MayWithdraw(p) && !p.Abandoning? && !s.result ==> w in s.markers)
  }

  /** The source of a submitted task stays until its result is stored. */
  ghost predicate Sound(s: State) {
    && (forall w | 0 <= w < |s.phases| :: WorkerSound(s, w))
    && (s.client.Delivered? || s.client.Closed? ==> s.result)
    && (!s.client.Unsent? && !s.result ==> s.input)
  }

  /** w is about to overwrite the lease it still has in the store from an earlier attempt. */
  predicate Reclaims(s: State, w: Worker) {
    w < |s.phases| && s.phases[w].Prepared? && w in s.markers
  }

  /** Nothing is written over the own stored lease, and a deletion of the pending object that raises has no effect. */
  predicate Ordinary(s: State, a: Action) {
    && (a.Act? ==> !Reclaims(s, a.w))
    && (a.Fault? && a.applied && a.w < |s.phases| ==> !Reclaims(s, a.w) && !UnclearDelete(s, a.w))
  }

  /** The next operation of w deletes the pending object of the task it won. */
  predicate UnclearDelete(s: State, w: Worker) {
    w < |s.phases| && s.phases[w].Holding? && s.phases[w].hold.Won?
  }

  ghost predicate OtherKeeper(s: State, w: Worker) {
    exists h :: h != w && Keeper(s, h)
  }

  /** The premise. A submitted task survives a claim over the own stored lease if the pending object, the result or
      another lease carries it, and a deletion that raises with its effect if the result or another lease does. */
  ghost predicate Harmless(c: Config, s: State, a: Action) {
    IsSubmitted(s) ==>
      && (a.Act? && Reclaims(s, a.w) && s.now <= a.clock <= s.now + c.skew ==>
         s.pending || s.result || OtherKeeper(s, a.w))
      && (a.Fault? && a.applied && UnclearDelete(s, a.w) ==> s.result || OtherKeeper(s, a.w))
  }

  ghost predicate HarmlessRun(c: Config, s: State, actions: seq<Action>)
    decreases |actions|
  {
    actions == [] || (Harmless(c, s, actions[0]) && HarmlessRun(c, Step(c, s, actions[0]), actions[1..]))
  }

  /** The task is kept in every state of the run. */
  ghost predicate KeptThroughout(c: Config, s: State, actions: seq<Action>)
    decreases |actions|
  {
    Kept(s) && (actions == [] || KeptThroughout(c, Step(c, s, actions[0]), actions[1..]))
  }

  lemma ActSound(c: Config, s: State, w: Worker, clock: real, k: Worker, x: Worker)
    requires w < |s.phases| && x < |s.phases| && WorkerSound(s, x) && WorkerSound(s, w)
    ensures WorkerSound(At(Effect(s, w), w, Advance(c, s, w, clock, k)), x)
  {
  }

  lemma FaultSound(s: State, w: Worker, applied: bool, x: Worker)
    requires w < |s.phases| && x < |s.phases| && WorkerSound(s, x) && WorkerSound(s, w)
    ensures WorkerSound(At(if applied then Effect(s, w) else s, w, Handler(s.phases[w])), x)
  {
  }

  lemma ClientSound(c: Config, s: State, a: Action)
    requires Sound(s)
    ensures var s' := Step(c, s, a);
            && (s'.client.Delivered? || s'.client.Closed? ==> s'.result)
            && (!s'.client.Unsent? && !s'.result ==> s'.input)
  {
    if (a.Act? || a.Fault?) && a.w < |s.phases| { assert WorkerSound(s, a.w); }
  }

  lemma StepSound(c: Config, s: State, a: Action)
    requires Sound(s)
    ensures Sound(Step(c, s, a)) && |Step(c, s, a).phases| == |s.phases|
  {
    ClientSound(c, s, a);
    forall x | 0 <= x < |s.phases| ensures |Step(c, s, a).phases| == |s.phases| && WorkerSound(Step(c, s, a), x) {
      StepWorkerSound(c, s, a, x);
    }
    hide Step, WorkerSound;
  }

  lemma StepWorkerSound(c: Config, s: State, a: Action, x: Worker)
    requires Sound(s) && x < |s.phases|
    ensures |Step(c, s, a).phases| == |s.phases| && WorkerSound(Step(c, s, a), x)
  {
    assert WorkerSound(s, x);
    match a
    case Act(w, clock, k) =>
      if w < |s.phases| && s.now <= clock <= s.now + c.skew {
        assert WorkerSound(s, w);
        ActSound(c, s, w, clock, k, x);
        hide WorkerSound, Effect, Advance;
        EffectKeepsPhases(s, w);
      }
    case Fault(w, applied) =>
      if w < |s.phases| {
        assert WorkerSound(s, w);
        FaultSound(s, w, applied, x);
        hide WorkerSound, Effect, Handler;
        EffectKeepsPhases(s, w);
      }
    case _ =>
  }

  lemma EffectKeepsPhases(s: State, w: Worker)
    requires w < |s.phases|
    ensures Effect(s, w).phases == s.phases
  {
  }

  /** A kept lease stays kept under any ordinary step, or the result is stored. */
  lemma KeeperStays(c: Config, s: State, a: Action, h: Worker)
    requires Sound(s) && Keeper(s, h) && Ordinary(s, a) && !a.Fault?
    ensures Step(c, s, a).result || Keeper(Step(c, s, a), h)
  {
    if a.Act? && a.w < |s.phases| { assert WorkerSound(s, a.w); }
  }

  lemma KeeperStaysFault(c: Config, s: State, a: Action, h: Worker)
    requires Sound(s) && Keeper(s, h) && Ordinary(s, a) && a.Fault?
    ensures Step(c, s, a).result || Keeper(Step(c, s, a), h)
  {
    if a.w < |s.phases| { assert WorkerSound(s, a.w); }
  }

  lemma OrdinaryKept(c: Config, s: State, a: Action)
    requires Sound(s) && Kept(s) && Ordinary(s, a)
    ensures Kept(Step(c, s, a))
  {
    var s' := Step(c, s, a);
    if IsSubmitted(s') && !s'.pending && !s'.result {
      if IsSubmitted(s) && !s.pending && !s.result {
        var h :| Keeper(s, h);
        if a.Fault? { KeeperStaysFault(c, s, a, h); } else { KeeperStays(c, s, a, h); }
      } else if a.Act? && a.w < |s.phases| {
        assert WorkerSound(s, a.w) && Keeper(s', a.w); // the winner, whose lease replaces the pending object
      }
    }
  }

  /** Overwriting the own stored lease keeps the task exactly when something else still carries it. */
  lemma ReclaimKeepsIff(c: Config, s: State, w: Worker, clock: real, k: Worker)
    requires IsSubmitted(s) && Reclaims(s, w) && s.now <= clock <= s.now + c.skew
    ensures Kept(Step(c, s, Act(w, clock, k))) <==> s.pending || s.result || OtherKeeper(s, w)
  {
    var s' := Step(c, s, Act(w, clock, k));
    assert forall h :: h != w ==> (Keeper(s', h) <==> Keeper(s, h));
    assert !Keeper(s', w);
  }

  /** The same write raising with its effect always keeps it: the worker gives up and leaves its marker. */
  lemma UnclearReclaimKeeps(c: Config, s: State, w: Worker)
    requires Reclaims(s, w)
    ensures Kept(Step(c, s, Fault(w, true)))
  {
    assert Keeper(Step(c, s, Fault(w, true)), w);
  }

  /** A deletion of the pending object that raises but takes effect loses the winner's task, unless
      another lease or the result carries it. */
  lemma UnclearDeleteKeepsIff(c: Config, s: State, w: Worker)
    requires IsSubmitted(s) && UnclearDelete(s, w)
    ensures Kept(Step(c, s, Fault(w, true))) <==> s.result || OtherKeeper(s, w)
  {
    var s' := Step(c, s, Fault(w, true));
    assert forall h :: h != w ==> (Keeper(s', h) <==> Keeper(s, h));
    assert !Keeper(s', w);
  }

  lemma UnsubmittedStays(c: Config, s: State, a: Action)
    requires !IsSubmitted(s) && (a.Act? || a.Fault?)
    ensures !IsSubmitted(Step(c, s, a))
  {
  }

  /** A step keeps the task if and only if it is harmless. */
  lemma StepKeptIff(c: Config, s: State, a: Action)
    requires Sound(s) && Kept(s)
    ensures Kept(Step(c, s, a)) <==> Harmless(c, s, a)
  {
    hide Sound, Step, Kept, OtherKeeper, Keeper;
    if Ordinary(s, a) {
      OrdinaryKept(c, s, a);
    } else if a.Act? {
      if !(s.now <= a.clock <= s.now + c.skew) {
        LateActIsNothing(c, s, a);
      } else if IsSubmitted(s) {
        ReclaimKeepsIff(c, s, a.w, a.clock, a.k);
      } else {
        UnsubmittedKept(c, s, a);
      }
    } else if Reclaims(s, a.w) {
      UnclearReclaimKeeps(c, s, a.w);
    } else if IsSubmitted(s) {
      UnclearDeleteKeepsIff(c, s, a.w);
    } else {
      UnsubmittedKept(c, s, a);
    }
  }

  lemma LateActIsNothing(c: Config, s: State, a: Action)
    requires a.Act? && !(s.now <= a.clock <= s.now + c.skew)
    ensures Step(c, s, a) == s
  {
  }

  lemma UnsubmittedKept(c: Config, s: State, a: Action)
    requires !IsSubmitted(s) && (a.Act? || a.Fault?)
    ensures Kept(Step(c, s, a))
  {
    UnsubmittedStays(c, s, a);
    hide Step;
  }

  /** The task is kept in every state of a run if and only if every step of it is harmless. */
  lemma {:induction false} RunKeptIff(c: Config, s: State, actions: seq<Action>)
    requires Sound(s) && Kept(s)
    ensures KeptThroughout(c, s, actions) <==> HarmlessRun(c, s, actions)
    decreases |actions|
  {
    if actions != [] {
      var next := Step(c, s, actions[0]);
      StepSound(c, s, actions[0]);
      StepKeptIff(c, s, actions[0]);
      hide Step, Sound, Kept, Harmless;
      if Kept(next) {
        RunKeptIff(c, next, actions[1..]);
      }
    }
  }

  lemma {:induction false} RunKept(c: Config, s: State, actions: seq<Action>)
    requires Sound(s) && Kept(s) && HarmlessRun(c, s, actions)
    ensures Sound(Run(c, s, actions)) && Kept(Run(c, s, actions))
    decreases |actions|
  {
    if actions != [] {
      StepSound(c, s, actions[0]);
      StepKeptIff(c, s, actions[0]);
      hide Step, Sound, Kept, Harmless;
      RunKept(c, Step(c, s, actions[0]), actions[1..]);
    }
  }

  /** tasks() at this clock reading returns the task. */
  predicate Listed(s: State, clock: real) {
    s.pending || exists w | w in s.markers :: s.markers[w].expires < clock
  }

  ghost predicate ListedAfter(s: State, late: real) {
    forall clock | clock > late :: Listed(s, clock)
  }

  /** Whatever crashes, stops and faults happen, an uncancelled task without a result keeps its
      source and is listed again for recovery from some time on. */
  lemma NoTaskLost(c: Config, workers: nat, start: real, actions: seq<Action>)
    requires HarmlessRun(c, Init(workers, start), actions)
    ensures var s := Run(c, Init(workers, start), actions);
            IsSubmitted(s) && !s.result ==> s.input && exists late: real :: ListedAfter(s, late)
  {
    var s := Run(c, Init(workers, start), actions);
    RunKept(c, Init(workers, start), actions);
    if IsSubmitted(s) && !s.result {
      if s.pending {
        assert ListedAfter(s, start);
      } else {
        var w :| Keeper(s, w);
        assert ListedAfter(s, s.markers[w].expires);
      }
    }
  }

  // ----- tasks that are lost -----

  /** Nothing in the store and no worker remembers the task. */
  ghost predicate Forgotten(s: State) {
    && !s.client.Unsent? && !s.client.Staged?
    && !s.pending && !s.result && s.markers == map[]
    && forall w | 0 <= w < |s.phases| :: s.phases[w].Idle? || s.phases[w].Dead?
  }

  lemma StaysForgotten(c: Config, s: State, a: Action)
    requires Forgotten(s)
    ensures Forgotten(Step(c, s, a))
  {
  }

  /** Once forgotten, the task never gets a result. */
  lemma {:induction false} ForgottenForever(c: Config, s: State, actions: seq<Action>)
    requires Forgotten(s)
    ensures Forgotten(Run(c, s, actions))
    decreases |actions|
  {
    if actions != [] {
      StaysForgotten(c, s, actions[0]);
      ForgottenForever(c, Step(c, s, actions[0]), actions[1..]);
    }
  }

  lemma {:induction false} RunAppend(c: Config, s: State, before: seq<Action>, after: seq<Action>)
    ensures Run(c, s, before + after) == Run(c, Run(c, s, before), after)
    decreases |before|
  {
    if before == [] {
      assert before + after == after;
    } else {
      assert (before + after)[0] == before[0] && (before + after)[1..] == before[1..] + after;
      RunAppend(c, Step(c, s, before[0]), before[1..], after);
    }
  }

  /** A submitted task and one worker. */
  function Alone(now: real, pending: bool, markers: map<Worker, Marker>, p: Phase): State {
    State(now, Client.Submitted, pending, true, false, markers, {}, [p])
  }

  lemma Then(c: Config, s0: State, done: seq<Action>, s: State, a: Action) returns (more: seq<Action>)
    requires Run(c, s0, done) == s
    ensures Run(c, s0, more) == Step(c, s, a)
  {
    more := done + [a];
    RunAppend(c, s0, done, [a]);
    assert Run(c, s, [a]) == Run(c, Step(c, s, a), [a][1..]);
  }

  /** The worker's next operation, its clock exact. */
  lemma Next(c: Config, s0: State, done: seq<Action>, s: State) returns (more: seq<Action>)
    requires ValidConfig(c) && |s.phases| == 1 && Run(c, s0, done) == s
    ensures Run(c, s0, more) == At(Effect(s, 0), 0, Advance(c, s, 0, s.now, 0))
  {
    more := Then(c, s0, done, s, Act(0, s.now, 0));
  }

  /** Alone and in time, the worker wins the task with ticket 1; its next operation deletes the pending object. */
  lemma WinsAlone(c: Config, s0: State, before: seq<Action>) returns (done: seq<Action>)
    requires ValidConfig(c) && c.deadline > 0.0
    requires Run(c, s0, before) == Alone(0.0, true, map[], Found)
    ensures var mine := Marker(1, c.deadline + MARGIN);
            Run(c, s0, done) == Alone(0.0, true, map[0 := mine], Holding(mine, Won))
  {
    hide Run;
    var due := c.deadline + MARGIN;
    done := Prepares(c, s0, before, 0.0, true, map[]);
    done := Chooses(c, s0, done, due);
    done := Compared(c, s0, done, Marker(1, due));
    done := Confirms(c, s0, done, Marker(1, due));
  }

  /** From the sighted task to the expiry of the claim. */
  lemma Prepares(c: Config, s0: State, before: seq<Action>, now: real, pending: bool, markers: map<Worker, Marker>)
    returns (done: seq<Action>)
    requires ValidConfig(c) && Run(c, s0, before) == Alone(now, pending, markers, Found)
    ensures Run(c, s0, done) == Alone(now, pending, markers, Prepared(now + c.deadline + MARGIN))
  {
    done := Next(c, s0, before, Alone(now, pending, markers, Found));
    done := Next(c, s0, done, Alone(now, pending, markers, Checked));
  }

  lemma Chooses(c: Config, s0: State, before: seq<Action>, due: real) returns (done: seq<Action>)
    requires ValidConfig(c) && due > 0.0 && Run(c, s0, before) == Alone(0.0, true, map[], Prepared(due))
    ensures Run(c, s0, done) == Alone(0.0, true, map[0 := Marker(1, due)], Racing(Marker(1, due), Waiting))
  {
    done := Next(c, s0, before, Alone(0.0, true, map[], Prepared(due)));
    done := Tallied(c, s0, done, due);
    done := Next(c, s0, done, Alone(0.0, true, map[0 := Marker(0, due)], Chosen(Marker(1, due))));
  }

  lemma Confirms(c: Config, s0: State, before: seq<Action>, mine: Marker) returns (done: seq<Action>)
    requires ValidConfig(c) && Run(c, s0, before) == Alone(0.0, true, map[0 := mine], Racing(mine, Verifying))
    ensures Run(c, s0, done) == Alone(0.0, true, map[0 := mine], Holding(mine, Won))
  {
    done := Next(c, s0, before, Alone(0.0, true, map[0 := mine], Racing(mine, Verifying)));
    done := Next(c, s0, done, Alone(0.0, true, map[0 := mine], Racing(mine, Confirming)));
  }

  lemma OneKey(m: Marker)
    ensures map[0 := m].Keys == {0} && {0} - {0} == {} && map[0 := m] - {0} == map[]
    ensures map[][0 := m] == map[0 := m]
  {
    var one: map<Worker, Marker> := map[0 := m];
    assert one.Keys == {0};
    var zero: Worker := 0;
    var keys: set<Worker> := {zero};
    assert keys - {zero} == {};
    assert one - {0} == map[];
  }

  lemma Tallied(c: Config, s0: State, before: seq<Action>, due: real) returns (done: seq<Action>)
    requires ValidConfig(c) && due > 0.0
    requires Run(c, s0, before) == Alone(0.0, true, map[0 := Marker(0, due)], Choosing(due))
    ensures Run(c, s0, done) == Alone(0.0, true, map[0 := Marker(0, due)], Chosen(Marker(1, due)))
  {
    var m := map[0 := Marker(0, due)];
    OneKey(Marker(0, due));
    done := Next(c, s0, before, Alone(0.0, true, m, Choosing(due)));
    done := Next(c, s0, done, Alone(0.0, true, m, Tallying(due, {0}, map[], 0)));
    done := Judged(c, s0, done, m, due);
  }

  lemma Judged(c: Config, s0: State, before: seq<Action>, m: map<Worker, Marker>, due: real) returns (done: seq<Action>)
    requires ValidConfig(c) && due > 0.0 && m == map[0 := Marker(0, due)]
    requires Run(c, s0, before) == Alone(0.0, true, m, Tallying(due, {}, m, 0))
    ensures Run(c, s0, done) == Alone(0.0, true, m, Chosen(Marker(1, due)))
  {
    OneKey(Marker(0, due));
    done := Next(c, s0, before, Alone(0.0, true, m, Tallying(due, {}, m, 0)));
    done := Next(c, s0, done, Alone(0.0, true, m, Tallying(due, {}, map[], 0)));
  }

  lemma Compared(c: Config, s0: State, before: seq<Action>, mine: Marker) returns (done: seq<Action>)
    requires ValidConfig(c) && mine.expires == c.deadline + MARGIN
    requires Run(c, s0, before) == Alone(0.0, true, map[0 := mine], Racing(mine, Waiting))
    ensures Run(c, s0, done) == Alone(0.0, true, map[0 := mine], Racing(mine, Verifying))
  {
    var m := map[0 := mine];
    OneKey(mine);
    done := Next(c, s0, before, Alone(0.0, true, m, Racing(mine, Waiting)));
    done := Next(c, s0, done, Alone(0.0, true, m, Racing(mine, Timed)));
    done := Next(c, s0, done, Alone(0.0, true, m, Racing(mine, Comparing({0}, map[], false, false))));
    done := Next(c, s0, done, Alone(0.0, true, m, Racing(mine, Comparing({}, m, false, false))));
    done := Next(c, s0, done, Alone(0.0, true, m, Racing(mine, Comparing({}, map[], false, false))));
  }

  /** The worker's execution raises, so its lease is kept for recovery; it later finds its own
      expired lease and prepares to claim the task again. */
  lemma FindsOwnLease(c: Config, s0: State, before: seq<Action>, mine: Marker, late: real) returns (done: seq<Action>)
    requires ValidConfig(c) && mine.expires < late && 0.0 < late
    requires Run(c, s0, before) == Alone(0.0, false, map[0 := mine], Holding(mine, Owner))
    ensures Run(c, s0, done) == Alone(late, false, map[0 := mine], Sighted(mine))
  {
    var m := map[0 := mine];
    done := Then(c, s0, before, Alone(0.0, false, m, Holding(mine, Owner)), Fault(0, false));
    done := Then(c, s0, done, Alone(0.0, false, m, Idle), Tick(late));
    done := Then(c, s0, done, Alone(late, false, m, Idle), LookLease(0, 0));
  }

  lemma PreparesReclaim(c: Config, s0: State, before: seq<Action>, mine: Marker, late: real) returns (done: seq<Action>)
    requires ValidConfig(c) && mine.expires < late
    requires Run(c, s0, before) == Alone(late, false, map[0 := mine], Sighted(mine))
    ensures Run(c, s0, done) == Alone(late, false, map[0 := mine], Prepared(late + c.deadline + MARGIN))
  {
    var m := map[0 := mine];
    done := Next(c, s0, before, Alone(late, false, m, Sighted(mine)));
    done := Prepares(c, s0, done, late, false, m);
  }

  /** It overwrites the lease with a choosing marker; a failing LIST makes it delete that marker. */
  lemma ReclaimForgets(c: Config, s0: State, before: seq<Action>, mine: Marker, late: real, due: real)
    returns (done: seq<Action>)
    requires ValidConfig(c)
    requires Run(c, s0, before) == Alone(late, false, map[0 := mine], Prepared(due))
    ensures Run(c, s0, done) == Alone(late, false, map[], Idle)
  {
    var m := map[0 := mine];
    var own := map[0 := Marker(0, due)];
    OneKey(Marker(0, due));
    assert m[0 := Marker(0, due)] == own;
    done := Next(c, s0, before, Alone(late, false, m, Prepared(due)));
    done := Then(c, s0, done, Alone(late, false, own, Choosing(due)), Fault(0, false));
    done := Next(c, s0, done, Alone(late, false, own, Abandoning));
  }

  /** After these actions the task is submitted, and no continuation ever stores its result. */
  ghost predicate LosesTask(c: Config, s: State, actions: seq<Action>) {
    && IsSubmitted(Run(c, s, actions))
    && forall more :: !Run(c, Run(c, s, actions), more).result
  }

  lemma Submits(c: Config) returns (done: seq<Action>)
    ensures Run(c, Init(1, 0.0), done) == Alone(0.0, true, map[], Found)
  {
    var s0 := Init(1, 0.0);
    assert s0.phases == [Idle];
    done := Then(c, s0, [], s0, Action.Client);
    done := Then(c, s0, done, s0.(client := Staged, input := true), Action.Client);
    done := Then(c, s0, done, Alone(0.0, true, map[], Idle), Look(0));
  }

  lemma ForgottenIsLost(c: Config, s0: State, actions: seq<Action>, now: real)
    requires Run(c, s0, actions) == Alone(now, false, map[], Idle)
    ensures LosesTask(c, s0, actions)
  {
    var s := Run(c, s0, actions);
    forall more ensures !Run(c, s, more).result {
      ForgottenForever(c, s, more);
    }
  }

  /** A claim over the own stored lease can lose a submitted task for good, with one worker and no operation of
      unclear effect. */
  lemma ReclaimCanLoseTask(c: Config)
    requires ValidConfig(c) && c.deadline > 0.0
    ensures exists actions :: LosesTask(c, Init(1, 0.0), actions)
  {
    hide Run, LosesTask;
    var s0, mine, late := Init(1, 0.0), Marker(1, c.deadline + MARGIN), c.deadline + MARGIN + 1.0;
    var actions := Submits(c);
    actions := WinsAlone(c, s0, actions);
    actions := Next(c, s0, actions, Alone(0.0, true, map[0 := mine], Holding(mine, Won)));
    actions := FindsOwnLease(c, s0, actions, mine, late);
    actions := PreparesReclaim(c, s0, actions, mine, late);
    actions := ReclaimForgets(c, s0, actions, mine, late, late + c.deadline + MARGIN);
    ForgottenIsLost(c, s0, actions, late);
  }

  /** The winner's deletion raises with its effect, and the handler deletes its marker too. */
  lemma DeleteForgets(c: Config, s0: State, before: seq<Action>, mine: Marker) returns (done: seq<Action>)
    requires ValidConfig(c)
    requires Run(c, s0, before) == Alone(0.0, true, map[0 := mine], Holding(mine, Won))
    ensures Run(c, s0, done) == Alone(0.0, false, map[], Idle)
  {
    OneKey(mine);
    done := Then(c, s0, before, Alone(0.0, true, map[0 := mine], Holding(mine, Won)), Fault(0, true));
    done := Next(c, s0, done, Alone(0.0, false, map[0 := mine], Abandoning));
  }

  /** A deletion of the pending object whose effect is unclear can lose it too, before any lease expires. */
  lemma UnclearDeleteCanLoseTask(c: Config)
    requires ValidConfig(c) && c.deadline > 0.0
    ensures exists actions :: LosesTask(c, Init(1, 0.0), actions) && Run(c, Init(1, 0.0), actions).now == 0.0
  {
    hide Run, LosesTask;
    var s0, mine := Init(1, 0.0), Marker(1, c.deadline + MARGIN);
    var actions := Submits(c);
    actions := WinsAlone(c, s0, actions);
    actions := DeleteForgets(c, s0, actions, mine);
    ForgottenIsLost(c, s0, actions, 0.0);
  }
}
