/** How long an execution may take: its budget, and the clock checks on the way to it. */
module LeaseBudget {
  import opened LeaseQueue
  import opened LeaseExclusion
  import opened LeaseRecovery

  /** Worker w executes with this end. */
  predicate RunsUntil(s: State, w: Worker, until: real) {
    w < |s.phases| && Runs(s.phases[w]) && s.phases[w].hold.until == until
  }

  /** This operation starts the execution, for the task's deadline or what the lease leaves, whichever is less. */
  ghost predicate StartsFor(c: Config, s: State, a: Action, w: Worker, until: real) {
    && a.Act? && a.w == w && w < |s.phases| && !Runs(s.phases[w]) && s.phases[w].Holding?
    && RunsUntil(Step(c, s, a), w, until)
    && var rest := s.phases[w].mine.expires - a.clock - MARGIN / 2.0;
       && s.now < until <= s.now + c.deadline && until <= s.now + rest
       && (until == s.now + c.deadline || until == s.now + rest)
  }

  /** Only an operation of its own starts an execution, and with exactly this budget. */
  lemma BudgetIs(c: Config, s: State, a: Action, w: Worker)
    requires w < |s.phases| && !Runs(s.phases[w]) && w < |Step(c, s, a).phases| && Runs(Step(c, s, a).phases[w])
    ensures StartsFor(c, s, a, w, Step(c, s, a).phases[w].hold.until)
  {
    hide AdvanceLap, AdvanceBroom;
    if a.Act? && a.w == w {
      NoHoldFromLap(c, s, w, a.clock, a.k);
    }
  }

  lemma NoHoldFromLap(c: Config, s: State, w: Worker, clock: real, k: Worker)
    requires w < |s.phases|
    ensures !s.phases[w].Holding? ==> !Runs(Advance(c, s, w, clock, k))
  {
  }

  /** A worker with its lease read starts if and only if the deadline and the rest of the lease are both positive. */
  lemma StartsIff(c: Config, s: State, w: Worker, clock: real, k: Worker)
    requires w < |s.phases| && s.phases[w].Holding? && s.phases[w].hold.Leased? && s.now <= clock <= s.now + c.skew
    ensures Runs(Step(c, s, Act(w, clock, k)).phases[w]) <==>
              c.deadline > 0.0 && s.phases[w].mine.expires - clock - MARGIN / 2.0 > 0.0
  {
  }

  lemma EndStays(c: Config, s: State, a: Action, w: Worker)
    requires w < |s.phases| && Runs(s.phases[w])
    requires |Step(c, s, a).phases| == |s.phases| && Runs(Step(c, s, a).phases[w])
    ensures Step(c, s, a).phases[w].hold.until == s.phases[w].hold.until
  {
    hide AdvanceLap, AdvanceBroom, Effect;
    match a
    case Act(x, clock, k) => if x < |s.phases| { EffectOnOthers(s, x); }
    case Fault(x, applied) => if x < |s.phases| { EffectOnOthers(s, x); }
    case _ =>
  }

  lemma RunLast(c: Config, s: State, actions: seq<Action>)
    requires actions != []
    ensures Run(c, s, actions) == Step(c, Run(c, s, actions[..|actions| - 1]), actions[|actions| - 1])
  {
    var front, last := actions[..|actions| - 1], actions[|actions| - 1];
    assert actions == front + [last];
    RunAppend(c, s, front, [last]);
    var t := Run(c, s, front);
    assert Run(c, t, [last]) == Run(c, Step(c, t, last), [last][1..]);
  }

  /** Whoever executes after these actions began at one of them and has executed ever since. */
  ghost predicate Began(c: Config, s: State, actions: seq<Action>, w: Worker, until: real, n: nat) {
    && n < |actions| && StartsFor(c, Run(c, s, actions[..n]), actions[n], w, until)
    && forall m | n < m <= |actions| :: RunsUntil(Run(c, s, actions[..m]), w, until)
  }

  /** Over every run: an execution ends within the deadline of the moment its budget was computed. */
  lemma ExecutionsAreInBudget(c: Config, workers: nat, start: real, actions: seq<Action>, w: Worker, until: real)
    requires ValidConfig(c) && RunsUntil(Run(c, Init(workers, start), actions), w, until)
    ensures exists n :: Began(c, Init(workers, start), actions, w, until, n)
    ensures Run(c, Init(workers, start), actions).now <= until
  {
    var s := Init(workers, start);
    RunInv(c, s, actions);
    assert OwnInv(Run(c, s, actions), w);
    var n := BeganAt(c, s, actions, w, until);
  }

  lemma {:induction false} BeganAt(c: Config, s: State, actions: seq<Action>, w: Worker, until: real) returns (n: nat)
    requires ValidConfig(c) && Inv(s)
    requires RunsUntil(Run(c, s, actions), w, until) && !(w < |s.phases| && Runs(s.phases[w]))
    ensures Began(c, s, actions, w, until, n)
    decreases |actions|
  {
    hide Step, Runs, Inv;
    assert actions != [];
    var front, last := actions[..|actions| - 1], actions[|actions| - 1];
    var t := Run(c, s, front);
    RunLast(c, s, actions);
    RunInv(c, s, front);
    StepInv(c, t, last);
    hide Run;
    assert actions[..|actions|] == actions;
    if w < |t.phases| && Runs(t.phases[w]) {
      EndStays(c, t, last, w);
      n := BeganAt(c, s, front, w, until);
      BeganLater(c, s, actions, w, until, n);
    } else {
      BudgetIs(c, t, last, w);
      n := |front|;
    }
  }

  lemma BeganLater(c: Config, s: State, actions: seq<Action>, w: Worker, until: real, n: nat)
    requires actions != [] && Began(c, s, actions[..|actions| - 1], w, until, n)
    requires RunsUntil(Run(c, s, actions), w, until)
    ensures Began(c, s, actions, w, until, n)
  {
    hide StartsFor, RunsUntil, Run;
    var front := actions[..|actions| - 1];
    assert front[..n] == actions[..n];
    forall m | n < m <= |actions| ensures RunsUntil(Run(c, s, actions[..m]), w, until) {
      if m <= |front| {
        assert front[..m] == actions[..m];
      } else {
        assert actions[..m] == actions;
      }
    }
  }

  // ----- the checks before a claim -----

  /** In these phases w has left the clock check behind and not yet deleted the pending object. */
  predicate Beyond(s: State, w: Worker, mine: Marker) {
    && w < |s.phases|
    && (s.phases[w] == Holding(mine, Won) ||
        (s.phases[w].Racing? && s.phases[w].mine == mine && !s.phases[w].lap.Waiting?))
  }

  /** The check passes: the worker is not stopping and the lease has room for the whole deadline. */
  ghost predicate Checks(s: State, a: Action, w: Worker, c: Config, mine: Marker) {
    && a.Act? && a.w == w && w < |s.phases| && s.phases[w] == Racing(mine, Waiting) && w !in s.stopping
    && s.now <= a.clock <= s.now + c.skew && a.clock + c.deadline + MARGIN / 2.0 < mine.expires
  }

  lemma BroomGoesHome(s: State, w: Worker, broom: Broom, clock: real, k: Worker)
    ensures var p := AdvanceBroom(s, w, broom, clock, k); p.Cleaning? || p.Idle?
  {
  }

  lemma OnlyCheckPasses(c: Config, s: State, a: Action, w: Worker, mine: Marker)
    requires !Beyond(s, w, mine) && Beyond(Step(c, s, a), w, mine)
    ensures Checks(s, a, w, c, mine)
  {
    hide AdvanceBroom, Effect;
    if (a.Act? || a.Fault?) && a.w < |s.phases| {
      EffectOnOthers(s, a.w);
      if a.Act? && s.phases[a.w].Cleaning? {
        BroomGoesHome(s, a.w, s.phases[a.w].broom, a.clock, a.k);
      }
    }
  }

  ghost predicate Checked(c: Config, s: State, actions: seq<Action>, w: Worker, mine: Marker, n: nat) {
    && n < |actions| && Checks(Run(c, s, actions[..n]), actions[n], w, c, mine)
    && forall m | n < m <= |actions| :: Beyond(Run(c, s, actions[..m]), w, mine)
  }

  /** Over every run: whoever is about to delete the pending object found, in the same lap, the whole deadline free. */
  lemma {:induction false} ClaimsAreInTime(
    c: Config, workers: nat, start: real, actions: seq<Action>, w: Worker, mine: Marker)
    returns (n: nat)
    requires ValidConfig(c) && Beyond(Run(c, Init(workers, start), actions), w, mine)
    ensures Checked(c, Init(workers, start), actions, w, mine, n)
    decreases |actions|
  {
    var s := Init(workers, start);
    hide Step, Beyond, Checks;
    NothingBeyond(workers, start, w, mine);
    assert actions != [];
    var front, last := actions[..|actions| - 1], actions[|actions| - 1];
    RunLast(c, s, actions);
    hide Run, Init;
    assert actions[..|actions|] == actions;
    if Beyond(Run(c, s, front), w, mine) {
      n := ClaimsAreInTime(c, workers, start, front, w, mine);
      assert front[..n] == actions[..n];
      forall m | n < m <= |actions| ensures Beyond(Run(c, s, actions[..m]), w, mine) {
        if m <= |front| { assert front[..m] == actions[..m]; }
      }
    } else {
      OnlyCheckPasses(c, Run(c, s, front), last, w, mine);
      n := |front|;
    }
  }

  lemma NothingBeyond(workers: nat, start: real, w: Worker, mine: Marker)
    ensures !Beyond(Init(workers, start), w, mine)
  {
  }

  /** What a worker must have seen to go on: an expired lease to sight its task, no result and no stop to start a claim,
      and no result to win. */
  lemma GoesOnOnlyIf(c: Config, s: State, a: Action, w: Worker)
    requires w < |s.phases| && w < |Step(c, s, a).phases| && Step(c, s, a).phases[w] != s.phases[w]
    ensures var p, q := s.phases[w], Step(c, s, a).phases[w];
            && (q.Found? ==> (p.Idle? && s.pending) || (p.Sighted? && a.Act? && p.sighted.expires < a.clock))
            && (q.Checked? ==> p.Found? && !s.result && w !in s.stopping)
            && (q.Holding? && q.hold.Won? ==> p == Racing(q.mine, Confirming) && !s.result)
            && (q.Racing? && q.lap.Confirming? ==> w in s.markers && s.markers[w] == q.mine)
  {
    hide AdvanceBroom, Effect;
    if (a.Act? || a.Fault?) && a.w < |s.phases| {
      EffectOnOthers(s, a.w);
      if a.Act? && s.phases[a.w].Cleaning? {
        BroomGoesHome(s, a.w, s.phases[a.w].broom, a.clock, a.k);
      }
    }
  }
}
