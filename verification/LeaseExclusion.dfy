/** Mutual exclusion of the lease queue over every interleaving. */
module LeaseExclusion {
  import opened LeaseQueue

  predicate Ticketed(p: Phase) { p.Chosen? || p.Racing? || p.Holding? }

  /** An attempt is under way: the choosing marker was written and the result is not yet stored. */
  predicate Contends(p: Phase) { p.Choosing? || p.Tallying? || Ticketed(p) }

  function Expiry(p: Phase): real
    requires Contends(p)
  {
    if Ticketed(p) then p.mine.expires else p.due
  }

  /** The marker such an attempt has in the store. */
  function Stored(p: Phase): Marker
    requires Contends(p)
  {
    if p.Racing? || p.Holding? then p.mine else Marker(0, Expiry(p))
  }

  /** A worker in phase p may still execute in its current attempt. */
  predicate Threat(now: real, result: bool, p: Phase) {
    Contends(p) && (result ==> p.Holding?) && now <= Expiry(p) - MARGIN / 2.0
  }

  /** In phase p the worker has compared itself with u, or did not find u, and nothing stopped it. */
  predicate Cleared(p: Phase, u: Worker) {
    || p.Holding?
    || (p.Racing? && (p.lap.Verifying? || p.lap.Confirming?))
    || (p.Racing? && p.lap.Comparing? && u !in p.lap.todo && u !in p.lap.seen && !p.lap.choosing && !p.lap.beaten)
  }

  /** w has read u's marker and has not judged it yet. */
  predicate Noted(p: Phase, u: Worker) {
    p.Racing? && p.lap.Comparing? && u !in p.lap.todo && u in p.lap.seen
  }

  /** The attempt of u, in phase q, has a later ticket than w's, or is bound to choose one. */
  predicate Behind(mine: Marker, w: Worker, q: Phase, u: Worker) {
    && (q.Tallying? ==> w in q.todo || (w in q.seen && q.seen[w] == mine) || mine.ticket <= q.top)
    && (Ticketed(q) ==> Before(mine.ticket, w, q.mine.ticket, u))
  }

  /** What a contender in phase p knows of a contender in phase q. */
  predicate Ahead(p: Phase, w: Worker, q: Phase, u: Worker)
    requires Contends(p) && Contends(q)
  {
    && (Cleared(p, u) ==> Behind(p.mine, w, q, u))
    && (Noted(p, u) ==>
          || Behind(p.mine, w, q, u)
          || (p.lap.seen[u].expires == Expiry(q) &&
              (p.lap.seen[u].ticket == 0 || (Ticketed(q) && q.mine.ticket == p.lap.seen[u].ticket))))
  }

  predicate RaceInv(now: real, result: bool, p: Phase, w: Worker, q: Phase, u: Worker) {
    Threat(now, result, p) && Threat(now, result, q) ==> Ahead(p, w, q, u)
  }

  /** A marker that a cleaner read is that of a holder's attempt, and it condemns no threat. */
  predicate SweepInv(now: real, result: bool, p: Phase, q: Phase, u: Worker) {
    p.Cleaning? ==>
      && (p.broom.Sweeping? && u in p.broom.seen && q.Holding? ==> p.broom.seen[u].expires == Expiry(q))
      && (p.broom.Condemned? && u in p.broom.seen && q.Holding? ==> p.broom.seen[u].expires == Expiry(q))
      && (p.broom.Condemned? && p.broom.victim == u ==> !Threat(now, result, q))
  }

  predicate OwnInv(s: State, w: Worker)
    requires w < |s.phases|
  {
    var p := s.phases[w];
    && (Contends(p) ==> w in s.markers ==> s.markers[w] == Stored(p))
    && (Threat(s.now, s.result, p) ==> w in s.markers)
    && (Runs(p) ==> s.now <= p.hold.until <= p.mine.expires - MARGIN / 2.0)
    && (p.Cleaning? ==> s.result)
  }

  predicate PairInv(s: State, w: Worker, u: Worker)
    requires w < |s.phases| && u < |s.phases|
  {
    && SweepInv(s.now, s.result, s.phases[w], s.phases[u], u)
    && RaceInv(s.now, s.result, s.phases[w], w, s.phases[u], u)
  }

  ghost predicate Inv(s: State) {
    && (forall w | 0 <= w < |s.phases| :: OwnInv(s, w))
    && (forall w, u | 0 <= w < |s.phases| && 0 <= u < |s.phases| && w != u :: PairInv(s, w, u))
  }

  /** s' is s after w moved to its next phase, with a valid clock reading. */
  ghost predicate Moved(c: Config, s: State, s': State, w: Worker, clock: real, k: Worker) {
    && ValidConfig(c) && w < |s.phases| && s.now <= clock <= s.now + c.skew
    && s' == At(Effect(s, w), w, Advance(c, s, w, clock, k))
  }

  // ----- one lemma per fact and group of phases: the next operation of w -----

  predicate Competes(p: Phase) { p.Tallying? || p.Racing? }

  lemma MovedOwnQuiet(c: Config, s: State, s': State, w: Worker, clock: real, k: Worker)
    requires Moved(c, s, s', w, clock, k) && !s.phases[w].Racing? && !s.phases[w].Holding?
    requires OwnInv(s, w)
    ensures OwnInv(s', w)
  {
    hide RaceInv, SweepInv;
  }

  lemma MovedOwn(c: Config, s: State, s': State, w: Worker, clock: real, k: Worker)
    requires Moved(c, s, s', w, clock, k)
    requires OwnInv(s, w)
    ensures OwnInv(s', w)
  {
    if !s.phases[w].Racing? && !s.phases[w].Holding? {
      MovedOwnQuiet(c, s, s', w, clock, k);
    }
  }

  lemma MovedOther(c: Config, s: State, s': State, w: Worker, clock: real, k: Worker, x: Worker)
    requires Moved(c, s, s', w, clock, k) && x < |s.phases| && x != w
    requires OwnInv(s, x) && PairInv(s, w, x) && OwnInv(s, w)
    ensures OwnInv(s', x)
  {
    hide RaceInv;
  }

  lemma MovedSweepFirst(c: Config, s: State, s': State, w: Worker, clock: real, k: Worker, y: Worker)
    requires Moved(c, s, s', w, clock, k) && y < |s.phases| && y != w
    requires OwnInv(s, w) && OwnInv(s, y) && PairInv(s, w, y)
    ensures SweepInv(s'.now, s'.result, s'.phases[w], s'.phases[y], y)
  {
    hide RaceInv;
  }

  lemma MovedSweepSecond(c: Config, s: State, s': State, w: Worker, clock: real, k: Worker, x: Worker)
    requires Moved(c, s, s', w, clock, k) && x < |s.phases| && x != w
    requires OwnInv(s, x) && OwnInv(s, w) && PairInv(s, x, w)
    ensures SweepInv(s'.now, s'.result, s'.phases[x], s'.phases[w], w)
  {
    hide RaceInv;
  }

  /** Scanning is where w gains its place: an unlisted peer is no threat, a listed one is behind. */
  lemma RaceFirstLap(c: Config, s: State, s': State, w: Worker, clock: real, k: Worker, y: Worker)
    requires Moved(c, s, s', w, clock, k) && y < |s.phases| && y != w && s.phases[w].Racing?
    requires OwnInv(s, w) && OwnInv(s, y) && PairInv(s, w, y)
    ensures RaceInv(s'.now, s'.result, s'.phases[w], w, s'.phases[y], y)
  {
  }

  lemma RaceFirstHold(c: Config, s: State, s': State, w: Worker, clock: real, k: Worker, y: Worker)
    requires Moved(c, s, s', w, clock, k) && y < |s.phases| && y != w && s.phases[w].Holding?
    requires OwnInv(s, w) && OwnInv(s, y) && PairInv(s, w, y)
    ensures RaceInv(s'.now, s'.result, s'.phases[w], w, s'.phases[y], y)
  {
  }

  lemma MovedRaceFirst(c: Config, s: State, s': State, w: Worker, clock: real, k: Worker, y: Worker)
    requires Moved(c, s, s', w, clock, k) && y < |s.phases| && y != w
    requires OwnInv(s, w) && OwnInv(s, y) && PairInv(s, w, y)
    ensures RaceInv(s'.now, s'.result, s'.phases[w], w, s'.phases[y], y)
  {
    if s.phases[w].Racing? {
      RaceFirstLap(c, s, s', w, clock, k, y);
    } else if s.phases[w].Holding? {
      RaceFirstHold(c, s, s', w, clock, k, y);
    }
  }

  /** Choosing a ticket keeps w behind every peer that already cleared it. */
  lemma RaceSecondCompetes(c: Config, s: State, s': State, w: Worker, clock: real, k: Worker, x: Worker)
    requires Moved(c, s, s', w, clock, k) && x < |s.phases| && x != w && Competes(s.phases[w])
    requires OwnInv(s, w) && OwnInv(s, x) && PairInv(s, x, w)
    ensures RaceInv(s'.now, s'.result, s'.phases[x], x, s'.phases[w], w)
  {
  }

  lemma RaceSecondHold(c: Config, s: State, s': State, w: Worker, clock: real, k: Worker, x: Worker)
    requires Moved(c, s, s', w, clock, k) && x < |s.phases| && x != w && s.phases[w].Holding?
    requires OwnInv(s, w) && OwnInv(s, x) && PairInv(s, x, w)
    ensures RaceInv(s'.now, s'.result, s'.phases[x], x, s'.phases[w], w)
  {
  }

  lemma MovedRaceSecond(c: Config, s: State, s': State, w: Worker, clock: real, k: Worker, x: Worker)
    requires Moved(c, s, s', w, clock, k) && x < |s.phases| && x != w
    requires OwnInv(s, w) && OwnInv(s, x) && PairInv(s, x, w)
    ensures RaceInv(s'.now, s'.result, s'.phases[x], x, s'.phases[w], w)
  {
    if Competes(s.phases[w]) {
      RaceSecondCompetes(c, s, s', w, clock, k, x);
    } else if s.phases[w].Holding? {
      RaceSecondHold(c, s, s', w, clock, k, x);
    }
  }

  // ----- the invariant over every action -----

  /** A pair that does not move keeps its facts: time and the result only advance. */
  lemma FramePair(s: State, s': State, x: Worker, y: Worker)
    requires x < |s.phases| && y < |s.phases| && |s'.phases| == |s.phases|
    requires s'.phases[x] == s.phases[x] && s'.phases[y] == s.phases[y]
    requires s.now <= s'.now && (s.result ==> s'.result)
    requires PairInv(s, x, y)
    ensures PairInv(s', x, y)
  {
  }

  lemma MovedPair(c: Config, s: State, s': State, w: Worker, clock: real, k: Worker, x: Worker, y: Worker)
    requires Moved(c, s, s', w, clock, k) && x < |s.phases| && y < |s.phases| && x != y
    requires OwnInv(s, x) && OwnInv(s, y) && PairInv(s, x, y)
    ensures PairInv(s', x, y)
  {
    if x == w {
      MovedSweepFirst(c, s, s', w, clock, k, y);
      MovedRaceFirst(c, s, s', w, clock, k, y);
    } else if y == w {
      MovedSweepSecond(c, s, s', w, clock, k, x);
      MovedRaceSecond(c, s, s', w, clock, k, x);
    } else {
      FramePair(s, s', x, y);
    }
  }

  lemma MovedInv(c: Config, s: State, s': State, w: Worker, clock: real, k: Worker)
    requires Inv(s) && Moved(c, s, s', w, clock, k)
    ensures Inv(s')
  {
    forall x | 0 <= x < |s.phases| ensures OwnInv(s', x) {
      if x == w { MovedOwn(c, s, s', w, clock, k); } else { MovedOther(c, s, s', w, clock, k, x); }
    }
    forall x, y | 0 <= x < |s.phases| && 0 <= y < |s.phases| && x != y ensures PairInv(s', x, y) {
      MovedPair(c, s, s', w, clock, k, x, y);
    }
  }

  /** w leaves the competition, or only its label changes; the store may have changed by its operation. */
  ghost predicate Left(s: State, s': State, w: Worker, p: Phase) {
    && w < |s.phases| && (s' == At(s, w, p) || s' == At(Effect(s, w), w, p))
    && !p.Cleaning?
    && (Contends(p) ==>
          && Runs(p) && Runs(s.phases[w])
          && p.mine == s.phases[w].mine && p.hold.until == s.phases[w].hold.until)
  }

  predicate Condemns(p: Phase, u: Worker) { p.Cleaning? && p.broom.Condemned? && p.broom.victim == u }

  /** What an operation of w does to the rest: the result may appear and a condemned marker goes. */
  lemma EffectOnOthers(s: State, w: Worker)
    requires w < |s.phases|
    ensures var e := Effect(s, w);
            && e.phases == s.phases && e.now == s.now && (s.result ==> e.result)
            && (Runs(s.phases[w]) ==> e == s)
            && forall u: Worker | u != w ::
                 && (u in e.markers <==> u in s.markers && !Condemns(s.phases[w], u))
                 && (u in e.markers ==> e.markers[u] == s.markers[u])
  {
  }

  lemma LeftOwn(s: State, s': State, w: Worker, p: Phase, x: Worker)
    requires Left(s, s', w, p) && x < |s.phases|
    requires OwnInv(s, x) && OwnInv(s, w) && (x != w ==> PairInv(s, w, x))
    ensures OwnInv(s', x)
  {
    EffectOnOthers(s, w);
    hide Effect, RaceInv;
    assert x != w ==> SweepInv(s.now, s.result, s.phases[w], s.phases[x], x);
  }

  lemma LeftPair(s: State, s': State, w: Worker, p: Phase, x: Worker, y: Worker)
    requires Left(s, s', w, p) && x < |s.phases| && y < |s.phases| && x != y
    requires PairInv(s, x, y)
    ensures PairInv(s', x, y)
  {
    EffectOnOthers(s, w);
    hide Effect;
    if x != w && y != w {
      FramePair(s, s', x, y);
    } else {
      hide Ahead;
      if Threat(s'.now, s'.result, s'.phases[w]) {
        assert s' == At(s, w, p);
      }
    }
  }

  lemma LeftInv(s: State, s': State, w: Worker, p: Phase)
    requires Inv(s) && Left(s, s', w, p)
    ensures Inv(s')
  {
    forall x | 0 <= x < |s.phases| ensures OwnInv(s', x) { LeftOwn(s, s', w, p, x); }
    forall x, y | 0 <= x < |s.phases| && 0 <= y < |s.phases| && x != y ensures PairInv(s', x, y) {
      LeftPair(s, s', w, p, x, y);
    }
  }

  lemma IdleEnvInv(s: State, s': State)
    requires Inv(s) && s'.phases == s.phases && s'.markers == s.markers && s'.result == s.result
    requires s'.now == s.now || MayPass(s, s'.now)
    ensures Inv(s')
  {
    forall x | 0 <= x < |s.phases| ensures OwnInv(s', x) { assert OwnInv(s, x); }
    forall x, y | 0 <= x < |s.phases| && 0 <= y < |s.phases| && x != y ensures PairInv(s', x, y) {
      FramePair(s, s', x, y);
    }
  }

  lemma FaultInv(c: Config, s: State, w: Worker, applied: bool)
    requires Inv(s) && w < |s.phases|
    ensures Inv(Step(c, s, Fault(w, applied)))
  {
    LeftInv(s, Step(c, s, Fault(w, applied)), w, Handler(s.phases[w]));
  }

  lemma ActInv(c: Config, s: State, w: Worker, clock: real, k: Worker)
    requires ValidConfig(c) && Inv(s) && w < |s.phases| && s.now <= clock <= s.now + c.skew
    ensures Inv(Step(c, s, Act(w, clock, k)))
  {
    MovedInv(c, s, Step(c, s, Act(w, clock, k)), w, clock, k);
  }

  lemma EnvInv(c: Config, s: State, a: Action)
    requires Inv(s) && !a.Act? && !a.Fault?
    ensures Inv(Step(c, s, a))
  {
    var s' := Step(c, s, a);
    if s' != s {
      match a
      case Crash(w) => LeftInv(s, s', w, s'.phases[w]);
      case Look(w) => LeftInv(s, s', w, Found);
      case LookLease(w, k) => LeftInv(s, s', w, Sighted(s.markers[k]));
      case _ => IdleEnvInv(s, s');
    }
  }

  lemma StepInv(c: Config, s: State, a: Action)
    requires ValidConfig(c) && Inv(s)
    ensures Inv(Step(c, s, a)) && |Step(c, s, a).phases| == |s.phases|
  {
    match a
    case Act(w, clock, k) =>
      if w < |s.phases| && s.now <= clock <= s.now + c.skew { ActInv(c, s, w, clock, k); }
    case Fault(w, applied) =>
      if w < |s.phases| { FaultInv(c, s, w, applied); }
    case _ => EnvInv(c, s, a);
  }

  lemma {:induction false} RunInv(c: Config, s: State, actions: seq<Action>)
    requires ValidConfig(c) && Inv(s)
    ensures Inv(Run(c, s, actions)) && |Run(c, s, actions).phases| == |s.phases|
    decreases |actions|
  {
    if actions != [] {
      StepInv(c, s, actions[0]);
      RunInv(c, Step(c, s, actions[0]), actions[1..]);
    }
  }

  // ----- the theorems -----

  /** In every interleaving at most one worker executes the task at any time, and inside its lease. */
  lemma MutualExclusion(c: Config, workers: nat, start: real, actions: seq<Action>)
    requires ValidConfig(c)
    ensures var s := Run(c, Init(workers, start), actions);
            && (forall w, u | 0 <= w < |s.phases| && 0 <= u < |s.phases| ::
                  Runs(s.phases[w]) && Runs(s.phases[u]) ==> w == u)
            && (forall w | 0 <= w < |s.phases| && Runs(s.phases[w]) ::
                  s.now <= s.phases[w].hold.until <= s.phases[w].mine.expires - MARGIN / 2.0)
  {
    var s := Run(c, Init(workers, start), actions);
    RunInv(c, Init(workers, start), actions);
    forall w, u | 0 <= w < |s.phases| && 0 <= u < |s.phases| && Runs(s.phases[w]) && Runs(s.phases[u])
      ensures w == u
    {
      assert OwnInv(s, w) && OwnInv(s, u);
      if w != u { LeastTicket(s, w, u); LeastTicket(s, u, w); }
    }
    forall w | 0 <= w < |s.phases| && Runs(s.phases[w])
      ensures s.now <= s.phases[w].hold.until <= s.phases[w].mine.expires - MARGIN / 2.0
    {
      assert OwnInv(s, w);
    }
  }

  /** Among live contenders, whoever passed has the least (ticket, key) of those with a ticket. */
  lemma LeastTicket(s: State, w: Worker, u: Worker)
    requires Inv(s) && w < |s.phases| && u < |s.phases| && w != u
    requires Threat(s.now, s.result, s.phases[w]) && Threat(s.now, s.result, s.phases[u])
    requires s.phases[w].Holding? && Ticketed(s.phases[u])
    ensures Before(s.phases[w].mine.ticket, w, s.phases[u].mine.ticket, u)
  {
    assert PairInv(s, w, u);
  }

  /** A result is stored and whoever still holds the task can no longer start it. */
  ghost predicate Settled(s: State) {
    && s.result
    && forall w | 0 <= w < |s.phases| && s.phases[w].Holding? ::
         s.phases[w].hold.Executed? || (!Runs(s.phases[w]) && s.now > s.phases[w].mine.expires - MARGIN / 2.0)
  }

  lemma MovedSettled(c: Config, s: State, s': State, w: Worker, clock: real, k: Worker)
    requires Moved(c, s, s', w, clock, k) && OwnInv(s, w) && Settled(s)
    ensures Settled(s')
  {
    assert s'.phases[w].Holding? ==> s.phases[w].Holding?;
  }

  lemma StepSettled(c: Config, s: State, a: Action)
    requires ValidConfig(c) && Inv(s) && Settled(s)
    ensures Settled(Step(c, s, a))
  {
    if a.Act? && a.w < |s.phases| && s.now <= a.clock <= s.now + c.skew {
      assert OwnInv(s, a.w);
      MovedSettled(c, s, Step(c, s, a), a.w, a.clock, a.k);
    }
  }

  lemma {:induction false} RunSettled(c: Config, s: State, actions: seq<Action>)
    requires ValidConfig(c) && Inv(s) && Settled(s)
    ensures Settled(Run(c, s, actions))
    decreases |actions|
  {
    if actions != [] {
      StepInv(c, s, actions[0]);
      StepSettled(c, s, actions[0]);
      RunSettled(c, Step(c, s, actions[0]), actions[1..]);
    }
  }

  /** A result published while the publisher's lease still covers it is final: after any further
      actions nobody executes the task again. */
  lemma TimelyResultIsFinal(c: Config, workers: nat, start: real, before: seq<Action>,
                            w: Worker, clock: real, k: Worker, after: seq<Action>)
    requires ValidConfig(c)
    requires var s := Run(c, Init(workers, start), before);
             && w < |s.phases| && s.phases[w].Holding? && s.phases[w].hold.Executed?
             && s.now <= s.phases[w].mine.expires - MARGIN / 2.0
             && s.now <= clock <= s.now + c.skew
    ensures var s := Run(c, Init(workers, start), before);
            var s' := Run(c, Step(c, s, Act(w, clock, k)), after);
            s'.result && forall u | 0 <= u < |s'.phases| :: !Runs(s'.phases[u])
  {
    var s := Run(c, Init(workers, start), before);
    RunInv(c, Init(workers, start), before);
    var published := Step(c, s, Act(w, clock, k));
    StepInv(c, s, Act(w, clock, k));
    forall u | 0 <= u < |published.phases| && published.phases[u].Holding?
      ensures published.phases[u].hold.Executed? ||
              (!Runs(published.phases[u]) && published.now > published.phases[u].mine.expires - MARGIN / 2.0)
    {
      assert u != w && OwnInv(s, u);
      if Threat(s.now, s.result, s.phases[u]) { LeastTicket(s, w, u); LeastTicket(s, u, w); }
    }
    RunSettled(c, published, after);
  }
}
