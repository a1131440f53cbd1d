/** The two worker slots shared by every lane call and executor session of one dispatcher process.

    Each user advances through its own call; `Step` performs the next operation of one user with an
    adversarial outcome, so sequences of steps are all interleavings of all calls. */
module AxSlots {

  const CAPACITY: nat := 2

  /** A lane call reads task states while it waits; an executor session may be closed again. */
  datatype Kind = Lane | Session

  /** What comes next in the call. */
  datatype Stage =
    | Waiting     // acquire a slot
    | Uploading   // store the inputs, presign
    | Applying    // clock check, then submit the task
    | Clearing    // delete the rejected task
    | Probing     // health check and pause
    | Running     // poll, or serve commands
    | Teardown    // delete the task
    | Purging     // delete the objects
    | Unwinding   // release the slot, if the flag says so
    | Over

  datatype Outcome =
    | Good
    | Reject      // no free workers; the task may exist nevertheless
    | Late        // the deadline passed
    | Vanished    // a listing without the task
    | Bad         // an exception; the operation may have had its effect
    | Interrupt   // an exception that the handlers for ordinary errors do not catch

  /** `slot` is the code's own flag and `owned` the acquires minus the releases this user really made;
      `unproved`: a submission was sent and nothing since then proved the task gone; `cut`: an uncaught exception
      cut its last cleanup short. */
  datatype User = User(kind: Kind, stage: Stage, slot: bool, owned: int, submitted: bool, missing: bool,
                       errors: bool, unproved: bool, cut: bool)

  /** What an operation does to the semaphore. */
  datatype Effect = Nothing | Acquire | Release

  /** A release beyond the capacity raises, as that of a bounded semaphore does. */
  datatype State = State(free: nat, raised: bool, users: seq<User>)

  function Fresh(kind: Kind): User {
    User(kind, Waiting, kind.Lane?, 0, false, false, false, false, false)
  }

  function Start(kinds: seq<Kind>): State {
    State(CAPACITY, false, seq(|kinds|, i requires 0 <= i < |kinds| => Fresh(kinds[i])))
  }

  /** The cleanup ends: a lane's errors raise, and its handler for that clears the flag. */
  function Cleaned(u: User): User {
    u.(stage := Unwinding, slot := u.slot && !(u.kind.Lane? && u.errors))
  }

  /** An uncaught exception in the cleanup passes that handler: a lane goes on to its release, a session is left. */
  function CutShort(u: User): User {
    u.(stage := if u.kind.Lane? then Unwinding else Over, cut := true)
  }

  function Advance(u: User, free: bool, o: Outcome): (User, Effect) {
    match u.stage
    case Waiting =>
      if o.Good? && free then (u.(stage := Uploading, slot := true), Acquire)
      else if o.Late? then (u.(stage := Over), Nothing)
      else (u, Nothing)
    case Uploading =>
      (if o.Good? then u.(stage := Applying, submitted := true) else u.(stage := Teardown), Nothing)
    case Applying =>
      (match o
       case Late => (u.(stage := Teardown, submitted := false), Nothing)
       case Good => (u.(stage := Running, unproved := true), Nothing)
       case Reject => (u.(stage := Clearing, unproved := true), Nothing)
       case _ => (u.(stage := Teardown, unproved := true), Nothing))
    case Clearing =>
      (if o.Good? then u.(stage := Probing, unproved := false) else u.(stage := Teardown), Nothing)
    case Probing =>
      (if o.Good? then u.(stage := Applying) else u.(stage := Teardown), Nothing)
    case Running =>
      if o.Good? then (u, Nothing)
      else if o.Vanished? && u.kind.Lane? then (u.(stage := Teardown, missing := true, unproved := false), Nothing)
      else (u.(stage := Teardown), Nothing)
    case Teardown =>
      if !u.submitted then (u.(stage := Purging), Nothing)
      else if o.Interrupt? then (CutShort(u), Nothing)
      else if o.Good? then (u.(stage := Purging, unproved := false, submitted := u.kind.Lane?), Nothing)
      else (u.(stage := Purging, errors := u.errors || !(u.kind.Lane? && u.missing)), Nothing)
    case Purging =>
      (if o.Interrupt? then CutShort(u) else Cleaned(u.(errors := u.errors || !o.Good?)), Nothing)
    case Unwinding =>
      if u.slot && (u.kind.Lane? || !u.errors) then (u.(stage := Over, slot := u.kind.Lane?), Release)
      else (u.(stage := Over), Nothing)
    case Over =>
      (if u.kind.Session? && o.Good? then u.(stage := Teardown, errors := false, cut := false) else u, Nothing)
  }

  /** The user after an operation, its own balance included. */
  function After(u: User, free: bool, o: Outcome): User {
    var (v, effect) := Advance(u, free, o);
    match effect
    case Nothing => v
    case Acquire => v.(owned := v.owned + 1)
    case Release => v.(owned := v.owned - 1)
  }

  function Step(s: State, i: nat, o: Outcome): State {
    if i >= |s.users| then s
    else
      var u := s.users[i];
      var users := s.users[i := After(u, s.free > 0, o)];
      match Advance(u, s.free > 0, o).1
      case Nothing => State(s.free, s.raised, users)
      case Acquire => State(if s.free > 0 then s.free - 1 else 0, s.raised, users)
      case Release => if s.free >= CAPACITY then State(s.free, true, users) else State(s.free + 1, s.raised, users)
  }

  function Run(s: State, steps: seq<(nat, Outcome)>): State
    decreases |steps|
  {
    if steps == [] then s else Run(Step(s, steps[0].0, steps[0].1), steps[1..])
  }

  /** The sum over these users. */
  function Sum(users: seq<User>, f: User -> int): int {
    if users == [] then 0 else f(users[0]) + Sum(users[1..], f)
  }

  function Owned(u: User): int { u.owned }

  function MayRun(u: User): int { if u.unproved then 1 else 0 }

  /** Submitted tasks not proved gone. */
  function Unproved(s: State): int { Sum(s.users, MayRun) }

  function Held(s: State): int { CAPACITY - s.free }

  lemma {:induction false} SumUpdate(users: seq<User>, i: nat, v: User, f: User -> int)
    requires i < |users|
    ensures Sum(users[i := v], f) + f(users[i]) == Sum(users, f) + f(v)
  {
    if i == 0 {
      assert users[0 := v][1..] == users[1..];
    } else {
      assert users[i := v][1..] == users[1..][i - 1 := v];
      SumUpdate(users[1..], i - 1, v, f);
    }
  }

  lemma {:induction false} SumAtMost(users: seq<User>, f: User -> int, g: User -> int)
    requires forall u | u in users :: f(u) <= g(u)
    ensures Sum(users, f) <= Sum(users, g)
  {
    if users != [] {
      SumAtMost(users[1..], f, g);
    }
  }

  lemma {:induction false} SumHolds(users: seq<User>, i: nat)
    requires i < |users| && forall u | u in users :: u.owned >= 0
    ensures users[i].owned <= Sum(users, Owned)
  {
    if i == 0 {
      SumNonNegative(users[1..]);
    } else {
      SumHolds(users[1..], i - 1);
    }
  }

  lemma {:induction false} SumNonNegative(users: seq<User>)
    requires forall u | u in users :: u.owned >= 0
    ensures Sum(users, Owned) >= 0
  {
    if users != [] {
      SumNonNegative(users[1..]);
    }
  }

  /** What every stage keeps: the flag tells the truth where it is read, and a task not proved gone is covered by a
      slot its own user owns and will not release. */
  predicate Covered(u: User) {
    && (u.owned == 0 || u.owned == 1)
    && (u.unproved ==> u.owned == 1 && !u.missing)
    && (u.unproved || u.stage in {Applying, Clearing, Probing, Running} ==> u.submitted)
    && (u.missing ==> u.stage in {Teardown, Purging, Unwinding, Over})
    && (u.stage in {Uploading, Applying, Probing, Waiting} ==> !u.unproved)
    && (u.stage == Waiting ==> u.owned == 0 && !u.errors)
    && (u.stage in {Uploading, Applying, Clearing, Probing, Running} ==> u.slot && u.owned == 1)
    && (u.kind.Session? ==> (u.slot <==> u.owned == 1))
    && (u.kind.Lane? && u.stage in {Teardown, Purging} ==> u.slot && u.owned == 1)
    && (u.kind.Lane? && u.stage == Unwinding ==> u.owned == 1 && (u.slot ==> !u.unproved))
    && (u.kind.Lane? && u.stage == Unwinding && !u.slot ==> u.errors)
    && (u.cut ==> u.stage in {Unwinding, Over})
    && (u.stage == Over && u.owned == 1 ==> u.errors || u.cut)
    && (u.unproved && (u.stage == Purging || (u.kind.Session? && u.stage == Unwinding)) ==> u.errors)
  }

  /** The one premise: no uncaught exception cuts a lane's cleanup short while its task is unproved. */
  predicate Calm(u: User, o: Outcome) {
    !(o.Interrupt? && u.kind.Lane? && u.unproved && (u.stage.Teardown? || u.stage.Purging?))
  }

  /** The semaphore's count is exact and no release was one too many. */
  ghost predicate Inv(s: State) {
    && s.free + Sum(s.users, Owned) == CAPACITY && !s.raised
    && forall u | u in s.users :: Covered(u)
  }

  ghost predicate CalmRun(s: State, steps: seq<(nat, Outcome)>)
    decreases |steps|
  {
    steps == [] || (
      && (steps[0].0 < |s.users| ==> Calm(s.users[steps[0].0], steps[0].1))
      && CalmRun(Step(s, steps[0].0, steps[0].1), steps[1..]))
  }

  predicate Early(u: User) { u.stage in {Waiting, Uploading, Applying, Clearing, Probing, Running} }

  lemma CoveredEarly(u: User, free: bool, o: Outcome)
    requires Covered(u) && Early(u)
    ensures Covered(After(u, free, o))
  {
  }

  lemma CoveredIffCalmLate(u: User, free: bool, o: Outcome)
    requires Covered(u) && !Early(u)
    ensures Covered(After(u, free, o)) <==> Calm(u, o)
  {
  }

  /** A covered user stays covered exactly under the premise. */
  lemma CoveredIffCalm(u: User, free: bool, o: Outcome)
    requires Covered(u)
    ensures Covered(After(u, free, o)) <==> Calm(u, o)
  {
    if Early(u) {
      CoveredEarly(u, free, o);
      hide After, Covered;
    } else {
      CoveredIffCalmLate(u, free, o);
    }
  }

  lemma Balance(u: User, free: bool, o: Outcome)
    requires Covered(u)
    ensures After(u, free, o).owned ==
            u.owned + match Advance(u, free, o).1 { case Nothing => 0 case Acquire => 1 case Release => -1 }
    ensures u.owned == 0 || u.owned == 1
  {
    KeepsOwned(u, free, o);
    hide Advance;
  }

  lemma KeepsOwned(u: User, free: bool, o: Outcome)
    ensures Advance(u, free, o).0.owned == u.owned
  {
  }

  /** A user releases only a slot it owns. */
  lemma ReleasesOwn(u: User, free: bool, o: Outcome)
    requires Covered(u)
    ensures Advance(u, free, o).1.Release? ==> u.owned == 1
    ensures Advance(u, free, o).1.Acquire? ==> u.owned == 0 && free
  {
  }

  lemma AllOwned(users: seq<User>)
    requires forall u | u in users :: Covered(u)
    ensures forall u | u in users :: u.owned >= 0
  {
  }

  lemma StepInv(s: State, i: nat, o: Outcome)
    requires Inv(s) && (i < |s.users| ==> Calm(s.users[i], o))
    ensures Inv(Step(s, i, o))
  {
    if i < |s.users| {
      var u := s.users[i];
      var v := After(u, s.free > 0, o);
      CoveredIffCalm(u, s.free > 0, o);
      ReleasesOwn(u, s.free > 0, o);
      Balance(u, s.free > 0, o);
      hide Advance, After, Calm;
      SumUpdate(s.users, i, v, Owned);
      AllOwned(s.users);
      SumHolds(s.users, i);
      hide Covered;
    }
  }

  lemma {:induction false} RunInv(s: State, steps: seq<(nat, Outcome)>)
    requires Inv(s) && CalmRun(s, steps)
    ensures Inv(Run(s, steps))
    decreases |steps|
  {
    if steps != [] {
      StepInv(s, steps[0].0, steps[0].1);
      RunInv(Step(s, steps[0].0, steps[0].1), steps[1..]);
    }
  }

  lemma {:induction false} SumFresh(users: seq<User>)
    requires forall u | u in users :: u.owned == 0
    ensures Sum(users, Owned) == 0
  {
    if users != [] {
      SumFresh(users[1..]);
    }
  }

  /** Over both kinds of users and every outcome: tasks not proved gone <= held slots <= 2, the held slots are exactly
      those acquired and not yet released, and no slot is released twice. */
  lemma SlotsCoverTasks(kinds: seq<Kind>, steps: seq<(nat, Outcome)>)
    requires CalmRun(Start(kinds), steps)
    ensures var s := Run(Start(kinds), steps);
            && Unproved(s) <= Held(s) <= CAPACITY && Held(s) == Sum(s.users, Owned)
            && !s.raised && forall u | u in s.users :: u.owned == 0 || u.owned == 1
  {
    SumFresh(Start(kinds).users);
    RunInv(Start(kinds), steps);
    var s := Run(Start(kinds), steps);
    SumAtMost(s.users, MayRun, Owned);
  }

  // ----- the premise is exact -----

  /** Every task not proved gone has the slot of its own user. */
  ghost predicate OwnCovered(s: State) {
    forall u | u in s.users :: u.unproved ==> u.owned == 1
  }

  /** And no user's next operation, whatever its outcome, changes that. */
  ghost predicate Secure(s: State) {
    forall i: nat, o :: OwnCovered(Step(s, i, o))
  }

  ghost predicate SecureThroughout(s: State, steps: seq<(nat, Outcome)>)
    decreases |steps|
  {
    Secure(s) && (steps == [] || SecureThroughout(Step(s, steps[0].0, steps[0].1), steps[1..]))
  }

  lemma NextStaysCovered(u: User, free: bool, o: Outcome)
    requires Covered(u)
    ensures var v := After(u, free, o); v.unproved ==> v.owned == 1
  {
    if Calm(u, o) {
      CoveredIffCalm(u, free, o);
      hide After, Calm;
    }
  }

  /** An uncaught exception in the cleanup of an unproved task makes the release the lane's next operation. */
  lemma UncalmReleases(u: User, free: bool, o: Outcome, free2: bool, o2: Outcome)
    requires Covered(u) && !Calm(u, o)
    ensures var v := After(After(u, free, o), free2, o2); v.unproved && v.owned == 0
  {
  }

  lemma InvIsSecure(s: State)
    requires Inv(s)
    ensures Secure(s)
  {
    forall i: nat, o ensures OwnCovered(Step(s, i, o)) {
      if i < |s.users| {
        NextStaysCovered(s.users[i], s.free > 0, o);
        hide After, Advance;
        assert forall u | u in s.users :: u.unproved ==> u.owned == 1;
      }
    }
  }

  lemma StepsUser(s: State, i: nat, o: Outcome)
    requires i < |s.users|
    ensures Step(s, i, o).users == s.users[i := After(s.users[i], s.free > 0, o)]
  {
  }

  /** After an operation every task stays secure if and only if the operation was calm. */
  lemma StepSecureIff(s: State, i: nat, o: Outcome)
    requires Inv(s) && i < |s.users|
    ensures Secure(Step(s, i, o)) <==> Calm(s.users[i], o)
  {
    hide Step, After, Covered, Calm;
    if Calm(s.users[i], o) {
      StepInv(s, i, o);
      InvIsSecure(Step(s, i, o));
    } else {
      var t := Step(s, i, o);
      StepsUser(s, i, o);
      StepsUser(t, i, Good);
      assert Covered(s.users[i]);
      UncalmReleases(s.users[i], s.free > 0, o, t.free > 0, Good);
      var v := Step(t, i, Good).users[i];
      assert v in Step(t, i, Good).users && v.unproved && v.owned == 0;
    }
  }

  /** In a run no task ever loses its slot, nor is about to, if and only if every operation is calm. */
  lemma {:induction false} RunSecureIff(s: State, steps: seq<(nat, Outcome)>)
    requires Inv(s)
    ensures SecureThroughout(s, steps) <==> CalmRun(s, steps)
    decreases |steps|
  {
    InvIsSecure(s);
    if steps != [] {
      var (i, o) := steps[0];
      var t := Step(s, i, o);
      if i < |s.users| {
        StepSecureIff(s, i, o);
      } else {
        assert t == s;
      }
      if i < |s.users| && !Calm(s.users[i], o) {
        assert !Secure(t);
      } else {
        StepInv(s, i, o);
        RunSecureIff(t, steps[1..]);
      }
    }
  }

  // ----- a call in isolation: what its end says about its slot -----

  function Drive(u: User, outcomes: seq<Outcome>): User
    decreases |outcomes|
  {
    if outcomes == [] then u else Drive(After(u, true, outcomes[0]), outcomes[1..])
  }

  /** No uncaught exception cuts a cleanup short that has an error to report or a task not proved gone. */
  predicate Tidy(u: User, o: Outcome) {
    !(o.Interrupt? && (u.stage.Teardown? || u.stage.Purging?) && (u.errors || u.unproved))
  }

  predicate TidyRun(u: User, outcomes: seq<Outcome>)
    decreases |outcomes|
  {
    outcomes == [] || (Tidy(u, outcomes[0]) && TidyRun(After(u, true, outcomes[0]), outcomes[1..]))
  }

  /** The flag and the balance of a lane call whose cleanup was tidy. */
  predicate Reported(u: User) {
    && (u.stage !in {Teardown, Purging, Unwinding, Over} ==> !u.errors)
    && (u.stage == Teardown ==> !u.errors)
    && (u.stage == Unwinding ==> (u.slot <==> !u.errors))
    && (u.stage == Over ==> (u.owned == 1 <==> u.errors))
  }

  /** What the end of a call says: its slot is kept exactly if the cleanup reported an error, an unproved task among
      them. */
  predicate Told(u: User) {
    (u.owned == 1 <==> u.errors) && (u.unproved ==> u.errors)
  }

  /** An untidy end: the slot goes, or is gone, with an error or an unproved task behind it. */
  predicate Untold(u: User) {
    && u.kind.Lane? && (u.errors || u.unproved)
    && ((u.stage == Unwinding && u.slot && u.owned == 1) || (u.stage == Over && u.owned == 0))
  }

  lemma TidyReports(u: User, o: Outcome)
    requires u.kind.Lane? && Covered(u) && Reported(u) && Tidy(u, o)
    ensures var v := After(u, true, o); v.kind.Lane? && Covered(v) && Reported(v)
  {
    CoveredIffCalm(u, true, o);
  }

  lemma UntidyIsUntold(u: User, o: Outcome)
    requires u.kind.Lane? && Covered(u) && Reported(u) && !Tidy(u, o)
    ensures Untold(After(u, true, o))
  {
  }

  lemma {:induction false} StaysUntold(u: User, outcomes: seq<Outcome>)
    requires Untold(u)
    ensures Untold(Drive(u, outcomes))
    decreases |outcomes|
  {
    if outcomes != [] {
      StaysUntold(After(u, true, outcomes[0]), outcomes[1..]);
    }
  }

  lemma {:induction false} DriveTellsIff(u: User, outcomes: seq<Outcome>)
    requires u.kind.Lane? && Covered(u) && Reported(u)
    ensures var v := Drive(u, outcomes);
            if TidyRun(u, outcomes) then v.kind.Lane? && Covered(v) && Reported(v) else Untold(v)
    decreases |outcomes|
  {
    if outcomes != [] {
      if Tidy(u, outcomes[0]) {
        TidyReports(u, outcomes[0]);
        DriveTellsIff(After(u, true, outcomes[0]), outcomes[1..]);
      } else {
        UntidyIsUntold(u, outcomes[0]);
        StaysUntold(After(u, true, outcomes[0]), outcomes[1..]);
      }
    }
  }

  /** Whatever happens to a lane call, at its end it still owns its slot exactly when its cleanup reported an error, an
      unproved task among them, if and only if its cleanup was tidy. */
  lemma LaneKeepsSlotIffCleanupFailed(outcomes: seq<Outcome>)
    ensures var v := Drive(Fresh(Lane), outcomes);
            v.stage.Over? ==> (Told(v) <==> TidyRun(Fresh(Lane), outcomes))
  {
    FreshReports();
    DriveTellsIff(Fresh(Lane), outcomes);
    if Drive(Fresh(Lane), outcomes).stage.Over? {
      OverIsTold(Drive(Fresh(Lane), outcomes));
    }
  }

  lemma FreshReports()
    ensures var u := Fresh(Lane); u.kind.Lane? && Covered(u) && Reported(u)
  {
  }

  lemma OverIsTold(u: User)
    requires u.stage.Over?
    ensures u.kind.Lane? && Covered(u) && Reported(u) ==> Told(u)
    ensures Untold(u) ==> !Told(u)
  {
  }

  // ----- a session in isolation -----

  /** The session until it is over. */
  function Close(u: User, outcomes: seq<Outcome>): User
    decreases |outcomes|
  {
    if outcomes == [] || u.stage.Over? then u else Close(After(u, true, outcomes[0]), outcomes[1..])
  }

  /** What a session on the way to its end keeps; `had`: it owned its slot when the cleanup began. */
  predicate Closing(u: User, had: bool) {
    && u.kind.Session? && (u.slot <==> u.owned == 1) && (u.owned == 0 || u.owned == 1)
    && (u.stage == Waiting ==> had && u.owned == 0)
    && (u.stage in {Uploading, Applying, Clearing, Probing, Running} ==> had && u.owned == 1)
    && (u.stage in {Waiting, Uploading, Applying, Clearing, Probing, Running, Teardown} ==> !u.errors)
    && (u.stage in {Teardown, Purging, Unwinding} ==> (u.owned == 1 <==> had))
    && (u.stage != Over ==> !u.cut)
    && (u.stage == Over ==> (u.owned == 1 <==> had && (u.errors || u.cut)))
  }

  lemma ClosingGoesOn(u: User, had: bool, o: Outcome)
    requires Closing(u, had) && !u.stage.Over?
    ensures Closing(After(u, true, o), had)
  {
    if Early(u) {
      ClosingEarly(u, had, o);
      hide After, Closing;
    }
  }

  lemma ClosingEarly(u: User, had: bool, o: Outcome)
    requires Closing(u, had) && Early(u)
    ensures Closing(After(u, true, o), had)
  {
  }

  lemma {:induction false} ClosesTelling(u: User, had: bool, outcomes: seq<Outcome>)
    requires Closing(u, had)
    ensures Closing(Close(u, outcomes), had)
    decreases |outcomes|
  {
    if outcomes != [] && !u.stage.Over? {
      ClosingGoesOn(u, had, outcomes[0]);
      ClosesTelling(After(u, true, outcomes[0]), had, outcomes[1..]);
    }
  }

  /** Whatever happens to a session, at its end it owns its slot exactly when its cleanup reported an error or was cut
      short; so errors alone tell, if and only if the cleanup was not cut short before any error. */
  lemma SessionKeepsSlotIffCleanupFailed(outcomes: seq<Outcome>)
    ensures var v := Close(Fresh(Session), outcomes);
            v.stage.Over? ==>
              && (v.owned == 1 <==> v.errors || v.cut)
              && ((v.owned == 1 <==> v.errors) <==> !(v.cut && !v.errors))
  {
    ClosesTelling(Fresh(Session), true, outcomes);
  }

  /** Closed once more, it owns its slot exactly when it did before and this cleanup reported an error or was cut. */
  lemma SessionClosesAgain(u: User, outcomes: seq<Outcome>)
    requires u.kind.Session? && Covered(u) && u.stage.Over?
    ensures var v := Close(After(u, true, Good), outcomes);
            v.stage.Over? ==> (v.owned == 1 <==> u.owned == 1 && (v.errors || v.cut))
  {
    ClosesTelling(After(u, true, Good), u.owned == 1, outcomes);
  }

  // ----- all slots come back -----

  /** A user whose last cleanup ran to its end without errors. */
  predicate Tidied(u: User) { u.stage.Over? && !u.errors && !u.cut }

  lemma {:induction false} TidiedOwnNothing(users: seq<User>)
    requires forall u | u in users :: Covered(u) && Tidied(u)
    ensures Sum(users, Owned) == 0
  {
    if users != [] {
      assert users[0] in users && Covered(users[0]) && Tidied(users[0]);
      TidiedOwnNothing(users[1..]);
    }
  }

  /** When every lane call and session is over after a cleanup without errors, no slot is held. */
  lemma AllSlotsComeBack(kinds: seq<Kind>, steps: seq<(nat, Outcome)>)
    requires CalmRun(Start(kinds), steps) && forall u | u in Run(Start(kinds), steps).users :: Tidied(u)
    ensures Held(Run(Start(kinds), steps)) == 0
  {
    hide Tidied, Covered, Step;
    SumFresh(Start(kinds).users);
    StartIsCovered(kinds);
    RunInv(Start(kinds), steps);
    TidiedOwnNothing(Run(Start(kinds), steps).users);
  }

  lemma StartIsCovered(kinds: seq<Kind>)
    ensures forall u | u in Start(kinds).users :: Covered(u) && u.owned == 0
  {
  }

  /** The premise is needed: an interrupted delete releases the slot of a task that may still run. */
  lemma InterruptedCleanupUncovers()
    ensures exists steps :: var s := Run(Start([Lane]), steps); Unproved(s) > Held(s)
  {
    var s := Start([Lane]);
    var steps := [(0, Good), (0, Good), (0, Good), (0, Late), (0, Interrupt), (0, Good)];
    var running := User(Lane, Running, true, 1, true, false, false, true, false);
    var s1 := Step(s, 0, Good);
    var s2 := Step(s1, 0, Good);
    var s3 := Step(s2, 0, Good);
    assert s3 == State(1, false, [running]);
    var s4 := Step(s3, 0, Late);
    var s5 := Step(s4, 0, Interrupt);
    var s6 := Step(s5, 0, Good);
    assert s4 == State(1, false, [running.(stage := Teardown)]);
    assert s5 == State(1, false, [running.(stage := Unwinding, cut := true)]);
    assert s6 == State(2, false, [running.(stage := Over, owned := 0, cut := true)]);
    Unroll(s, steps);
    Unroll(s1, steps[1..]);
    Unroll(s2, steps[2..]);
    Unroll(s3, steps[3..]);
    Unroll(s4, steps[4..]);
    Unroll(s5, steps[5..]);
    assert Run(s, steps) == s6;
    assert Unproved(s6) == 1 + Sum(s6.users[1..], MayRun);
  }

  lemma Unroll(s: State, steps: seq<(nat, Outcome)>)
    requires steps != []
    ensures Run(s, steps) == Run(Step(s, steps[0].0, steps[0].1), steps[1..])
  {
  }
}
