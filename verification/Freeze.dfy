/** Freezing a pool: write-once artifacts in a fixed order, the record last. Runs may crash, be
    repeated and overlap between whole file creations; a run that crashes simply takes no further
    step, or leaves part of the file it was writing. */
module Freeze {
  import opened Optional

  /** What a file means once parsed; a file that does not parse means nothing. */
  type Meaning = string -> Option<string>

  type Files = seq<Option<string>>

  /** An existing file counts as this payload if both parse to the same value. */
  predicate Matches(m: Meaning, existing: string, payload: string) {
    m(existing).Some? && m(existing) == m(payload)
  }

  predicate Conflicts(m: Meaning, files: Files, outs: seq<string>) {
    exists i :: 0 <= i < |files| && i < |outs| && files[i].Some? && !Matches(m, files[i].value, outs[i])
  }

  /** The missing artifacts among the first n are created, the others left alone. */
  function Filled(files: Files, outs: seq<string>, n: nat): Files
    requires |files| == |outs|
  {
    seq(|files|, i requires 0 <= i < |files| => if i < n && files[i].None? then Some(outs[i]) else files[i])
  }

  /** One undisturbed run: everything existing is checked before anything is written. */
  method Run(m: Meaning, files: Files, outs: seq<string>) returns (ok: bool, after: Files)
    requires |files| == |outs|
    ensures ok <==> !Conflicts(m, files, outs)
    ensures after == if ok then Filled(files, outs, |outs|) else files
  {
    after := files;
    for i := 0 to |outs|
      invariant forall k | 0 <= k < i && files[k].Some? :: Matches(m, files[k].value, outs[k])
    {
      if files[i].Some? && !Matches(m, files[i].value, outs[i]) {
        return false, after;
      }
    }
    for i := 0 to |outs|
      invariant |after| == |files| && after == Filled(files, outs, i)
    {
      if after[i].None? {
        after := after[i := Some(outs[i])];
      } else if !Matches(m, after[i].value, outs[i]) {
        return false, after;
      }
    }
    return true, after;
  }

  // ----- overlapping, crashing and repeated runs -----

  datatype Phase = Checking(k: nat) | Creating(k: nat) | Finished | Refused | Crashed

  datatype Runner = Runner(outs: seq<string>, phase: Phase)

  datatype State = State(files: Files, runners: seq<Runner>)

  datatype Action =
    | Next(r: nat)            // the runner's next check or exclusive creation
    | Tear(r: nat, n: nat)    // it dies while writing, leaving the first n characters

  function At(s: State, r: nat, p: Phase): State
    requires r < |s.runners|
  {
    s.(runners := s.runners[r := s.runners[r].(phase := p)])
  }

  function Step(m: Meaning, s: State, a: Action): State {
    if a.r >= |s.runners| || |s.runners[a.r].outs| != |s.files| then s
    else
      var r := s.runners[a.r];
      match r.phase
      case Checking(k) =>
        if a.Tear? then s
        else if k >= |s.files| then At(s, a.r, Creating(0))
        else if s.files[k].Some? && !Matches(m, s.files[k].value, r.outs[k]) then At(s, a.r, Refused)
        else At(s, a.r, Checking(k + 1))
      case Creating(k) =>
        if k >= |s.files| then (if a.Tear? then s else At(s, a.r, Finished))
        else if s.files[k].None? then
          if a.Next? then At(s.(files := s.files[k := Some(r.outs[k])]), a.r, Creating(k + 1))
          else if a.n < |r.outs[k]| then At(s.(files := s.files[k := Some(r.outs[k][..a.n])]), a.r, Crashed)
          else s
        else if a.Tear? then s
        else if Matches(m, s.files[k].value, r.outs[k]) then At(s, a.r, Creating(k + 1))
        else At(s, a.r, Refused)
      case _ => s
  }

  function Steps(m: Meaning, s: State, actions: seq<Action>): State
    decreases |actions|
  {
    if actions == [] then s else Steps(m, Step(m, s, actions[0]), actions[1..])
  }

  ghost predicate Started(s: State) {
    forall r | r in s.runners :: r.phase == Checking(0) && |r.outs| == |s.files|
  }

  /** Files present before stay exactly as they were. */
  ghost predicate Kept(before: Files, after: Files) {
    |before| == |after| && forall k | 0 <= k < |before| && before[k].Some? :: after[k] == before[k]
  }

  /** A runner has seen or made all artifacts below this. */
  function Reached(p: Phase, n: nat): nat {
    if p.Creating? then p.k else if p.Finished? then n else 0
  }

  predicate Holds(m: Meaning, files: Files, outs: seq<string>, n: nat) {
    n <= |files| && n <= |outs| && forall k | 0 <= k < n :: files[k].Some? && Matches(m, files[k].value, outs[k])
  }

  predicate Parses(m: Meaning, outs: seq<string>) {
    forall k | 0 <= k < |outs| :: m(outs[k]).Some?
  }

  ghost predicate Inv(m: Meaning, s: State) {
    && (forall i | 0 <= i < |s.runners| :: Parses(m, s.runners[i].outs))
    && (forall i | 0 <= i < |s.runners| && Reached(s.runners[i].phase, |s.files|) > 0 ::
          Holds(m, s.files, s.runners[i].outs, Reached(s.runners[i].phase, |s.files|)))
  }

  lemma StepKept(m: Meaning, s: State, a: Action)
    ensures Kept(s.files, Step(m, s, a).files) && |Step(m, s, a).runners| == |s.runners|
    ensures forall i | 0 <= i < |s.runners| :: Step(m, s, a).runners[i].outs == s.runners[i].outs
  {
  }

  lemma StepInv(m: Meaning, s: State, a: Action)
    requires Inv(m, s)
    ensures Inv(m, Step(m, s, a))
  {
    var s' := Step(m, s, a);
    StepKept(m, s, a);
    forall i | 0 <= i < |s.runners| && Reached(s'.runners[i].phase, |s'.files|) > 0
      ensures Holds(m, s'.files, s'.runners[i].outs, Reached(s'.runners[i].phase, |s'.files|))
    {
      if i != a.r {
        assert Holds(m, s.files, s.runners[i].outs, Reached(s.runners[i].phase, |s.files|));
      } else if Reached(s.runners[i].phase, |s.files|) > 0 {
        assert Holds(m, s.files, s.runners[i].outs, Reached(s.runners[i].phase, |s.files|));
      }
    }
  }

  lemma {:induction false} StepsInv(m: Meaning, s: State, actions: seq<Action>)
    requires Inv(m, s)
    ensures Inv(m, Steps(m, s, actions)) && Kept(s.files, Steps(m, s, actions).files)
    ensures |Steps(m, s, actions).runners| == |s.runners|
    ensures forall i | 0 <= i < |s.runners| :: Steps(m, s, actions).runners[i].outs == s.runners[i].outs
    decreases |actions|
  {
    if actions != [] {
      StepInv(m, s, actions[0]);
      StepKept(m, s, actions[0]);
      StepsInv(m, Step(m, s, actions[0]), actions[1..]);
    }
  }

  /** However runs overlap, crash and tear: no existing artifact is ever altered, and whoever finishes
      leaves every artifact present and matching its own outputs. */
  lemma FinishedMeansFrozen(m: Meaning, s: State, actions: seq<Action>, i: nat)
    requires Started(s) && i < |s.runners| && forall r | r in s.runners :: Parses(m, r.outs)
    ensures var after := Steps(m, s, actions);
            && Kept(s.files, after.files) && |after.runners| == |s.runners|
            && (after.runners[i].phase.Finished? ==> Holds(m, after.files, s.runners[i].outs, |s.files|))
  {
    assert Inv(m, s);
    StepsInv(m, s, actions);
  }

  // ----- convergence of runs on one input -----

  predicate NoTear(actions: seq<Action>) { forall a | a in actions :: a.Next? }

  /** Every artifact is the original or, where there was none, the payload; nobody was refused. */
  ghost predicate Converging(m: Meaning, files: Files, outs: seq<string>, s: State) {
    && |s.files| == |files| == |outs|
    && (forall k | 0 <= k < |files| :: s.files[k] == files[k] || (files[k].None? && s.files[k] == Some(outs[k])))
    && (forall r | r in s.runners :: r.outs == outs && !r.phase.Refused?)
  }

  lemma StepConverges(m: Meaning, files: Files, outs: seq<string>, s: State, a: Action)
    requires Parses(m, outs) && !Conflicts(m, files, outs) && Converging(m, files, outs, s) && a.Next?
    ensures Converging(m, files, outs, Step(m, s, a))
  {
    if a.r < |s.runners| {
      var r := s.runners[a.r];
      assert r in s.runners;
      var s' := Step(m, s, a);
      forall x | x in s'.runners ensures x.outs == outs && !x.phase.Refused? {
        var j :| 0 <= j < |s'.runners| && s'.runners[j] == x;
        if j != a.r { assert s'.runners[j] == s.runners[j] && s.runners[j] in s.runners; }
      }
    }
  }

  lemma {:induction false} StepsConverge(m: Meaning, files: Files, outs: seq<string>, s: State, actions: seq<Action>)
    requires Parses(m, outs) && !Conflicts(m, files, outs) && Converging(m, files, outs, s) && NoTear(actions)
    ensures Converging(m, files, outs, Steps(m, s, actions))
    decreases |actions|
  {
    if actions != [] {
      assert actions[0] in actions;
      StepConverges(m, files, outs, s, actions[0]);
      StepsConverge(m, files, outs, Step(m, s, actions[0]), actions[1..]);
    }
  }

  /** With atomic file creation, any crashed, repeated and overlapping runs on one input are never
      refused, and once one of them finishes the directory is that of a single undisturbed run. */
  lemma RunsConverge(m: Meaning, s: State, outs: seq<string>, actions: seq<Action>)
    requires Started(s) && (forall r | r in s.runners :: r.outs == outs) && |outs| == |s.files|
    requires Parses(m, outs) && !Conflicts(m, s.files, outs) && NoTear(actions)
    ensures var after := Steps(m, s, actions);
            && (forall r | r in after.runners :: !r.phase.Refused?)
            && ((exists r :: r in after.runners && r.phase.Finished?) ==> after.files == Filled(s.files, outs, |outs|))
  {
    var after := Steps(m, s, actions);
    assert Converging(m, s.files, outs, s);
    StepsConverge(m, s.files, outs, s, actions);
    if r :| r in after.runners && r.phase.Finished? {
      var i :| 0 <= i < |after.runners| && after.runners[i] == r;
      assert Inv(m, s);
      StepsInv(m, s, actions);
      if |outs| > 0 { assert Holds(m, after.files, outs, |outs|); }
      forall k | 0 <= k < |outs| ensures after.files[k] == Filled(s.files, outs, |outs|)[k] {
        assert after.files[k].Some?;
      }
    }
  }

  // ----- the record is last -----

  /** An artifact made by these runs was made after all earlier ones, by a run they all match. */
  ghost predicate Ordered(m: Meaning, files: Files, s: State) {
    && |files| == |s.files|
    && forall k | 0 <= k < |files| && files[k].None? && s.files[k].Some? ::
         exists i :: 0 <= i < |s.runners| && Holds(m, s.files, s.runners[i].outs, k + 1)
  }

  lemma StepOrdered(m: Meaning, files: Files, s: State, a: Action)
    requires Inv(m, s) && Ordered(m, files, s) && a.Next?
    ensures Ordered(m, files, Step(m, s, a))
  {
    var s' := Step(m, s, a);
    StepKept(m, s, a);
    StepInv(m, s, a);
    forall k | 0 <= k < |files| && files[k].None? && s'.files[k].Some?
      ensures exists i :: 0 <= i < |s'.runners| && Holds(m, s'.files, s'.runners[i].outs, k + 1)
    {
      if s.files[k].Some? {
        var i :| 0 <= i < |s.runners| && Holds(m, s.files, s.runners[i].outs, k + 1);
        assert Holds(m, s'.files, s'.runners[i].outs, k + 1);
      } else {
        assert Reached(s'.runners[a.r].phase, |s'.files|) == k + 1;
      }
    }
  }

  lemma {:induction false} StepsOrdered(m: Meaning, files: Files, s: State, actions: seq<Action>)
    requires Inv(m, s) && Ordered(m, files, s) && NoTear(actions)
    ensures Ordered(m, files, Steps(m, s, actions))
    decreases |actions|
  {
    if actions != [] {
      assert actions[0] in actions;
      StepOrdered(m, files, s, actions[0]);
      StepInv(m, s, actions[0]);
      StepsOrdered(m, files, Step(m, s, actions[0]), actions[1..]);
    }
  }

  /** Without torn writes, the record exists only when every earlier artifact exists and all match the
      outputs of one run. */
  lemma RecordIsLast(m: Meaning, s: State, actions: seq<Action>, record: nat)
    requires Started(s) && (forall r | r in s.runners :: Parses(m, r.outs)) && NoTear(actions)
    requires record < |s.files| && s.files[record].None?
    ensures var after := Steps(m, s, actions);
            && record < |after.files|
            && (after.files[record].Some? ==>
                  exists i :: 0 <= i < |s.runners| && Holds(m, after.files, s.runners[i].outs, record + 1))
  {
    assert Inv(m, s) && Ordered(m, s.files, s);
    StepsInv(m, s, actions);
    StepsOrdered(m, s.files, s, actions);
    var after := Steps(m, s, actions);
    if after.files[record].Some? {
      var i :| 0 <= i < |after.runners| && Holds(m, after.files, after.runners[i].outs, record + 1);
      assert after.runners[i].outs == s.runners[i].outs;
    }
  }

  // ----- a torn write -----

  /** A conflict is permanent: no run on that input ever finishes. */
  lemma ConflictIsForever(m: Meaning, s: State, actions: seq<Action>, i: nat)
    requires Started(s) && i < |s.runners| && (forall r | r in s.runners :: Parses(m, r.outs))
    requires Conflicts(m, s.files, s.runners[i].outs)
    ensures i < |Steps(m, s, actions).runners| && !Steps(m, s, actions).runners[i].phase.Finished?
  {
    FinishedMeansFrozen(m, s, actions, i);
    var k :| 0 <= k < |s.files| && k < |s.runners[i].outs| && s.files[k].Some?
             && !Matches(m, s.files[k].value, s.runners[i].outs[k]);
    assert Steps(m, s, actions).files[k] == s.files[k];
  }

  function Fresh(outs: seq<string>): Runner { Runner(outs, Checking(0)) }

  /** What a run leaves that dies after n characters of artifact k. */
  function Torn(files: Files, outs: seq<string>, k: nat, n: nat): Files
    requires |files| == |outs| && k < |files| && n <= |outs[k]|
  {
    Filled(files, outs, k)[k := Some(outs[k][..n])]
  }

  function Nexts(n: nat): seq<Action> { seq(n, i => Next(0)) }

  lemma {:induction false} StepsAppend(m: Meaning, s: State, a: seq<Action>, b: seq<Action>)
    ensures Steps(m, s, a + b) == Steps(m, Steps(m, s, a), b)
    decreases |a|
  {
    if a == [] {
      assert a + b == b;
    } else {
      assert (a + b)[0] == a[0] && (a + b)[1..] == a[1..] + b;
      StepsAppend(m, Step(m, s, a[0]), a[1..], b);
    }
  }

  lemma OneMore(m: Meaning, s: State, n: nat)
    ensures Steps(m, s, Nexts(n + 1)) == Step(m, Steps(m, s, Nexts(n)), Next(0))
  {
    assert Nexts(n + 1) == Nexts(n) + [Next(0)];
    StepsAppend(m, s, Nexts(n), [Next(0)]);
    var t := Steps(m, s, Nexts(n));
    assert Steps(m, t, [Next(0)]) == Steps(m, Step(m, t, Next(0)), [Next(0)][1..]);
  }

  /** Undisturbed, a run gets past every artifact that is missing or matches. */
  lemma {:induction false} ChecksThrough(m: Meaning, files: Files, outs: seq<string>, n: nat)
    requires |files| == |outs| && n <= |files|
    requires forall i | 0 <= i < n :: files[i].None? || Matches(m, files[i].value, outs[i])
    ensures Steps(m, State(files, [Fresh(outs)]), Nexts(n)) == State(files, [Runner(outs, Checking(n))])
  {
    if n != 0 {
      ChecksThrough(m, files, outs, n - 1);
      OneMore(m, State(files, [Fresh(outs)]), n - 1);
    }
  }

  lemma {:induction false} CreatesThrough(m: Meaning, files: Files, outs: seq<string>, n: nat)
    requires |files| == |outs| && n <= |files| && !Conflicts(m, files, outs)
    ensures Steps(m, State(files, [Runner(outs, Creating(0))]), Nexts(n)) ==
            State(Filled(files, outs, n), [Runner(outs, Creating(n))])
  {
    if n == 0 {
      assert Filled(files, outs, 0) == files;
    } else {
      CreatesThrough(m, files, outs, n - 1);
      OneMore(m, State(files, [Runner(outs, Creating(0))]), n - 1);
      var before := Filled(files, outs, n - 1);
      assert before[n - 1] == files[n - 1];
      assert Filled(files, outs, n) == if files[n - 1].None? then before[n - 1 := Some(outs[n - 1])] else before;
    }
  }

  /** A run can die in this way. */
  lemma TearReached(m: Meaning, files: Files, outs: seq<string>, k: nat, n: nat) returns (actions: seq<Action>)
    requires |files| == |outs| && k < |files| && n < |outs[k]| && files[k].None? && !Conflicts(m, files, outs)
    ensures Steps(m, State(files, [Fresh(outs)]), actions) == State(Torn(files, outs, k, n), [Runner(outs, Crashed)])
  {
    var s0 := State(files, [Fresh(outs)]);
    ChecksThrough(m, files, outs, |files|);
    OneMore(m, s0, |files|);
    var s1 := State(files, [Runner(outs, Creating(0))]);
    assert Steps(m, s0, Nexts(|files| + 1)) == s1;
    CreatesThrough(m, files, outs, k);
    var s2 := State(Filled(files, outs, k), [Runner(outs, Creating(k))]);
    StepsAppend(m, s0, Nexts(|files| + 1), Nexts(k));
    actions := Nexts(|files| + 1) + Nexts(k) + [Tear(0, n)];
    StepsAppend(m, s0, Nexts(|files| + 1) + Nexts(k), [Tear(0, n)]);
    assert Steps(m, s2, [Tear(0, n)]) == Steps(m, Step(m, s2, Tear(0, n)), [Tear(0, n)][1..]);
  }

  ghost predicate RefusedBy(m: Meaning, s: State, actions: seq<Action>) {
    NoTear(actions) && |Steps(m, s, actions).runners| > 0 && Steps(m, s, actions).runners[0].phase.Refused?
  }

  lemma TornConflictsIff(m: Meaning, files: Files, outs: seq<string>, k: nat, n: nat)
    requires |files| == |outs| && k < |files| && n <= |outs[k]| && !Conflicts(m, files, outs) && Parses(m, outs)
    ensures Conflicts(m, Torn(files, outs, k, n), outs) <==> !Matches(m, outs[k][..n], outs[k])
    ensures forall i | 0 <= i < k ::
              Torn(files, outs, k, n)[i].Some? && Matches(m, Torn(files, outs, k, n)[i].value, outs[i])
  {
    var torn := Torn(files, outs, k, n);
    forall i | 0 <= i < |files| && i != k ensures torn[i].Some? ==> Matches(m, torn[i].value, outs[i]) {
      assert files[i].Some? ==> Matches(m, files[i].value, outs[i]);
    }
    assert torn[k] == Some(outs[k][..n]);
  }

  /** A run that dies while writing an artifact lets later runs on the same input be refused if and only if what it
      wrote
      does not parse to the payload's value; and then none of them ever finishes. */
  lemma TornBlocksIff(m: Meaning, files: Files, outs: seq<string>, k: nat, n: nat)
    requires |files| == |outs| && k < |files| && n < |outs[k]| && files[k].None?
    requires !Conflicts(m, files, outs) && Parses(m, outs)
    ensures exists died :: Steps(m, State(files, [Fresh(outs)]), died).files == Torn(files, outs, k, n)
    ensures var s := State(Torn(files, outs, k, n), [Fresh(outs)]);
            && ((exists later :: RefusedBy(m, s, later)) <==> !Matches(m, outs[k][..n], outs[k]))
            && (!Matches(m, outs[k][..n], outs[k]) ==>
                  forall later :: |Steps(m, s, later).runners| == 1 && !Steps(m, s, later).runners[0].phase.Finished?)
  {
    var died := TearReached(m, files, outs, k, n);
    TornConflictsIff(m, files, outs, k, n);
    var torn := Torn(files, outs, k, n);
    var s := State(torn, [Fresh(outs)]);
    if Matches(m, outs[k][..n], outs[k]) {
      forall later ensures !RefusedBy(m, s, later) {
        NeverRefused(m, s, outs, later);
      }
    } else {
      ChecksThrough(m, torn, outs, k);
      OneMore(m, s, k);
      assert RefusedBy(m, s, Nexts(k + 1));
      forall later ensures |Steps(m, s, later).runners| == 1 && !Steps(m, s, later).runners[0].phase.Finished? {
        FinishedMeansFrozen(m, s, later, 0);
        ConflictIsForever(m, s, later, 0);
      }
    }
  }

  lemma NeverRefused(m: Meaning, s: State, outs: seq<string>, later: seq<Action>)
    requires s == State(s.files, [Fresh(outs)]) && |outs| == |s.files|
    requires Parses(m, outs) && !Conflicts(m, s.files, outs)
    ensures !RefusedBy(m, s, later)
  {
    if NoTear(later) {
      RunsConverge(m, s, outs, later);
    }
  }
}
