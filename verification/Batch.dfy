/** The scheduling loop of one dispatch over its durable directory. Which futures finish, their
    statuses, executor errors, the STOP file and crashes are nondeterministic. */
module Batch {
  import opened Optional
  import opened History
  import opened BatchState

  datatype Outcome = Refused | Crashed | Aborted | Finished(failures: bool)

  datatype Progress = Progress(inFlight: nat, pinsDone: nat, fallbacks: nat)

  /** What a dispatch plans for: everything without a complete checkpoint of this input. */
  function Planned(saved: Saved, items: seq<Item>): seq<Item> {
    if items == [] then []
    else Planned(saved, items[..|items| - 1])
         + (if Final(saved, items[|items| - 1]) then [] else [items[|items| - 1]])
  }

  /** Among those, what waits for docker and what starts afresh. */
  predicate Split(saved: Saved, items: seq<Item>, pending: seq<Item>, fallbacks: seq<Queued>) {
    && multiset(pending) + multiset(QueuedItems(fallbacks)) == multiset(Planned(saved, items))
    && (forall x | x in pending :: !Final(saved, x) && !Awaits(saved, x))
    && (forall q | q in fallbacks :: Awaits(saved, q.item) && saved[q.item.id] == q.record)
  }

  lemma SplitStep(saved: Saved, items: seq<Item>, i: nat, pending: seq<Item>, fallbacks: seq<Queued>)
    requires i < |items| && Split(saved, items[..i], pending, fallbacks)
    ensures Final(saved, items[i]) ==> Split(saved, items[..i + 1], pending, fallbacks)
    ensures Awaits(saved, items[i]) ==>
              Split(saved, items[..i + 1], pending, fallbacks + [Queued(items[i], saved[items[i].id])])
    ensures !Final(saved, items[i]) && !Awaits(saved, items[i]) ==>
              Split(saved, items[..i + 1], pending + [items[i]], fallbacks)
  {
    assert items[..i + 1][..i] == items[..i];
    if Awaits(saved, items[i]) {
      assert QueuedItems(fallbacks + [Queued(items[i], saved[items[i].id])]) == QueuedItems(fallbacks) + [items[i]];
    }
  }

  predicate DistinctIds(items: seq<Item>) {
    forall i, j | 0 <= i < j < |items| :: items[i].id != items[j].id
  }

  lemma {:induction false} PlannedFrom(saved: Saved, items: seq<Item>)
    ensures forall x | x in Planned(saved, items) :: x in items && !Final(saved, x)
    ensures forall x | x in items && !Final(saved, x) :: x in Planned(saved, items)
  {
    if items != [] {
      PlannedFrom(saved, items[..|items| - 1]);
      assert items == items[..|items| - 1] + [items[|items| - 1]];
    }
  }

  lemma AddUnique(m: multiset<Item>, y: Item)
    requires Unique(m) && forall x | x in m :: x.id != y.id
    ensures Unique(m + multiset{y})
  {
    assert y !in m;
  }

  lemma {:induction false} PlannedUnique(saved: Saved, items: seq<Item>)
    requires DistinctIds(items)
    ensures Unique(multiset(Planned(saved, items)))
  {
    if items != [] {
      var front, last := items[..|items| - 1], items[|items| - 1];
      PlannedUnique(saved, front);
      PlannedFrom(saved, front);
      forall x | x in Planned(saved, front) ensures x.id != last.id {
        var k :| 0 <= k < |front| && front[k] == x;
        assert items[k] == x;
      }
      if !Final(saved, last) { AddUnique(multiset(Planned(saved, front)), last); }
    }
  }

  /** The start of a dispatch is valid, and it plans for exactly the items left to do. */
  lemma PlanValid(saved: Saved, items: seq<Item>, v: View)
    requires v == Begun(saved, v.lanes, v.overflow, v.attempts, v.pending, v.fallbacks)
    requires 1 <= v.attempts <= 2 && DistinctIds(items) && Split(saved, items, v.pending, v.fallbacks)
    ensures Valid(v) && v.active == [] && v.settling == [] && v.dropped == []
    ensures v.all == multiset(Planned(saved, items)) && v.start == saved && v.events == []
    ensures forall q | q in v.fallbacks :: Awaits(saved, q.item)
  {
    PlannedUnique(saved, items);
    BeginValid(saved, v.lanes, v.overflow, v.attempts, v.pending, v.fallbacks);
  }

  lemma NothingDone(saved: Saved, items: seq<Item>)
    ensures Legal(saved, []) && Replay(saved, []) == saved && forall id :: Calls([], id) == 0 && Saves([], id) == 0
    ensures forall lanes, attempts :: Truthful(lanes, attempts, saved, [])
  {
  }

  lemma AccountedFor(saved: Saved, items: seq<Item>, v: View, w: View)
    requires v.all == multiset(Planned(saved, items)) && v.start == saved && Accounted(v, w)
    ensures Truthful(v.lanes, v.attempts, saved, w.events)
    ensures Legal(saved, w.events) && w.saved == Replay(saved, w.events)
    ensures forall e | e in w.events :: e.item in multiset(Planned(saved, items))
    ensures forall x | x in multiset(Planned(saved, items)) :: Calls(w.events, x.id) <= 2 * v.attempts
  {
  }

  /** Every item completes at most twice: once on its own lane, once on docker. */
  lemma CompletesAtMostTwice(saved: Saved, items: seq<Item>, events: seq<Event>)
    requires DistinctIds(items) && Legal(saved, events)
    requires forall e | e in events :: e.item in multiset(Planned(saved, items))
    ensures forall x | x in multiset(Planned(saved, items)) :: Saves(events, x.id) <= 2
  {
    hide Planned, Legal, Saves;
    PlannedUnique(saved, items);
    forall x | x in multiset(Planned(saved, items)) ensures Saves(events, x.id) <= 2 {
      SavesAtMostTwice(saved, events, x);
    }
  }

  lemma Concluded(saved: Saved, items: seq<Item>, v: View, w: View)
    requires v.all == multiset(Planned(saved, items)) && Later(v, w) && w.active == []
    requires forall q | q in v.fallbacks :: Awaits(saved, q.item)
    ensures multiset(w.pending) + multiset(QueuedItems(w.fallbacks)) + multiset(w.done) ==
            multiset(Planned(saved, items))
    ensures forall x | x in w.done :: Final(w.saved, x)
    ensures forall x | x in multiset(Planned(saved, items)) :: Open(w.events, x.id) == []
    ensures w.failures <==> exists x :: x in w.done && Final(w.saved, x) && w.saved[x.id].status !in {Ok, Quiet}
    ensures Docker !in v.lanes ==> forall q | q in w.fallbacks :: Awaits(saved, q.item)
    ensures w.lanes == v.lanes && w.overflow == v.overflow && w.settling == []
  {
    hide Planned, Final, Awaits, Open, Valid, Calls;
    LaterIs(v, w);
    Ended(w);
  }

  /** The state of one dispatch. */
  class Dispatcher {
    const lanes: seq<Lane>
    const overflow: bool
    const attempts: nat
    // the output directory
    var saved: Saved
    var stop: bool
    var progress: Progress
    // the scheduling loop
    var pending: seq<Item>
    var fallbacks: seq<Queued>
    var active: seq<Job>
    var settling: seq<Job>
    var done: seq<Item>
    var dropped: seq<Item>
    var failures: bool
    ghost const start: Saved
    ghost const all: multiset<Item>
    ghost var events: seq<Event>

    constructor (saved: Saved, stop: bool, lanes: seq<Lane>, overflow: bool, attempts: nat,
                 pending: seq<Item>, fallbacks: seq<Queued>)
      ensures V() == Begun(saved, lanes, overflow, attempts, pending, fallbacks) && this.stop == stop
    {
      this.lanes, this.overflow, this.attempts := lanes, overflow, attempts;
      this.saved, this.stop, this.progress := saved, stop, Progress(0, 0, 0);
      this.pending, this.fallbacks := pending, fallbacks;
      this.active, this.settling, this.done, this.dropped, this.failures := [], [], [], [], false;
      this.start, this.events := saved, [];
      this.all := multiset(pending) + multiset(QueuedItems(fallbacks));
    }

    ghost function V(): View
      reads this
    {
      View(saved, lanes, overflow, attempts, pending, fallbacks, active, settling, done, dropped, failures, start,
          events, all)
    }

    /** What the progress file says accounts for every planned item and for the lanes in use. */
    ghost predicate Reports()
      reads this
    {
      Accounts(V(), progress.inFlight, progress.pinsDone, progress.fallbacks)
    }

    /** The progress file is written only when every item is accounted for. */
    method Persist()
      requires Valid(V()) && settling == []
      modifies this`progress
      ensures progress == Progress(|active|, |done|, |fallbacks|)
      ensures Reports()
    {
      CountsAccount(V());
      progress := Progress(|active|, |done|, |fallbacks|);
    }

    /** Somebody may create the STOP file at any time; nothing launches once it exists. */
    method Launch(lane: Lane)
      modifies this`stop, this`pending, this`fallbacks, this`active
      ensures old(stop) ==> stop
      ensures V() == if stop then old(V()) else Launched(old(V()), lane)
      ensures !stop && lane == Docker && old(fallbacks) != [] ==>
                && fallbacks == old(fallbacks)[1..] && pending == old(pending)
                && active == old(active) +
                   [Job(old(fallbacks)[0].item, Docker, Some(old(fallbacks)[0].record), [], false)]
      ensures !stop && (lane != Docker || old(fallbacks) == []) ==>
                && fallbacks == old(fallbacks)
                && (if old(pending) != [] && (lane != Docker || overflow)
                    then pending == old(pending)[1..] &&
                         active == old(active) + [Job(old(pending)[0], lane, None, [], false)]
                    else pending == old(pending) && active == old(active))
    {
      if * {
        stop := true;
      }
      if stop {
        return;
      }
      if lane == Docker && fallbacks != [] {
        active := active + [Job(fallbacks[0].item, lane, Some(fallbacks[0].record), [], false)];
        fallbacks := fallbacks[1..];
      } else if pending != [] && (lane != Docker || overflow) {
        active := active + [Job(pending[0], lane, None, [], false)];
        pending := pending[1..];
      }
    }

    /** Every idle lane is offered work, in any order. */
    method FillIdle()
      requires Valid(V()) && settling == []
      modifies this`stop, this`pending, this`fallbacks, this`active
      ensures old(stop) ==> stop && V() == old(V())
      ensures Filled(old(V()), V()) && (stop || Saturated(V()))
    {
      hide Valid, Filled, Launched, Filling, Eligible, Saturated;
      var idle := multiset(lanes) - multiset(JobLanes(active));
      ghost var v0 := V();
      ghost var v := v0;
      ghost var refused: multiset<Lane> := multiset{};
      FillBegins(v0);
      while idle != multiset{}
        invariant V() == v && Filled(v0, v)
        invariant old(stop) ==> stop && v == v0
        invariant !stop ==> Filling(v0, v, idle, refused, false)
        decreases |idle|
      {
        var lane :| lane in idle;
        Launch(lane);
        if !stop {
          FillContinues(v0, v, idle, refused, lane);
          refused := if Eligible(v, lane) then refused else refused + multiset{lane};
        }
        idle := idle - multiset{lane};
        v := V();
        if !stop { FillingIs(v0, v, idle, refused); }
      }
      if !stop { FillEnds(v0, v, refused); }
    }

    /** A thread advances one job by any number of executor calls, or all it has to make. */
    method Advance(i: nat, complete: bool) returns (crashed: bool)
      requires Valid(V()) && i < |active|
      modifies this`active, this`events
      ensures Worked(old(V()), V())
      ensures !crashed && complete ==> Finishes(active[i], attempts)
      ensures forall k | 0 <= k < |active| && k != i :: active[k] == old(active[k])
    {
      hide Valid, Weight, Finishes;
      var go := true;
      ghost var v0 := V();
      while go && !Finishes(active[i], attempts)
        invariant i < |active| && Worked(v0, V())
        invariant forall k | 0 <= k < |active| && k != i :: active[k] == old(active[k])
        invariant complete ==> go
        decreases attempts - Made(active[i]), go
      {
        if * {
          return true;
        }
        var j := active[i];
        var raises: bool := *;
        var status: Status := *;
        var next := if raises then j.(raised := true)
                    else Job(j.item, j.lane, j.previous, j.tries + [status], false);
        CallCounts(j, next, attempts);
        WorkStep(v0, V(), i, next);
        active := active[i := next];
        events := events + [Call(next.item, next.lane, Returned(next))];
        if !complete {
          go := *;
        }
      }
      return false;
    }

    /** While the main thread waits, every active job advances; at least one finishes. */
    method Wait() returns (crashed: bool)
      requires Valid(V()) && active != []
      modifies this`active, this`events
      ensures Worked(old(V()), V())
      ensures !crashed ==> exists i :: 0 <= i < |active| && Finishes(active[i], attempts)
    {
      hide Valid, Weight, Finishes;
      ghost var v0 := V();
      WorkedSelf(v0);
      var pick: int := *;
      var first := if 0 <= pick < |active| then pick else 0;
      crashed := Advance(first, true);
      if crashed {
        return;
      }
      for i := 0 to |active|
        invariant |active| == |v0.active| && Worked(v0, V())
        invariant first < |active| && Finishes(active[first], attempts)
      {
        if i != first {
          crashed := Advance(i, false);
          if crashed {
            return;
          }
        }
      }
    }

    /** Results are popped; the first one that raises ends the round. */
    method Collect() returns (raised: bool)
      requires Valid(V()) && settling == []
      requires exists i :: 0 <= i < |active| && Finishes(active[i], attempts)
      modifies this`active, this`settling
      ensures Collected(old(V()), V()) && settling != []
      ensures !raised ==> forall j | j in settling :: j.tries != [] && !j.raised
    {
      hide Valid, Weight, Finishes;
      ghost var v0 := V();
      CollectedSelf(v0);
      raised := false;
      var i := 0;
      while i < |active|
        invariant 0 <= i <= |active| && Collected(v0, V())
        invariant settling != [] || exists k :: i <= k < |active| && Finishes(active[k], attempts)
        invariant forall j | j in settling :: j.tries != [] && !j.raised
        decreases |active| - i
      {
        var take: bool := *;
        if Finishes(active[i], attempts) && (settling == [] || take) {
          CollectStep(v0, V(), i);
          FinishedTried(V(), i);
          raised := active[i].raised;
          settling := settling + [active[i]];
          active := active[..i] + active[i + 1..];
          if raised {
            return;
          }
        } else {
          i := i + 1;
        }
      }
    }

    /** The callback for one finished item: its checkpoint, then its next place. */
    method Complete()
      requires settling != [] && settling[0].tries != [] && !settling[0].raised
      modifies this`saved, this`settling, this`fallbacks, this`done, this`failures, this`events
      ensures V() == Completed(old(V()))
    {
      var j := settling[0];
      var r := RecordOf(lanes, j);
      saved := saved[j.item.id := r];
      events := events + [Save(j.item, j.lane, r)];
      settling := settling[1..];
      if r.fallbackPending {
        fallbacks := fallbacks + [Queued(j.item, r)];
      } else {
        done := done + [j.item];
        failures := failures || !Success(r.status);
      }
    }

    /** The popped results are written one after another. */
    method Record() returns (crashed: bool)
      requires Valid(V()) && forall j | j in settling :: j.tries != [] && !j.raised
      modifies this`saved, this`settling, this`fallbacks, this`done, this`failures, this`events
      ensures Recording(old(V()), V())
      ensures !crashed ==> settling == []
    {
      hide Valid, Weight, Completed, Recording;
      ghost var v0 := V();
      RecordingSelf(v0);
      while settling != []
        invariant Recording(v0, V()) && forall j | j in settling :: j.tries != [] && !j.raised
        decreases |settling|
      {
        if * {
          return true;
        }
        RecordStep(v0, V());
        SettlingShrinks(V());
        Complete();
      }
      return false;
    }

    /** An executor raised: the popped results are gone, no more is launched, the pool runs dry. */
    method Abort()
      requires Valid(V())
      modifies this`dropped, this`settling, this`progress, this`active, this`events
      ensures Valid(V())
    {
      hide Valid, Accounts, Weight;
      LostValid(V());
      settling, dropped := [], dropped + JobItems(settling);
      Persist();
      ghost var v0 := V();
      WorkedSelf(v0);
      for i := 0 to |active|
        invariant |active| == |v0.active| && Worked(v0, V())
      {
        var crashed := Advance(i, true);
        if crashed {
          return;
        }
      }
    }

    /** One round: wait, pop, write, refill. It halts by a crash or an executor error. */
    method Round(ghost v0: View) returns (halt: bool, o: Outcome)
      requires Later(v0, V()) && Valid(V()) && active != [] && settling == []
      requires v0.start == start && v0.all == all && v0.attempts == attempts && v0.lanes == lanes
      modifies this
      ensures old(stop) ==> stop
      ensures halt ==> (o.Crashed? || o.Aborted?) && Accounted(v0, V())
      ensures !halt ==> Later(v0, V()) && Valid(V()) && settling == [] && Weight(V()) < old(Weight(V()))
      ensures !halt ==> (stop || Saturated(V())) && progress == Progress(|active|, |done|, |fallbacks|) && Reports()
    {
      hide Valid, Weight, Later, Filled, Worked, Collected, Recording, Saturated, Accounted, Accounts, Finishes;
      ghost var w := V();
      halt := Wait();
      ghost var worked := V();
      WorkedIs(w, worked);
      if halt {
        ValidAccounted(v0, worked);
        return true, Crashed;
      }
      var raised := Collect();
      ghost var collected := V();
      CollectedIs(worked, collected);
      if raised {
        Abort();
        ValidAccounted(v0, V());
        return true, Aborted;
      }
      halt := Record();
      ghost var recorded := V();
      RecordingIs(collected, recorded);
      if halt {
        ValidAccounted(v0, recorded);
        return true, Crashed;
      }
      LaterRound(v0, w, worked, collected, recorded);
      FillIdle();
      LaterFilled(v0, recorded, V());
      LaterIs(v0, V());
      Persist();
      return false, Crashed;
    }

    /** Rounds until nothing is active. */
    method Schedule() returns (o: Outcome)
      requires Valid(V()) && active == [] && settling == [] && dropped == []
      modifies this
      ensures !o.Refused? && Accounted(old(V()), V())
      ensures old(stop) ==> stop && events == old(events)
      ensures o.Finished? ==> progress == Progress(0, |done|, |fallbacks|) && Reports() && o.failures == failures
      ensures o.Finished? ==> Later(old(V()), V()) && active == [] && (stop || Saturated(V()))
    {
      hide Valid, Weight, Later, Filled, Saturated, Accounted, Accounts;
      ghost var v0 := V();
      BegunLater(v0);
      FillIdle();
      LaterFilled(v0, v0, V());
      LaterIs(v0, V());
      Persist();
      while active != []
        invariant Later(v0, V()) && Valid(V()) && settling == []
        invariant stop || Saturated(V())
        invariant old(stop) ==> stop && V() == v0
        invariant progress == Progress(|active|, |done|, |fallbacks|) && Reports()
        decreases Weight(V())
      {
        var halt, how := Round(v0);
        if halt {
          return how;
        }
      }
      LaterIs(v0, V());
      ValidAccounted(v0, V());
      return Finished(failures);
    }
  }

  /** Checkpoints of this input decide: waiting ones go to the fallbacks, complete ones are skipped. */
  method Plan(saved: Saved, items: seq<Item>) returns (pending: seq<Item>, fallbacks: seq<Queued>)
    ensures Split(saved, items, pending, fallbacks)
  {
    pending, fallbacks := [], [];
    assert QueuedItems(fallbacks) == [];
    for i := 0 to |items|
      invariant Split(saved, items[..i], pending, fallbacks)
    {
      var x := items[i];
      SplitStep(saved, items, i, pending, fallbacks);
      if x.id in saved && saved[x.id].digest == x.digest && saved[x.id].fallbackPending {
        fallbacks := fallbacks + [Queued(x, saved[x.id])];
      } else if x.id in saved && saved[x.id].digest == x.digest && saved[x.id].done {
      } else {
        pending := pending + [x];
      }
    }
    assert items[..|items|] == items;
  }

  /** One dispatch over the checkpoints, ending normally, by an executor error, or in a crash. */
  method Dispatch(saved: Saved, stop: bool, items: seq<Item>, lanes: seq<Lane>, overflow: bool, attempts: nat)
    returns (o: Outcome, saved': Saved, progress: Progress, stopped: bool,
             pending: seq<Item>, fallbacks: seq<Queued>, done: seq<Item>, ghost events: seq<Event>)
    ensures o.Refused? <==> !(1 <= attempts <= 2 && DistinctIds(items) && ValidLanes(lanes))
    // every executor call and checkpoint, of any outcome, is acceptable
    ensures Legal(saved, events) && saved' == Replay(saved, events)
    ensures forall e | e in events :: e.item in multiset(Planned(saved, items))
    ensures forall x | x in multiset(Planned(saved, items)) :: Calls(events, x.id) <= 2 * attempts
    ensures forall x | x in multiset(Planned(saved, items)) :: Saves(events, x.id) <= 2
    ensures stop ==> stopped && saved' == saved && events == []
    // calls and checkpoints say what the executors returned, and who is called again or waits for docker
    ensures Truthful(lanes, attempts, saved, events)
    // conservation and drainage at a normal end
    ensures o.Finished? ==> forall x | x in multiset(Planned(saved, items)) :: Open(events, x.id) == []
    ensures o.Finished? ==> progress == Progress(0, |done|, |fallbacks|)
    ensures o.Finished? ==>
              multiset(pending) + multiset(QueuedItems(fallbacks)) + multiset(done) == multiset(Planned(saved, items))
    ensures o.Finished? ==> forall x | x in done :: Final(saved', x)
    ensures o.Finished? ==>
              (o.failures <==> exists x :: x in done && Final(saved', x) && saved'[x.id].status !in {Ok, Quiet})
    ensures o.Finished? && !stopped && Docker in lanes ==> fallbacks == []
    ensures o.Finished? && Docker !in lanes ==> forall q | q in fallbacks :: Awaits(saved, q.item)
    ensures o.Finished? && !stopped && (exists lane :: lane in lanes && (!lane.Docker? || overflow)) ==> pending == []
  {
    hide Valid, Later, Saturated, Accounted, Planned, Calls, Saves, Legal, Truthful, Open, Final, Awaits;
    saved', progress, stopped, pending, fallbacks, done, events := saved, Progress(0, 0, 0), stop, [], [], [], [];
    if !(1 <= attempts <= 2) || !DistinctIds(items) || !ValidLanes(lanes) {
      NothingDone(saved, items);
      return Refused, saved', progress, stopped, pending, fallbacks, done, events;
    }
    pending, fallbacks := Plan(saved, items);
    var d := new Dispatcher(saved, stop, lanes, overflow, attempts, pending, fallbacks);
    ghost var v0 := d.V();
    PlanValid(saved, items, v0);
    o := d.Schedule();
    ghost var v := d.V();
    AccountedFor(saved, items, v0, v);
    CompletesAtMostTwice(saved, items, v.events);
    saved', progress, stopped, events := d.saved, d.progress, d.stop, d.events;
    pending, fallbacks, done := d.pending, d.fallbacks, d.done;
    if o.Finished? {
      Concluded(saved, items, v0, v);
      if !stopped {
        Drained(v);
      }
    }
  }
}
