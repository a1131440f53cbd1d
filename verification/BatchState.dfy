/** The state of one dispatch between two operations of the scheduling loop, as a value, and the
    operations on it with the facts every one of them keeps. */
module BatchState {
  import opened Optional
  import opened History

  /** A submitted future: its tries so far, and whether the executor raised. */
  datatype Job = Job(item: Item, lane: Lane, previous: Option<Record>, tries: seq<Status>, raised: bool)

  datatype Queued = Queued(item: Item, record: Record)

  /** `settling` holds the popped results of the current round, `dropped` those lost when one of them
      raised. The last three fields are what the dispatch began with and what it did so far. */
  datatype View = View(
    saved: Saved, lanes: seq<Lane>, overflow: bool, attempts: nat,
    pending: seq<Item>, fallbacks: seq<Queued>, active: seq<Job>, settling: seq<Job>,
    done: seq<Item>, dropped: seq<Item>, failures: bool,
    start: Saved, events: seq<Event>, all: multiset<Item>)

  predicate Again(status: Status) { status.SandboxFailure? || status.InstrumentFailure? }

  /** What the history says of a job's calls. */
  function Trace(j: Job): seq<Try> {
    seq(|j.tries|, i requires 0 <= i < |j.tries| => Try(j.lane, Some(j.tries[i])))
    + if j.raised then [Try(j.lane, None)] else []
  }

  /** Each call but the last was followed by another one because of its status. */
  predicate Continued(j: Job) {
    forall k | 0 <= k < |j.tries| && (k < |j.tries| - 1 || j.raised) :: Again(j.tries[k])
  }

  /** `next` is the job after one more call. */
  predicate Advances(j: Job, next: Job) {
    || (!j.raised && next == j.(raised := true))
    || (!j.raised && next.tries != [] && next == j.(tries := j.tries + [next.tries[|next.tries| - 1]]))
  }

  function Returned(j: Job): Option<Status> {
    if j.raised || j.tries == [] then None else Some(j.tries[|j.tries| - 1])
  }

  predicate Success(status: Status) { status.Ok? || status.Quiet? }

  predicate Finishes(j: Job, attempts: nat) {
    j.raised || |j.tries| >= attempts || (j.tries != [] && !Again(j.tries[|j.tries| - 1]))
  }

  function JobItems(jobs: seq<Job>): seq<Item> { seq(|jobs|, i requires 0 <= i < |jobs| => jobs[i].item) }

  function JobLanes(jobs: seq<Job>): seq<Lane> { seq(|jobs|, i requires 0 <= i < |jobs| => jobs[i].lane) }

  function QueuedItems(ws: seq<Queued>): seq<Item> { seq(|ws|, i requires 0 <= i < |ws| => ws[i].item) }

  /** 4 for a pending item, 3 on an ordinary lane, 2 for a fallback, 1 on docker. */
  function JobWeight(jobs: seq<Job>): nat {
    if jobs == [] then 0 else (if jobs[0].lane.Docker? then 1 else 3) + JobWeight(jobs[1..])
  }

  function Weight(v: View): nat {
    4 * |v.pending| + 2 * |v.fallbacks| + JobWeight(v.active) + JobWeight(v.settling)
  }

  predicate ValidLanes(lanes: seq<Lane>) {
    && lanes != []
    && multiset(lanes)[Ax] + multiset(lanes)[Kind] <= 2 && multiset(lanes)[Docker] <= 1
  }

  ghost predicate Unique(m: multiset<Item>) {
    && (forall x | x in m :: m[x] == 1)
    && (forall x, y | x in m && y in m && x.id == y.id :: x == y)
  }

  ghost function Running(v: View): multiset<Item> {
    multiset(JobItems(v.active)) + multiset(JobItems(v.settling))
  }

  ghost function Places(v: View): multiset<Item> {
    multiset(v.pending) + multiset(QueuedItems(v.fallbacks)) + Running(v) + multiset(v.done) + multiset(v.dropped)
  }

  ghost function BusyLanes(v: View): multiset<Lane> {
    multiset(JobLanes(v.active)) + multiset(JobLanes(v.settling))
  }

  /** Conservation: every planned item is in exactly one place, and lanes are not overbooked. */
  ghost predicate Conserved(v: View) {
    && Places(v) == v.all && Unique(v.all)
    && BusyLanes(v) <= multiset(v.lanes)
  }

  predicate PendingValid(v: View, x: Item) {
    !Final(v.saved, x) && !Awaits(v.saved, x) && Calls(v.events, x.id) == 0 && Open(v.events, x.id) == []
  }

  predicate QueuedValid(v: View, w: Queued) {
    Awaits(v.saved, w.item) && v.saved[w.item.id] == w.record && Calls(v.events, w.item.id) <= v.attempts
    && Open(v.events, w.item.id) == []
  }

  /** The executor calls of a job. */
  function Made(j: Job): nat { |j.tries| + if j.raised then 1 else 0 }

  predicate JobValid(v: View, j: Job) {
    && Made(j) <= v.attempts && Continued(j) && Open(v.events, j.item.id) == Trace(j)
    && Calls(v.events, j.item.id) <= Made(j) + (if j.previous.None? then 0 else v.attempts)
    && match j.previous
       case None => !Final(v.saved, j.item) && !Awaits(v.saved, j.item)
       case Some(r) => j.lane.Docker? && Awaits(v.saved, j.item) && v.saved[j.item.id] == r
  }

  predicate DoneValid(v: View, x: Item) {
    Final(v.saved, x) && Calls(v.events, x.id) <= 2 * v.attempts && Open(v.events, x.id) == []
  }

  ghost predicate Entries(v: View) {
    && (forall x | x in v.pending :: PendingValid(v, x))
    && (forall w | w in v.fallbacks :: QueuedValid(v, w))
    && (forall j | j in v.active :: JobValid(v, j))
    && (forall j | j in v.settling :: JobValid(v, j) && Finishes(j, v.attempts))
    && (forall x | x in v.done :: DoneValid(v, x))
    && (forall x | x in v.dropped :: Calls(v.events, x.id) <= 2 * v.attempts)
  }

  ghost predicate Recorded(v: View) {
    && v.saved == Replay(v.start, v.events) && Legal(v.start, v.events)
    && Truthful(v.lanes, v.attempts, v.start, v.events)
    && (forall e | e in v.events :: e.item in v.all)
    && (v.failures <==> exists x :: x in v.done && Final(v.saved, x) && !Success(v.saved[x.id].status))
  }

  ghost predicate Valid(v: View) {
    && Conserved(v) && Entries(v) && Recorded(v)
    && 1 <= v.attempts <= 2
  }

  predicate Eligible(v: View, lane: Lane) {
    (lane.Docker? && v.fallbacks != []) || (v.pending != [] && (!lane.Docker? || v.overflow))
  }

  /** No idle lane has work it could take. */
  ghost predicate Saturated(v: View) {
    forall lane | lane in multiset(v.lanes) - BusyLanes(v) :: !Eligible(v, lane)
  }

  // ----- operations -----

  function Popped(v: View, i: nat): View
    requires i < |v.active|
  {
    v.(active := Without(v.active, i), settling := v.settling + [v.active[i]])
  }

  function Lost(v: View): View {
    v.(settling := [], dropped := v.dropped + JobItems(v.settling))
  }

  function Tries(j: Job): seq<Attempt> {
    seq(|j.tries|, i requires 0 <= i < |j.tries| => Attempt(j.lane, j.tries[i], i))
  }

  predicate FallsBack(lanes: seq<Lane>, j: Job)
    requires j.tries != []
  {
    var status := j.tries[|j.tries| - 1];
    (j.lane.Ax? || j.lane.Kind?) && (status.SandboxFailure? || status.Oom?) && Docker in lanes
  }

  /** The checkpoint of a finished job. */
  function RecordOf(lanes: seq<Lane>, j: Job): Record
    requires j.tries != []
  {
    var earlier := if j.previous.Some? then j.previous.value.attempts else [];
    Record(j.tries[|j.tries| - 1], earlier + Tries(j), j.item.digest, FallsBack(lanes, j), true)
  }

  /** The first popped result is written, and its item waits for docker. */
  function Requeued(v: View, r: Record): View
    requires v.settling != []
  {
    var j := v.settling[0];
    v.(settling := v.settling[1..], saved := v.saved[j.item.id := r], events := v.events + [Save(j.item, j.lane, r)],
       fallbacks := v.fallbacks + [Queued(j.item, r)])
  }

  /** Or its item is done. */
  function Settled(v: View, r: Record): View
    requires v.settling != []
  {
    var j := v.settling[0];
    v.(settling := v.settling[1..], saved := v.saved[j.item.id := r], events := v.events + [Save(j.item, j.lane, r)],
       done := v.done + [j.item], failures := v.failures || !Success(r.status))
  }

  function Completed(v: View): View
    requires v.settling != [] && v.settling[0].tries != []
  {
    var r := RecordOf(v.lanes, v.settling[0]);
    if r.fallbackPending then Requeued(v, r) else Settled(v, r)
  }

  function Launched(v: View, lane: Lane): View {
    if lane.Docker? && v.fallbacks != [] then
      var w := v.fallbacks[0];
      v.(fallbacks := v.fallbacks[1..], active := v.active + [Job(w.item, lane, Some(w.record), [], false)])
    else if v.pending != [] && (!lane.Docker? || v.overflow) then
      v.(pending := v.pending[1..], active := v.active + [Job(v.pending[0], lane, None, [], false)])
    else v
  }

  // ----- what they keep -----

  lemma JobsOf(jobs: seq<Job>, j: Job)
    ensures JobItems(jobs + [j]) == JobItems(jobs) + [j.item]
    ensures JobLanes(jobs + [j]) == JobLanes(jobs) + [j.lane]
  {
  }

  lemma JobsTail(jobs: seq<Job>)
    requires jobs != []
    ensures JobItems(jobs) == [jobs[0].item] + JobItems(jobs[1..])
    ensures JobLanes(jobs) == [jobs[0].lane] + JobLanes(jobs[1..])
  {
  }

  /** All elements but the one at i. */
  function Without<T>(s: seq<T>, i: nat): seq<T>
    requires i < |s|
  {
    s[..i] + s[i + 1..]
  }

  lemma BagWithout<T>(s: seq<T>, i: nat)
    requires i < |s|
    ensures multiset(s) == multiset(Without(s, i)) + multiset{s[i]}
  {
    assert s == s[..i] + [s[i]] + s[i + 1..];
  }

  lemma ItemsWithout(jobs: seq<Job>, i: nat)
    requires i < |jobs|
    ensures multiset(JobItems(jobs)) == multiset(JobItems(Without(jobs, i))) + multiset{jobs[i].item}
  {
    BagWithout(JobItems(jobs), i);
    assert JobItems(Without(jobs, i)) == Without(JobItems(jobs), i);
  }

  lemma LanesWithout(jobs: seq<Job>, i: nat)
    requires i < |jobs|
    ensures multiset(JobLanes(jobs)) == multiset(JobLanes(Without(jobs, i))) + multiset{jobs[i].lane}
  {
    BagWithout(JobLanes(jobs), i);
    assert JobLanes(Without(jobs, i)) == Without(JobLanes(jobs), i);
  }

  lemma {:induction false} WeightWithout(jobs: seq<Job>, i: nat)
    requires i < |jobs|
    ensures JobWeight(jobs) == JobWeight(Without(jobs, i)) + JobWeight([jobs[i]])
  {
    var rest := Without(jobs, i);
    if i == 0 {
      assert rest == jobs[1..];
    } else {
      WeightWithout(jobs[1..], i - 1);
      assert rest[1..] == Without(jobs[1..], i - 1);
    }
  }

  lemma {:induction false} WeightAppend(jobs: seq<Job>, j: Job)
    ensures JobWeight(jobs + [j]) == JobWeight(jobs) + JobWeight([j])
  {
    if jobs == [] {
      assert jobs + [j] == [j];
    } else {
      assert (jobs + [j])[1..] == jobs[1..] + [j];
      WeightAppend(jobs[1..], j);
    }
  }

  lemma {:induction false} WeightUpdate(jobs: seq<Job>, i: nat, j: Job)
    requires i < |jobs| && j.lane == jobs[i].lane
    ensures JobWeight(jobs[i := j]) == JobWeight(jobs)
  {
    if i > 0 {
      assert jobs[i := j][1..] == jobs[1..][i - 1 := j];
      WeightUpdate(jobs[1..], i - 1, j);
    } else {
      assert jobs[i := j][1..] == jobs[1..];
    }
  }

  /** Two places of one item would make it occur twice. */
  lemma Distinct(all: multiset<Item>, y: Item, rest: multiset<Item>)
    requires Unique(all) && all == multiset{y} + rest
    ensures forall x | x in rest :: x.id != y.id
  {
    forall x | x in rest ensures x.id != y.id {
      assert x in all && y in all;
      assert all[y] == 1 + rest[y];
    }
  }

  /** No other place holds an item with this id. */
  ghost predicate Elsewhere(v: View, jobs: seq<Job>, settling: seq<Job>, id: string) {
    && (forall x | x in v.pending :: x.id != id)
    && (forall w | w in v.fallbacks :: w.item.id != id)
    && (forall x | x in v.done :: x.id != id)
    && (forall x | x in v.dropped :: x.id != id)
    && (forall j | j in jobs :: j.item.id != id)
    && (forall j | j in settling :: j.item.id != id)
  }

  lemma ElsewhereOf(v: View, jobs: seq<Job>, settling: seq<Job>, rest: multiset<Item>, id: string)
    requires rest == multiset(v.pending) + multiset(QueuedItems(v.fallbacks)) + multiset(JobItems(jobs))
                     + multiset(JobItems(settling)) + multiset(v.done) + multiset(v.dropped)
    requires forall x | x in rest :: x.id != id
    ensures Elsewhere(v, jobs, settling, id)
  {
    forall w | w in v.fallbacks ensures w.item.id != id {
      var k :| 0 <= k < |v.fallbacks| && v.fallbacks[k] == w;
      assert QueuedItems(v.fallbacks)[k] == w.item;
    }
    forall j | j in jobs ensures j.item.id != id {
      var k :| 0 <= k < |jobs| && jobs[k] == j;
      assert JobItems(jobs)[k] == j.item;
    }
    forall j | j in settling ensures j.item.id != id {
      var k :| 0 <= k < |settling| && settling[k] == j;
      assert JobItems(settling)[k] == j.item;
    }
  }

  lemma ActiveApart(v: View, i: nat)
    requires Conserved(v) && i < |v.active|
    ensures Elsewhere(v, Without(v.active, i), v.settling, v.active[i].item.id)
  {
    var y := v.active[i].item;
    var others := Without(v.active, i);
    ItemsWithout(v.active, i);
    var rest := multiset(v.pending) + multiset(QueuedItems(v.fallbacks)) + multiset(JobItems(others))
                + multiset(JobItems(v.settling)) + multiset(v.done) + multiset(v.dropped);
    assert v.all == multiset{y} + rest;
    Distinct(v.all, y, rest);
    ElsewhereOf(v, others, v.settling, rest, y.id);
  }

  lemma SettlingApart(v: View)
    requires Conserved(v) && v.settling != []
    ensures Elsewhere(v, v.active, v.settling[1..], v.settling[0].item.id)
  {
    var y := v.settling[0].item;
    JobsTail(v.settling);
    var rest := multiset(v.pending) + multiset(QueuedItems(v.fallbacks)) + multiset(JobItems(v.active))
                + multiset(JobItems(v.settling[1..])) + multiset(v.done) + multiset(v.dropped);
    assert v.all == multiset{y} + rest;
    Distinct(v.all, y, rest);
    ElsewhereOf(v, v.active, v.settling[1..], rest, y.id);
  }

  /** w differs from v only in what concerns this id. */
  ghost predicate Touches(v: View, w: View, id: string) {
    && w.attempts == v.attempts && w.lanes == v.lanes
    && (forall x: Item {:trigger Final(w.saved, x)} {:trigger Awaits(w.saved, x)} | x.id != id ::
          Final(w.saved, x) == Final(v.saved, x) && Awaits(w.saved, x) == Awaits(v.saved, x))
    && (forall k | k != id :: (k in w.saved <==> k in v.saved) && (k in v.saved ==> w.saved[k] == v.saved[k]))
    && (forall k | k != id :: Calls(w.events, k) == Calls(v.events, k) && Open(w.events, k) == Open(v.events, k))
  }

  /** Entries of the other places survive such a change. */
  lemma OthersStay(v: View, w: View, jobs: seq<Job>, settling: seq<Job>, id: string)
    requires Touches(v, w, id) && Elsewhere(v, jobs, settling, id) && Entries(v)
    requires forall j | j in jobs :: j in v.active
    requires forall j | j in settling :: j in v.settling
    ensures forall x | x in v.pending :: PendingValid(w, x)
    ensures forall q | q in v.fallbacks :: QueuedValid(w, q)
    ensures forall x | x in v.done :: DoneValid(w, x)
    ensures forall x | x in v.dropped :: Calls(w.events, x.id) <= 2 * w.attempts
    ensures forall j | j in jobs :: JobValid(w, j)
    ensures forall j | j in settling :: JobValid(w, j) && Finishes(j, w.attempts)
  {
  }

  /** An executor call of an unfinished job: `next` is the job after it. */
  lemma CallValid(v: View, w: View, i: nat, next: Job)
    requires Valid(v) && i < |v.active| && !Finishes(v.active[i], v.attempts)
    requires Advances(v.active[i], next)
    requires w == v.(active := v.active[i := next], events := v.events + [Call(next.item, next.lane, Returned(next))])
    ensures Conserved(w) && Recorded(w)
  {
    assert JobItems(w.active) == JobItems(v.active);
    assert JobLanes(w.active) == JobLanes(v.active);
    assert v.active[i] in v.active && JobValid(v, v.active[i]);
    assert JobItems(v.active)[i] == next.item;
    assert next.item in Places(v);
    var e := Call(next.item, next.lane, Returned(next));
    Extend(v.start, v.events, e);
    ExtendOpen(v.lanes, v.attempts, v.start, v.events, e);
    CallTells(v, v.active[i], e);
  }

  lemma CallTells(v: View, j: Job, e: Event)
    requires JobValid(v, j) && !Finishes(j, v.attempts) && e.Call? && e.item == j.item && e.lane == j.lane
    ensures Tells(v.lanes, v.attempts, v.saved, Open(v.events, j.item.id), e)
  {
    hide Awaits, Final, Calls;
    var open := Trace(j);
    forall t | t in open ensures t.lane == e.lane && GoesOn(t) {
      var k :| 0 <= k < |open| && open[k] == t;
      assert Again(j.tries[k]);
    }
  }

  lemma TraceGrows(j: Job, next: Job)
    requires Advances(j, next) && Continued(j) && (j.tries != [] ==> Again(j.tries[|j.tries| - 1]))
    ensures Trace(next) == Trace(j) + [Try(next.lane, Returned(next))] && Continued(next)
  {
  }

  /** The jobs of a list with one replaced. */
  lemma Replaced(jobs: seq<Job>, i: nat, next: Job)
    requires i < |jobs|
    ensures forall j | j in jobs[i := next] :: j == next || j in Without(jobs, i)
    ensures forall j | j in Without(jobs, i) :: j in jobs
  {
    var others := Without(jobs, i);
    forall j | j in jobs[i := next] ensures j == next || j in others {
      var k :| 0 <= k < |jobs| && jobs[i := next][k] == j;
      if k != i {
        assert j == others[if k < i then k else k - 1];
      }
    }
  }

  lemma CallEntries(v: View, w: View, i: nat, next: Job)
    requires Conserved(v) && Entries(v) && i < |v.active| && !Finishes(v.active[i], v.attempts)
    requires Advances(v.active[i], next)
    requires w == v.(active := v.active[i := next], events := v.events + [Call(next.item, next.lane, Returned(next))])
    ensures Entries(w)
  {
    Extend(v.start, v.events, Call(next.item, next.lane, Returned(next)));
    ExtendOpen(v.lanes, v.attempts, v.start, v.events, Call(next.item, next.lane, Returned(next)));
    ActiveApart(v, i);
    Replaced(v.active, i, next);
    OthersStay(v, w, Without(v.active, i), v.settling, next.item.id);
    assert JobValid(v, v.active[i]);
    TraceGrows(v.active[i], next);
    assert JobValid(w, next);
  }

  lemma PopConserved(v: View, i: nat)
    requires Conserved(v) && i < |v.active|
    ensures Conserved(Popped(v, i)) && Weight(Popped(v, i)) == Weight(v)
  {
    var w := Popped(v, i);
    ItemsWithout(v.active, i);
    LanesWithout(v.active, i);
    WeightWithout(v.active, i);
    JobsOf(v.settling, v.active[i]);
    WeightAppend(v.settling, v.active[i]);
    assert Running(w) == Running(v);
    assert BusyLanes(w) == BusyLanes(v);
  }

  lemma PopEntries(v: View, i: nat)
    requires Entries(v) && Recorded(v) && i < |v.active| && Finishes(v.active[i], v.attempts)
    ensures Entries(Popped(v, i)) && Recorded(Popped(v, i))
  {
    var w := Popped(v, i);
    Replaced(v.active, i, v.active[i]);
    assert v.active[i] in v.active && JobValid(v, v.active[i]);
  }

  lemma LostConserved(v: View)
    requires Conserved(v)
    ensures Conserved(Lost(v))
  {
    assert JobItems([]) == [] && JobLanes([]) == [];
    assert Places(Lost(v)) == Places(v);
  }

  lemma LostEntries(v: View)
    requires Entries(v) && Recorded(v) && 1 <= v.attempts
    ensures Entries(Lost(v)) && Recorded(Lost(v))
  {
    forall x | x in Lost(v).dropped ensures Calls(v.events, x.id) <= 2 * v.attempts {
      if x !in v.dropped {
        var k :| 0 <= k < |v.settling| && JobItems(v.settling)[k] == x;
        assert JobValid(v, v.settling[k]);
      }
    }
  }

  lemma LostValid(v: View)
    requires Valid(v)
    ensures Valid(Lost(v))
  {
    LostConserved(v);
    LostEntries(v);
  }

  /** A job for x joins the active ones. */
  lemma Joined(jobs: seq<Job>, j: Job)
    ensures multiset(JobItems(jobs + [j])) == multiset(JobItems(jobs)) + multiset{j.item}
    ensures multiset(JobLanes(jobs + [j])) == multiset(JobLanes(jobs)) + multiset{j.lane}
    ensures JobWeight(jobs + [j]) == JobWeight(jobs) + if j.lane.Docker? then 1 else 3
  {
    JobsOf(jobs, j);
    WeightAppend(jobs, j);
    assert JobWeight([j]) == (if j.lane.Docker? then 1 else 3) + JobWeight([j][1..]);
  }

  // Four equations for one item that goes from one place to another, and two for the lanes.

  lemma LaunchFallback(v: View)
    requires Conserved(v) && v.fallbacks != [] && Docker in multiset(v.lanes) - BusyLanes(v)
    ensures Conserved(Launched(v, Docker)) && Weight(Launched(v, Docker)) < Weight(v)
  {
    var q := v.fallbacks[0];
    Joined(v.active, Job(q.item, Docker, Some(q.record), [], false));
    assert QueuedItems(v.fallbacks) == [q.item] + QueuedItems(v.fallbacks[1..]);
    hide JobItems, JobLanes, QueuedItems, Unique, JobWeight;
    Restarted(multiset(v.pending), multiset(QueuedItems(v.fallbacks)), multiset(QueuedItems(v.fallbacks[1..])),
              multiset(JobItems(v.active)), multiset(JobItems(v.settling)), multiset(v.done), multiset(v.dropped),
                  q.item);
    OneLaneMore(multiset(v.lanes), multiset(JobLanes(v.active)), multiset(JobLanes(v.settling)), Docker);
  }

  lemma Restarted(p: multiset<Item>, before: multiset<Item>, rest: multiset<Item>, jobs: multiset<Item>,
        c: multiset<Item>, d: multiset<Item>, e: multiset<Item>, x: Item)
    requires before == multiset{x} + rest
    ensures p + rest + ((jobs + multiset{x}) + c) + d + e == p + before + (jobs + c) + d + e
  {
  }

  lemma LaunchPending(v: View, lane: Lane)
    requires Conserved(v) && v.pending != [] && lane in multiset(v.lanes) - BusyLanes(v)
    requires lane.Docker? ==> v.overflow && v.fallbacks == []
    ensures Conserved(Launched(v, lane)) && Weight(Launched(v, lane)) < Weight(v)
  {
    var x := v.pending[0];
    Joined(v.active, Job(x, lane, None, [], false));
    assert v.pending == [x] + v.pending[1..];
    hide JobItems, JobLanes, QueuedItems, Unique, JobWeight;
    Started(multiset(v.pending), multiset(v.pending[1..]), multiset(QueuedItems(v.fallbacks)),
        multiset(JobItems(v.active)), multiset(JobItems(v.settling)), multiset(v.done), multiset(v.dropped), x);
    OneLaneMore(multiset(v.lanes), multiset(JobLanes(v.active)), multiset(JobLanes(v.settling)), lane);
  }

  lemma Started(before: multiset<Item>, rest: multiset<Item>, b: multiset<Item>, jobs: multiset<Item>,
        c: multiset<Item>, d: multiset<Item>, e: multiset<Item>, x: Item)
    requires before == multiset{x} + rest
    ensures rest + b + ((jobs + multiset{x}) + c) + d + e == before + b + (jobs + c) + d + e
  {
  }

  lemma OneLaneMore(lanes: multiset<Lane>, active: multiset<Lane>, settling: multiset<Lane>, lane: Lane)
    requires active + settling <= lanes && lane in lanes - (active + settling)
    ensures (active + multiset{lane}) + settling <= lanes
  {
  }

  lemma LaunchEntries(v: View, lane: Lane)
    requires Entries(v) && Recorded(v)
    ensures Entries(Launched(v, lane)) && Recorded(Launched(v, lane))
  {
    hide Calls, Final, Awaits, Open, Legal, Truthful, Replay;
    var w := Launched(v, lane);
    if w != v {
      var j := w.active[|v.active|];
      assert JobValid(v, j) by {
        if lane.Docker? && v.fallbacks != [] {
          assert QueuedValid(v, v.fallbacks[0]);
        } else {
          assert PendingValid(v, v.pending[0]);
        }
      }
      forall k | k in w.active ensures JobValid(w, k) {
        assert k in v.active || k == j;
        assert JobValid(v, k);
      }
      forall x | x in w.pending ensures PendingValid(w, x) { assert PendingValid(v, x); }
      forall q | q in w.fallbacks ensures QueuedValid(w, q) { assert QueuedValid(v, q); }
      forall k | k in w.settling ensures JobValid(w, k) && Finishes(k, w.attempts) { assert JobValid(v, k); }
      forall x | x in w.done ensures DoneValid(w, x) { assert DoneValid(v, x); }
    }
  }

  /** Offering work to an idle lane: either it takes some and is busy, or it has none to take. */
  lemma LaunchValid(v: View, lane: Lane)
    requires Valid(v) && lane in multiset(v.lanes) - BusyLanes(v)
    ensures Valid(Launched(v, lane)) && Weight(Launched(v, lane)) <= Weight(v)
  {
    LaunchEntries(v, lane);
    if lane.Docker? && v.fallbacks != [] {
      LaunchFallback(v);
    } else if v.pending != [] && (!lane.Docker? || v.overflow) {
      LaunchPending(v, lane);
    }
  }

  /** w came from v by offering work to idle lanes. */
  ghost predicate Filled(v: View, w: View) {
    && Valid(w) && Weight(w) <= Weight(v)
    && w == v.(pending := w.pending, fallbacks := w.fallbacks, active := w.active)
    && (Docker !in v.lanes ==> w.fallbacks == v.fallbacks)
  }

  lemma FillStep(v: View, w: View, lane: Lane)
    requires Filled(v, w) && lane in multiset(w.lanes) - BusyLanes(w)
    ensures Filled(v, Launched(w, lane))
  {
    hide Valid, Weight, BusyLanes;
    LaunchValid(w, lane);
  }

  /** Between two rounds the idle lanes are those without an active job. */
  lemma LanesFree(v: View)
    requires Valid(v) && v.settling == []
    ensures BusyLanes(v) == multiset(JobLanes(v.active)) <= multiset(v.lanes)
  {
    assert JobLanes(v.settling) == [];
  }

  lemma LaunchTakes(v: View, lane: Lane)
    ensures if Eligible(v, lane) then BusyLanes(Launched(v, lane)) == BusyLanes(v) + multiset{lane}
            else Launched(v, lane) == v
    ensures Launched(v, lane).lanes == v.lanes
    ensures forall other | !Eligible(v, other) :: !Eligible(Launched(v, lane), other)
  {
    if Eligible(v, lane) {
      var w := Launched(v, lane);
      Joined(v.active, w.active[|v.active|]);
    }
  }

  /** Part way through: `idle` lanes are still to be offered work, `refused` ones found none. */
  ghost predicate Filling(v: View, w: View, idle: multiset<Lane>, refused: multiset<Lane>, stop: bool) {
    && Filled(v, w)
    && multiset(w.lanes) == BusyLanes(w) + idle + refused
    && (stop || forall lane | lane in refused :: !Eligible(w, lane))
  }

  lemma FillBegins(v: View)
    requires Valid(v) && v.settling == []
    ensures Filling(v, v, multiset(v.lanes) - multiset(JobLanes(v.active)), multiset{}, false) && Filled(v, v)
  {
    LanesFree(v);
  }

  lemma FillContinues(v: View, w: View, idle: multiset<Lane>, refused: multiset<Lane>, lane: Lane)
    requires Filling(v, w, idle, refused, false) && lane in idle
    ensures Filling(v, Launched(w, lane), idle - multiset{lane},
                    if Eligible(w, lane) then refused else refused + multiset{lane}, false)
  {
    hide Filled, Launched, BusyLanes, Eligible;
    FillStep(v, w, lane);
    LaunchTakes(w, lane);
    assert idle == idle - multiset{lane} + multiset{lane};
  }

  lemma FillingIs(v: View, w: View, idle: multiset<Lane>, refused: multiset<Lane>)
    requires Filling(v, w, idle, refused, false)
    ensures Filled(v, w)
  {
  }

  lemma FillEnds(v: View, w: View, refused: multiset<Lane>)
    requires Filling(v, w, multiset{}, refused, false)
    ensures Saturated(w)
  {
    assert multiset(w.lanes) - BusyLanes(w) == refused;
  }

  lemma SettlingTail(v: View)
    requires v.settling != []
    ensures multiset(JobItems(v.settling)) == multiset{v.settling[0].item} + multiset(JobItems(v.settling[1..]))
    ensures multiset(JobLanes(v.settling)) == multiset{v.settling[0].lane} + multiset(JobLanes(v.settling[1..]))
  {
    JobsTail(v.settling);
  }

  lemma WeightTail(jobs: seq<Job>)
    requires jobs != []
    ensures JobWeight(jobs) == JobWeight(jobs[1..]) + if jobs[0].lane.Docker? then 1 else 3
  {
  }

  lemma RequeueConserved(v: View, r: Record)
    requires Conserved(v) && v.settling != [] && !v.settling[0].lane.Docker?
    ensures Conserved(Requeued(v, r)) && Weight(Requeued(v, r)) < Weight(v)
  {
    var x := v.settling[0].item;
    SettlingTail(v);
    WeightTail(v.settling);
    assert QueuedItems(v.fallbacks + [Queued(x, r)]) == QueuedItems(v.fallbacks) + [x];
    hide JobItems, JobLanes, QueuedItems, Unique, JobWeight;
    Waits(multiset(v.pending), multiset(QueuedItems(v.fallbacks)), multiset(JobItems(v.active)),
        multiset(JobItems(v.settling)), multiset(JobItems(v.settling[1..])), multiset(v.done), multiset(v.dropped), x);
    OneLaneLess(multiset(v.lanes), multiset(JobLanes(v.active)), multiset(JobLanes(v.settling)),
                multiset(JobLanes(v.settling[1..])), v.settling[0].lane);
  }

  lemma SettleConserved(v: View, r: Record)
    requires Conserved(v) && v.settling != []
    ensures Conserved(Settled(v, r)) && Weight(Settled(v, r)) < Weight(v)
  {
    var x := v.settling[0].item;
    SettlingTail(v);
    WeightTail(v.settling);
    hide JobItems, JobLanes, QueuedItems, Unique, JobWeight;
    Stops(multiset(v.pending), multiset(QueuedItems(v.fallbacks)), multiset(JobItems(v.active)),
        multiset(JobItems(v.settling)), multiset(JobItems(v.settling[1..])), multiset(v.done), multiset(v.dropped), x);
    OneLaneLess(multiset(v.lanes), multiset(JobLanes(v.active)), multiset(JobLanes(v.settling)),
                multiset(JobLanes(v.settling[1..])), v.settling[0].lane);
  }

  lemma Waits(p: multiset<Item>, q: multiset<Item>, jobs: multiset<Item>, before: multiset<Item>, rest: multiset<Item>,
              d: multiset<Item>, e: multiset<Item>, x: Item)
    requires before == multiset{x} + rest
    ensures p + (q + multiset{x}) + (jobs + rest) + d + e == p + q + (jobs + before) + d + e
  {
  }

  lemma Stops(p: multiset<Item>, q: multiset<Item>, jobs: multiset<Item>, before: multiset<Item>, rest: multiset<Item>,
              d: multiset<Item>, e: multiset<Item>, x: Item)
    requires before == multiset{x} + rest
    ensures p + q + (jobs + rest) + (d + multiset{x}) + e == p + q + (jobs + before) + d + e
  {
  }

  lemma OneLaneLess(lanes: multiset<Lane>, active: multiset<Lane>, before: multiset<Lane>, rest: multiset<Lane>,
      lane: Lane)
    requires active + before <= lanes && before == multiset{lane} + rest
    ensures active + rest <= lanes
  {
  }

  /** The record tells what the job's calls returned. */
  predicate Faithful(lanes: seq<Lane>, j: Job, r: Record) {
    && j.tries != [] && !j.raised && r == RecordOf(lanes, j)
  }

  lemma SaveTells(v: View, j: Job, r: Record)
    requires JobValid(v, j) && Finishes(j, v.attempts) && Faithful(v.lanes, j, r) && 1 <= v.attempts
    ensures Tells(v.lanes, v.attempts, v.saved, Open(v.events, j.item.id), Save(j.item, j.lane, r))
  {
    hide Final, Calls;
    var open, earlier := Trace(j), Earlier(v.saved, j.item);
    assert |open| == |j.tries| && r.attempts == earlier + Tries(j);
    forall k | 0 <= k < |open|
      ensures open[k].outcome == Some(r.attempts[|earlier| + k].status) && open[k].lane == j.lane
      ensures r.attempts[|earlier| + k].lane == j.lane && r.attempts[|earlier| + k].number == k
      ensures k < |open| - 1 ==> GoesOn(open[k])
    {
      assert r.attempts[|earlier| + k] == Tries(j)[k];
    }
  }

  /** A record a job may write: of its input, with the earlier attempts of a waiting item in front. */
  predicate Proper(j: Job, r: Record) {
    && r.digest == j.item.digest && r.done
    && (j.previous.Some? ==> j.previous.value.attempts <= r.attempts)
    && (r.fallbackPending ==> (j.lane.Ax? || j.lane.Kind?) && (r.status.SandboxFailure? || r.status.Oom?))
  }

  lemma RecordProper(lanes: seq<Lane>, j: Job)
    requires j.tries != []
    ensures Proper(j, RecordOf(lanes, j))
    ensures RecordOf(lanes, j).fallbackPending ==> Docker in lanes
  {
  }

  /** What writing r does to the checkpoints and the history. */
  lemma WriteTouches(v: View, w: View, j: Job, r: Record)
    requires w.attempts == v.attempts && w.lanes == v.lanes && w.start == v.start
    requires w.saved == v.saved[j.item.id := r] && w.events == v.events + [Save(j.item, j.lane, r)]
    ensures Touches(v, w, j.item.id)
    ensures Calls(w.events, j.item.id) == Calls(v.events, j.item.id) && Open(w.events, j.item.id) == []
  {
    Extend(v.start, v.events, Save(j.item, j.lane, r));
    ExtendOpen(v.lanes, v.attempts, v.start, v.events, Save(j.item, j.lane, r));
  }

  lemma RequeueEntries(v: View, r: Record)
    requires v.settling != [] && Elsewhere(v, v.active, v.settling[1..], v.settling[0].item.id)
    requires Entries(v) && Proper(v.settling[0], r) && r.fallbackPending
    ensures Entries(Requeued(v, r))
  {
    var w := Requeued(v, r);
    var j := v.settling[0];
    WriteTouches(v, w, j, r);
    OthersStay(v, w, v.active, v.settling[1..], j.item.id);
    assert QueuedValid(w, Queued(j.item, r)) by {
      assert JobValid(v, j);
    }
    forall q | q in w.fallbacks ensures QueuedValid(w, q) {
      assert q in v.fallbacks || q == Queued(j.item, r);
    }
  }

  lemma SettleEntries(v: View, r: Record)
    requires v.settling != [] && Elsewhere(v, v.active, v.settling[1..], v.settling[0].item.id)
    requires Entries(v) && Proper(v.settling[0], r) && !r.fallbackPending
    ensures Entries(Settled(v, r))
  {
    var w := Settled(v, r);
    var j := v.settling[0];
    WriteTouches(v, w, j, r);
    OthersStay(v, w, v.active, v.settling[1..], j.item.id);
    assert DoneValid(w, j.item) by {
      assert JobValid(v, j);
    }
    forall x | x in w.done ensures DoneValid(w, x) {
      assert x in v.done || x == j.item;
    }
  }

  lemma WriteRecorded(v: View, j: Job, r: Record)
    requires Entries(v) && Recorded(v) && j in v.settling && j.item in v.all && Proper(j, r)
    requires Faithful(v.lanes, j, r) && 1 <= v.attempts
    ensures var events := v.events + [Save(j.item, j.lane, r)];
            && v.saved[j.item.id := r] == Replay(v.start, events) && Legal(v.start, events)
            && Truthful(v.lanes, v.attempts, v.start, events)
            && forall e | e in events :: e.item in v.all
  {
    Extend(v.start, v.events, Save(j.item, j.lane, r));
    ExtendOpen(v.lanes, v.attempts, v.start, v.events, Save(j.item, j.lane, r));
    assert JobValid(v, j);
    SaveTells(v, j, r);
  }

  /** Writing the checkpoint of another item does not change what the done ones say. */
  lemma DoneStays(v: View, saved: Saved, id: string, r: Record)
    requires Entries(v) && saved == v.saved[id := r] && forall x | x in v.done :: x.id != id
    ensures forall x | x in v.done :: Final(v.saved, x) && Final(saved, x) && saved[x.id] == v.saved[x.id]
  {
    forall x | x in v.done ensures Final(v.saved, x) && Final(saved, x) && saved[x.id] == v.saved[x.id] {
      assert DoneValid(v, x);
    }
  }

  lemma RequeueRecorded(v: View, r: Record)
    requires v.settling != [] && Elsewhere(v, v.active, v.settling[1..], v.settling[0].item.id)
    requires v.settling[0].item in v.all && Entries(v) && Recorded(v) && Proper(v.settling[0], r)
    requires Faithful(v.lanes, v.settling[0], r) && 1 <= v.attempts
    ensures Recorded(Requeued(v, r))
  {
    var j := v.settling[0];
    WriteRecorded(v, j, r);
    DoneStays(v, v.saved[j.item.id := r], j.item.id, r);
  }

  lemma SettleRecorded(v: View, r: Record)
    requires v.settling != [] && Elsewhere(v, v.active, v.settling[1..], v.settling[0].item.id)
    requires v.settling[0].item in v.all && Entries(v) && Recorded(v) && Proper(v.settling[0], r)
    requires Faithful(v.lanes, v.settling[0], r) && 1 <= v.attempts
    requires !r.fallbackPending
    ensures Recorded(Settled(v, r))
  {
    var j := v.settling[0];
    var w := Settled(v, r);
    WriteRecorded(v, j, r);
    DoneStays(v, w.saved, j.item.id, r);
    assert j.item in w.done && Final(w.saved, j.item) && w.saved[j.item.id].status == r.status;
  }

  lemma CompleteValid(v: View)
    requires Valid(v) && v.settling != [] && v.settling[0].tries != [] && !v.settling[0].raised
    ensures Valid(Completed(v)) && Weight(Completed(v)) < Weight(v)
  {
    var j := v.settling[0];
    var r := RecordOf(v.lanes, j);
    RecordProper(v.lanes, j);
    SettlingApart(v);
    assert JobItems(v.settling)[0] == j.item;
    assert j.item in Places(v);
    if r.fallbackPending {
      RequeueConserved(v, r);
      RequeueEntries(v, r);
      RequeueRecorded(v, r);
    } else {
      SettleConserved(v, r);
      SettleEntries(v, r);
      SettleRecorded(v, r);
    }
  }

  /** Threads made executor calls; nothing else changed. */
  ghost predicate Worked(v: View, w: View) {
    && Valid(w) && Weight(w) == Weight(v) && |w.active| == |v.active|
    && w == v.(active := w.active, events := w.events)
  }

  /** One more executor call is one step closer to the end of the attempts. */
  lemma CallCounts(j: Job, next: Job, attempts: nat)
    requires !Finishes(j, attempts)
    requires if next.raised then next.tries == j.tries else |next.tries| == |j.tries| + 1
    ensures Made(next) == Made(j) + 1 <= attempts
  {
  }

  lemma WorkStep(v: View, w: View, i: nat, next: Job)
    requires Worked(v, w) && i < |w.active| && !Finishes(w.active[i], w.attempts)
    requires Advances(w.active[i], next)
    ensures var call := Call(next.item, next.lane, Returned(next));
            Worked(v, w.(active := w.active[i := next], events := w.events + [call]))
  {
    var u := w.(active := w.active[i := next], events := w.events + [Call(next.item, next.lane, Returned(next))]);
    CallValid(w, u, i, next);
    CallEntries(w, u, i, next);
    WeightUpdate(w.active, i, next);
  }

  /** Finished jobs were popped. */
  ghost predicate Collected(v: View, w: View) {
    && Valid(w) && Weight(w) == Weight(v)
    && w == v.(active := w.active, settling := w.settling)
  }

  lemma WorkedSelf(v: View)
    requires Valid(v)
    ensures Worked(v, v)
  {
  }

  lemma CollectedSelf(v: View)
    requires Valid(v)
    ensures Collected(v, v)
  {
  }

  lemma FinishedTried(v: View, i: nat)
    requires Valid(v) && i < |v.active| && Finishes(v.active[i], v.attempts)
    ensures !v.active[i].raised ==> v.active[i].tries != []
  {
  }

  lemma CollectStep(v: View, w: View, i: nat)
    requires Collected(v, w) && i < |w.active| && Finishes(w.active[i], w.attempts)
    ensures Collected(v, Popped(w, i))
  {
    PopConserved(w, i);
    PopEntries(w, i);
  }

  /** The call budget of every planned item. */
  lemma Budget(v: View, x: Item)
    requires Valid(v) && x in v.all
    ensures Calls(v.events, x.id) <= 2 * v.attempts
  {
    assert x in Places(v);
    if x in v.pending {
      assert PendingValid(v, x);
    } else if x in QueuedItems(v.fallbacks) {
      var k :| 0 <= k < |v.fallbacks| && QueuedItems(v.fallbacks)[k] == x;
      assert QueuedValid(v, v.fallbacks[k]);
    } else if x in JobItems(v.active) {
      var k :| 0 <= k < |v.active| && JobItems(v.active)[k] == x;
      assert JobValid(v, v.active[k]);
    } else if x in JobItems(v.settling) {
      var k :| 0 <= k < |v.settling| && JobItems(v.settling)[k] == x;
      assert JobValid(v, v.settling[k]);
    } else if x in v.done {
      assert DoneValid(v, x);
    }
  }

  /** Checkpoints of a round were written. */
  ghost predicate Recording(v: View, w: View) {
    && Valid(w) && Weight(w) + (|v.settling| - |w.settling|) <= Weight(v) && |w.settling| <= |v.settling|
    && w.(fallbacks := v.fallbacks, settling := v.settling, saved := v.saved, events := v.events,
          done := v.done, failures := v.failures) == v
    && (Docker !in v.lanes ==> w.fallbacks == v.fallbacks)
  }

  lemma RecordingSelf(v: View)
    requires Valid(v)
    ensures Recording(v, v)
  {
  }

  lemma SettlingShrinks(v: View)
    requires v.settling != [] && v.settling[0].tries != []
    ensures Completed(v).settling == v.settling[1..]
  {
  }

  lemma RecordStep(v: View, w: View)
    requires Recording(v, w) && w.settling != [] && w.settling[0].tries != [] && !w.settling[0].raised
    ensures Recording(v, Completed(w))
  {
    RecordProper(w.lanes, w.settling[0]);
    CompleteValid(w);
  }

  /** When all is quiet and STOP is absent, the queues are drained as far as the lanes allow. */
  lemma Drained(v: View)
    requires Saturated(v) && v.active == [] && v.settling == []
    ensures Docker in v.lanes ==> v.fallbacks == []
    ensures (exists lane :: lane in v.lanes && (!lane.Docker? || v.overflow)) ==> v.pending == []
  {
    assert JobLanes(v.active) == [] && JobLanes(v.settling) == [];
    assert multiset(v.lanes) - BusyLanes(v) == multiset(v.lanes);
    if Docker in v.lanes {
      assert Docker in multiset(v.lanes) && !Eligible(v, Docker);
    }
    if lane :| lane in v.lanes && (!lane.Docker? || v.overflow) {
      assert lane in multiset(v.lanes) && !Eligible(v, lane);
    }
  }

  /** w is a later state of the dispatch that began as v. */
  ghost predicate Later(v: View, w: View) {
    && Valid(w) && w.settling == [] && w.dropped == []
    && w.lanes == v.lanes && w.overflow == v.overflow
    && w.attempts == v.attempts && w.start == v.start && w.all == v.all
    && (Docker !in v.lanes ==> w.fallbacks == v.fallbacks)
  }

  /** What holds whenever a dispatch that began as v stops, however it stops. */
  ghost predicate Accounted(v: View, w: View) {
    && w.saved == Replay(v.start, w.events) && Legal(v.start, w.events)
    && (forall e | e in w.events :: e.item in v.all)
    && (forall x | x in v.all :: Calls(w.events, x.id) <= 2 * v.attempts)
    && Truthful(v.lanes, v.attempts, v.start, w.events)
  }

  lemma ValidAccounted(v: View, w: View)
    requires Valid(w) && w.start == v.start && w.all == v.all && w.attempts == v.attempts && w.lanes == v.lanes
    ensures Accounted(v, w)
  {
    forall x | x in v.all ensures Calls(w.events, x.id) <= 2 * v.attempts {
      Budget(w, x);
    }
  }

  lemma LaterIs(v: View, w: View)
    requires Later(v, w)
    ensures Valid(w) && w.settling == [] && w.dropped == [] && w.lanes == v.lanes && w.overflow == v.overflow
    ensures w.start == v.start && w.all == v.all && w.attempts == v.attempts
    ensures Docker !in v.lanes ==> w.fallbacks == v.fallbacks
  {
  }

  lemma WorkedIs(v: View, w: View)
    requires Worked(v, w)
    ensures Valid(w) && w.start == v.start && w.all == v.all && w.attempts == v.attempts && w.lanes == v.lanes
    ensures w.settling == v.settling
  {
  }

  lemma CollectedIs(v: View, w: View)
    requires Collected(v, w)
    ensures Valid(w) && w.start == v.start && w.all == v.all && w.attempts == v.attempts && w.lanes == v.lanes
  {
  }

  lemma RecordingIs(v: View, w: View)
    requires Recording(v, w)
    ensures Valid(w) && w.start == v.start && w.all == v.all && w.attempts == v.attempts && w.lanes == v.lanes
  {
  }

  lemma LaterFilled(v: View, w: View, u: View)
    requires Later(v, w) && Filled(w, u)
    ensures Later(v, u) && Weight(u) <= Weight(w)
  {
  }

  /** A round that writes at least one checkpoint makes progress. */
  lemma LaterRound(v: View, w: View, worked: View, collected: View, recorded: View)
    requires Later(v, w) && Worked(w, worked) && Collected(worked, collected) && collected.settling != []
    requires Recording(collected, recorded) && recorded.settling == []
    ensures Later(v, recorded) && Weight(recorded) < Weight(w)
  {
  }

  /** The state in which a dispatch starts. */
  function Begun(saved: Saved, lanes: seq<Lane>, overflow: bool, attempts: nat, pending: seq<Item>,
      fallbacks: seq<Queued>): View {
    View(saved, lanes, overflow, attempts, pending, fallbacks, [], [], [], [], false, saved, [],
         multiset(pending) + multiset(QueuedItems(fallbacks)))
  }

  lemma BegunLater(v: View)
    requires Valid(v) && v.settling == [] && v.dropped == []
    ensures Later(v, v) && Filled(v, v)
  {
  }

  lemma BeginValid(saved: Saved, lanes: seq<Lane>, overflow: bool, attempts: nat, pending: seq<Item>,
      fallbacks: seq<Queued>)
    requires 1 <= attempts <= 2 && Unique(multiset(pending) + multiset(QueuedItems(fallbacks)))
    requires forall x | x in pending :: !Final(saved, x) && !Awaits(saved, x)
    requires forall q | q in fallbacks :: Awaits(saved, q.item) && saved[q.item.id] == q.record
    ensures Valid(Begun(saved, lanes, overflow, attempts, pending, fallbacks))
  {
    var v := Begun(saved, lanes, overflow, attempts, pending, fallbacks);
    assert JobItems([]) == [] && JobLanes([]) == [];
    assert Conserved(v);
    assert forall x | x in pending :: PendingValid(v, x);
    assert forall q | q in fallbacks :: QueuedValid(v, q);
    assert Legal(saved, []) && Replay(saved, []) == saved;
    assert Truthful(lanes, attempts, saved, []);
  }

  /** What the three numbers of the progress file stand for. */
  ghost predicate Accounts(v: View, inFlight: nat, pinsDone: nat, waiting: nat) {
    && Places(v) == v.all && BusyLanes(v) <= multiset(v.lanes)
    && |v.all| == |v.pending| + waiting + inFlight + pinsDone + |v.dropped|
    && (forall x | x in v.done :: Final(v.saved, x))
    && (forall q | q in v.fallbacks :: Awaits(v.saved, q.item) && v.saved[q.item.id] == q.record)
  }

  /** Between two rounds the counts of active, done and waiting items, with the pending and dropped ones, make up the
      plan; the done ones have a finished checkpoint and the waiting ones one that awaits docker. */
  lemma CountsAccount(v: View)
    requires Valid(v) && v.settling == []
    ensures Accounts(v, |v.active|, |v.done|, |v.fallbacks|)
  {
    hide Final, Calls, Unique;
    forall x | x in v.done ensures Final(v.saved, x) { assert DoneValid(v, x); }
    forall q | q in v.fallbacks ensures Awaits(v.saved, q.item) && v.saved[q.item.id] == q.record {
      assert QueuedValid(v, q);
    }
    assert |Places(v)| == |v.all|;
    assert JobItems(v.settling) == [];
    PlacesCount(v);
  }

  lemma PlacesCount(v: View)
    requires v.settling == []
    ensures |Places(v)| == |v.pending| + |v.fallbacks| + |v.active| + |v.done| + |v.dropped|
  {
    assert |multiset(QueuedItems(v.fallbacks))| == |v.fallbacks|;
    assert |multiset(JobItems(v.active))| == |v.active|;
    assert JobItems(v.settling) == [];
  }

  /** At the end of a normal run every planned item is pending, waiting or done. */
  lemma Ended(v: View)
    requires Valid(v) && v.active == [] && v.settling == [] && v.dropped == []
    ensures v.all == multiset(v.pending) + multiset(QueuedItems(v.fallbacks)) + multiset(v.done)
    ensures forall x | x in v.done :: Final(v.saved, x)
    ensures v.failures <==> exists x :: x in v.done && Final(v.saved, x) && !Success(v.saved[x.id].status)
    ensures forall q | q in v.fallbacks :: Awaits(v.saved, q.item)
    ensures forall x | x in v.all :: Open(v.events, x.id) == []
  {
    assert JobItems([]) == [];
    forall x | x in v.all ensures Open(v.events, x.id) == [] {
      NothingOpen(v, x);
    }
  }

  /** When nothing is under way, every call has its checkpoint. */
  lemma NothingOpen(v: View, x: Item)
    requires Valid(v) && v.active == [] && v.settling == [] && v.dropped == [] && x in v.all
    ensures Open(v.events, x.id) == []
  {
    hide Calls, Final, Awaits, Unique;
    assert JobItems([]) == [] && x in Places(v);
    if x in v.pending {
      assert PendingValid(v, x);
    } else if x in QueuedItems(v.fallbacks) {
      var k :| 0 <= k < |v.fallbacks| && QueuedItems(v.fallbacks)[k] == x;
      assert QueuedValid(v, v.fallbacks[k]);
    } else {
      assert x in v.done && DoneValid(v, x);
    }
  }
}
