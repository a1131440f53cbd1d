/** The lease queue shared by the engine workers: one task, any number of workers, one object store.

    A state holds the store's objects for that task, the global time and the program point of every
    worker. `Step` performs one store operation, one clock reading or one environment event; an
    action that is not possible in a state leaves it unchanged, so the interleavings of the protocol
    are exactly the sequences of actions. LIST and every READ are separate actions. */
module LeaseQueue {

  /** A worker is named by the rank of its claim key, so `<` is the order of the keys. */
  type Worker = nat

  const MARGIN: real := 60.0

  /** Clock readings are at most `skew` ahead of the global time, hence within `skew` of each other. */
  datatype Config = Config(deadline: real, skew: real)

  ghost predicate ValidConfig(c: Config) {
    0.0 <= c.skew < MARGIN / 2.0
  }

  datatype Marker = Marker(ticket: nat, expires: real)

  type Seen = map<Worker, Marker>

  /** Where a worker stands. Each comment says which operation comes next. */
  datatype Phase =
    | Idle                                        // list tasks
    | Sighted(sighted: Marker)                    // is this lease expired?
    | Found                                       // read the result
    | Checked                                     // read the clock for the expiry
    | Prepared(due: real)                         // put the choosing marker, ticket 0
    | Choosing(due: real)                         // list the markers
    | Tallying(due: real, todo: set<Worker>, seen: Seen, top: nat) // read or judge a marker
    | Chosen(mine: Marker)                        // put the ticket
    | Racing(mine: Marker, lap: Lap)
    | Holding(mine: Marker, hold: Hold)
    | Cleaning(broom: Broom)
    | Abandoning                                  // delete the own marker
    | Dead

  /** The waiting loop. */
  datatype Lap =
    | Waiting                                     // stop flag and remaining time
    | Timed                                       // list the markers
    | Comparing(todo: set<Worker>, seen: Seen, choosing: bool, beaten: bool) // read or judge a marker
    | Verifying                                   // read the own marker
    | Confirming                                  // read the result

  /** From the last check of the result to its publication. */
  datatype Hold =
    | Won                                         // delete the pending object
    | Owner                                       // read the lease
    | Leased                                      // compute the budget
    | Executing(until: real)                      // end of the execution
    | Orphaned(until: real)                       // the worker crashed, its child still runs
    | Executed                                    // put the result

  /** After the result is stored. */
  datatype Broom =
    | Published                                   // delete the input
    | Tidying                                     // list the markers
    | Sweeping(todo: set<Worker>, seen: Seen)     // read or judge a marker
    | Condemned(victim: Worker, seen: Seen)       // delete the victim's marker

  /** The submitting side. */
  datatype Client = Unsent | Staged | Submitted | Delivered | Closed | Cancelled

  datatype State = State(
    now: real,
    client: Client,
    pending: bool,
    input: bool,
    result: bool,
    markers: map<Worker, Marker>,
    stopping: set<Worker>,
    phases: seq<Phase>)

  datatype Action =
    | Tick(to: real)
    | Client                                      // next operation of the submitting side
    | Cancel                                      // its timeout: remove the pending object
    | Stop(w: Worker)                             // the termination signal
    | Crash(w: Worker)
    | Look(w: Worker)                             // tasks(): read the pending object
    | LookLease(w: Worker, k: Worker)             // tasks(): read one marker
    | Act(w: Worker, clock: real, k: Worker)      // next operation; the clock reading and key it uses
    | Fault(w: Worker, applied: bool)             // that operation raises, with or without its effect

  function Init(workers: nat, now: real): State {
    State(now, Unsent, false, false, false, map[], {}, seq(workers, i => Idle))
  }

  function At(s: State, w: Worker, p: Phase): State
    requires w < |s.phases|
  {
    s.(phases := s.phases[w := p])
  }

  predicate Runs(p: Phase) { p.Holding? && (p.hold.Executing? || p.hold.Orphaned?) }

  /** (ticket, key) of the first before (ticket, key) of the second. */
  predicate Before(t: nat, w: Worker, t': nat, w': Worker) {
    t < t' || (t == t' && w < w')
  }

  function Max(a: nat, b: nat): nat { if a < b then b else a }

  function Min(a: real, b: real): real { if a < b then a else b }

  /** What the store looks like once the next operation of w has taken effect. */
  function Effect(s: State, w: Worker): State
    requires w < |s.phases|
  {
    match s.phases[w]
    case Prepared(due) => s.(markers := s.markers[w := Marker(0, due)])
    case Chosen(mine) => s.(markers := s.markers[w := mine])
    case Holding(_, Won) => s.(pending := false)
    case Holding(_, Executed) => s.(result := true)
    case Abandoning => s.(markers := s.markers - {w})
    case Cleaning(Published) => s.(input := false)
    case Cleaning(Condemned(victim, _)) => s.(markers := s.markers - {victim})
    case _ => s
  }

  /** READ of one listed key into `seen`; a key deleted since the LIST reads as nothing. */
  function Read(s: State, k: Worker, seen: Seen): Seen {
    if k in s.markers then seen[k := s.markers[k]] else seen
  }

  /** The phase after the next operation of w succeeds; `clock` and `k` are what it reads. */
  function Advance(c: Config, s: State, w: Worker, clock: real, k: Worker): Phase
    requires w < |s.phases|
  {
    match s.phases[w]
    case Idle => Idle
    case Sighted(m) => if m.expires < clock then Found else Idle
    case Found => if s.result || w in s.stopping then Idle else Checked
    case Checked => Prepared(clock + c.deadline + MARGIN)
    case Prepared(due) => Choosing(due)
    case Choosing(due) => Tallying(due, s.markers.Keys, map[], 0)
    case Tallying(due, todo, seen, top) =>
      if k in todo then
        Tallying(due, todo - {k}, Read(s, k, seen), top)
      else if todo == {} && k in seen then
        Tallying(due, {}, seen - {k}, if seen[k].expires > clock then Max(top, seen[k].ticket) else top)
      else if todo == {} && seen == map[] then
        Chosen(Marker(1 + top, due))
      else
        s.phases[w]
    case Chosen(mine) => Racing(mine, Waiting)
    case Racing(mine, lap) => AdvanceLap(c, s, w, mine, lap, clock, k)
    case Holding(mine, hold) => AdvanceHold(c, s, w, mine, hold, clock)
    case Cleaning(broom) => AdvanceBroom(s, w, broom, clock, k)
    case Abandoning => Idle
    case Dead => Dead
  }

  function AdvanceLap(c: Config, s: State, w: Worker, mine: Marker, lap: Lap, clock: real, k: Worker): Phase {
    match lap
    case Waiting =>
      if w in s.stopping || clock >= mine.expires - c.deadline - MARGIN / 2.0 then Abandoning
      else Racing(mine, Timed)
    case Timed => Racing(mine, Comparing(s.markers.Keys, map[], false, false))
    case Comparing(todo, seen, choosing, beaten) =>
      if k in todo then
        Racing(mine, Comparing(todo - {k}, Read(s, k, seen), choosing, beaten))
      else if todo == {} && k in seen then
        var peer := k != w && seen[k].expires > clock;
        Racing(mine, Comparing({}, seen - {k},
                               choosing || (peer && seen[k].ticket == 0),
                               beaten || (peer && Before(seen[k].ticket, k, mine.ticket, w))))
      else if todo == {} && seen == map[] then
        if choosing then Racing(mine, Waiting) else if beaten then Abandoning else Racing(mine, Verifying)
      else
        Racing(mine, lap)
    case Verifying =>
      if w in s.markers && s.markers[w] == mine then Racing(mine, Confirming) else Abandoning
    case Confirming => if s.result then Abandoning else Holding(mine, Won)
  }

  function AdvanceHold(c: Config, s: State, w: Worker, mine: Marker, hold: Hold, clock: real): Phase {
    match hold
    case Won => Holding(mine, Owner)
    case Owner => if w in s.markers then Holding(s.markers[w], Leased) else Idle
    case Leased =>
      var budget := Min(c.deadline, mine.expires - clock - MARGIN / 2.0);
      if budget <= 0.0 then Idle else Holding(mine, Executing(s.now + budget))
    case Executing(_) => Holding(mine, Executed)
    case Orphaned(_) => Dead
    case Executed => Cleaning(Published)
  }

  function AdvanceBroom(s: State, w: Worker, broom: Broom, clock: real, k: Worker): Phase {
    match broom
    case Published => Cleaning(Tidying)
    case Tidying => Cleaning(Sweeping(s.markers.Keys, map[]))
    case Sweeping(todo, seen) =>
      if k in todo then
        Cleaning(Sweeping(todo - {k}, Read(s, k, seen)))
      else if todo == {} && k in seen then
        if k == w || seen[k].expires < clock then Cleaning(Condemned(k, seen - {k}))
        else Cleaning(Sweeping({}, seen - {k}))
      else if todo == {} && seen == map[] then
        Idle
      else
        Cleaning(broom)
    case Condemned(_, seen) => Cleaning(Sweeping({}, seen))
  }

  /** Where an exception raised by the next operation leads: the claim's handler removes the own
      marker, everything else abandons the call and keeps what is stored. */
  function Handler(p: Phase): Phase {
    match p
    case Choosing(_) => Abandoning
    case Tallying(_, _, _, _) => Abandoning
    case Chosen(_) => Abandoning
    case Racing(_, _) => Abandoning
    case Holding(_, Won) => Abandoning
    case Holding(_, Orphaned(_)) => p
    case Dead => p
    case _ => Idle
  }

  function ClientStep(s: State): State {
    match s.client
    case Unsent => s.(client := Staged, input := true)
    case Staged => s.(client := Submitted, pending := true)
    case Submitted => if s.result then s.(client := Delivered) else s
    case Delivered => s.(client := Closed, input := false)
    case _ => s
  }

  /** An execution ends within its budget: time does not pass its end while it runs. */
  predicate MayPass(s: State, to: real) {
    s.now < to && forall w | 0 <= w < |s.phases| && Runs(s.phases[w]) :: to <= s.phases[w].hold.until
  }

  function Step(c: Config, s: State, a: Action): State {
    match a
    case Tick(to) => if MayPass(s, to) then s.(now := to) else s
    case Client => ClientStep(s)
    case Cancel => if s.client.Submitted? then s.(client := Cancelled, pending := false) else s
    case Stop(w) => s.(stopping := s.stopping + {w})
    case Crash(w) =>
      if w >= |s.phases| then s
      else if Runs(s.phases[w]) then At(s, w, Holding(s.phases[w].mine, Orphaned(s.phases[w].hold.until)))
      else At(s, w, Dead)
    case Look(w) =>
      if w < |s.phases| && s.phases[w].Idle? && s.pending then At(s, w, Found) else s
    case LookLease(w, k) =>
      if w < |s.phases| && s.phases[w].Idle? && k in s.markers then At(s, w, Sighted(s.markers[k])) else s
    case Act(w, clock, k) =>
      if w < |s.phases| && s.now <= clock <= s.now + c.skew
      then At(Effect(s, w), w, Advance(c, s, w, clock, k)) else s
    case Fault(w, applied) =>
      if w < |s.phases|
      then At(if applied then Effect(s, w) else s, w, Handler(s.phases[w])) else s
  }

  function Run(c: Config, s: State, actions: seq<Action>): State
    decreases |actions|
  {
    if actions == [] then s else Run(c, Step(c, s, actions[0]), actions[1..])
  }
}
