/** The batch dispatcher: checkpoints by digest, bounded lanes, one retry and a priority fallback lane.

    `History` says which sequences of executor calls and checkpoint writes are acceptable and what
    they leave on disk; the class in `Batch` is the scheduling loop, proved to produce only those. */
module History {

  import opened Optional

  datatype Lane = Ax | Kind | Docker | Plain(name: string)

  datatype Status = Ok | Quiet | SandboxFailure | InstrumentFailure | Oom | Failed

  datatype Item = Item(id: string, digest: string)

  datatype Attempt = Attempt(lane: Lane, status: Status, number: nat)

  datatype Record = Record(status: Status, attempts: seq<Attempt>, digest: string, fallbackPending: bool, done: bool)

  /** The checkpoint files, by item id. */
  type Saved = map<string, Record>

  datatype Event =
    | Call(item: Item, lane: Lane, outcome: Option<Status>) // one executor call, and the status it returned if any
    | Save(item: Item, lane: Lane, record: Record)          // one checkpoint written

  predicate Current(saved: Saved, x: Item) {
    x.id in saved && saved[x.id].digest == x.digest
  }

  /** A checkpoint of this very input is complete. */
  predicate Final(saved: Saved, x: Item) {
    Current(saved, x) && saved[x.id].done && !saved[x.id].fallbackPending
  }

  /** A checkpoint of this very input waits for the fallback lane. */
  predicate Awaits(saved: Saved, x: Item) {
    Current(saved, x) && saved[x.id].fallbackPending
  }

  function After(saved: Saved, e: Event): Saved {
    if e.Save? then saved[e.item.id := e.record] else saved
  }

  function Replay(saved: Saved, events: seq<Event>): Saved {
    if events == [] then saved
    else After(Replay(saved, events[..|events| - 1]), events[|events| - 1])
  }

  /** Finished items are left alone; a waiting one goes to docker only and keeps its attempts. */
  predicate Allowed(saved: Saved, e: Event) {
    && !Final(saved, e.item)
    && (Awaits(saved, e.item) ==> e.lane.Docker?)
    && (e.Save? ==>
          && e.record.digest == e.item.digest && e.record.done
          && (e.record.fallbackPending ==>
                (e.lane.Ax? || e.lane.Kind?) && (e.record.status.SandboxFailure? || e.record.status.Oom?))
          && (Awaits(saved, e.item) ==> saved[e.item.id].attempts <= e.record.attempts))
  }

  predicate Legal(saved: Saved, events: seq<Event>) {
    events == [] ||
    (Legal(saved, events[..|events| - 1]) && Allowed(Replay(saved, events[..|events| - 1]), events[|events| - 1]))
  }

  /** The number of executor calls for an item. */
  function Calls(events: seq<Event>, id: string): nat {
    if events == [] then 0
    else Calls(events[..|events| - 1], id)
         + (if events[|events| - 1].Call? && events[|events| - 1].item.id == id then 1 else 0)
  }

  /** The number of completions of an item. */
  function Saves(events: seq<Event>, id: string): nat {
    if events == [] then 0
    else Saves(events[..|events| - 1], id)
         + (if events[|events| - 1].Save? && events[|events| - 1].item.id == id then 1 else 0)
  }

  /** What the completions so far leave for this item. */
  predicate SavesLeave(saved: Saved, x: Item, saves: nat) {
    && saves <= 2
    && (saves == 1 ==> Final(saved, x) || Awaits(saved, x))
    && (saves == 2 ==> Final(saved, x))
  }

  lemma {:induction false} SavesAtMostTwice(saved: Saved, events: seq<Event>, x: Item)
    requires Legal(saved, events) && forall e | e in events && e.item.id == x.id :: e.item == x
    ensures SavesLeave(Replay(saved, events), x, Saves(events, x.id))
  {
    if events != [] {
      var front, last := events[..|events| - 1], events[|events| - 1];
      assert last in events && forall e | e in front :: e in events;
      SavesAtMostTwice(saved, front, x);
    }
  }

  // ----- what the executor returned -----

  datatype Try = Try(lane: Lane, outcome: Option<Status>)

  /** The executor calls for an item since its last checkpoint. */
  function Open(events: seq<Event>, id: string): seq<Try> {
    if events == [] then []
    else
      var last := events[|events| - 1];
      if last.item.id != id then Open(events[..|events| - 1], id)
      else if last.Save? then []
      else Open(events[..|events| - 1], id) + [Try(last.lane, last.outcome)]
  }

  /** A status after which the executor is called again while attempts remain. */
  predicate GoesOn(t: Try) {
    t.outcome == Some(SandboxFailure) || t.outcome == Some(InstrumentFailure)
  }

  function Earlier(saved: Saved, x: Item): seq<Attempt> {
    if Awaits(saved, x) then saved[x.id].attempts else []
  }

  /** A call is made only on the lane of the calls before it, after failures in sandbox or instrument, while attempts
      remain. A checkpoint is written when no further call is due: its status is what the last call returned, its
      attempts are the earlier ones and then exactly these calls in order, and it awaits docker if and only if a lane of
      the cluster failed in its sandbox or ran out of memory and there is a docker lane. */
  predicate Tells(lanes: seq<Lane>, attempts: nat, saved: Saved, open: seq<Try>, e: Event) {
    && (forall t | t in open :: t.lane == e.lane)
    && match e
       case Call(_, _, _) => |open| < attempts && forall t | t in open :: GoesOn(t)
       case Save(x, lane, r) =>
         && open != [] && open[|open| - 1].outcome == Some(r.status)
         && (|open| == attempts || !GoesOn(open[|open| - 1]))
         && Earlier(saved, x) <= r.attempts && |r.attempts| == |Earlier(saved, x)| + |open|
         && (forall k | 0 <= k < |open| ::
               && open[k].outcome == Some(r.attempts[|Earlier(saved, x)| + k].status)
               && r.attempts[|Earlier(saved, x)| + k].lane == lane && r.attempts[|Earlier(saved, x)| + k].number == k
               && (k < |open| - 1 ==> GoesOn(open[k])))
         && (r.fallbackPending <==>
               (lane.Ax? || lane.Kind?) && (r.status.SandboxFailure? || r.status.Oom?) && Docker in lanes)
  }

  predicate Truthful(lanes: seq<Lane>, attempts: nat, saved: Saved, events: seq<Event>) {
    events == [] ||
    var front, last := events[..|events| - 1], events[|events| - 1];
    && Truthful(lanes, attempts, saved, front)
    && Tells(lanes, attempts, Replay(saved, front), Open(front, last.item.id), last)
  }

  lemma ExtendOpen(lanes: seq<Lane>, attempts: nat, saved: Saved, events: seq<Event>, e: Event)
    ensures Truthful(lanes, attempts, saved, events + [e]) <==>
              Truthful(lanes, attempts, saved, events)
              && Tells(lanes, attempts, Replay(saved, events), Open(events, e.item.id), e)
    ensures Open(events + [e], e.item.id) ==
            if e.Save? then [] else Open(events, e.item.id) + [Try(e.lane, e.outcome)]
    ensures forall id | id != e.item.id :: Open(events + [e], id) == Open(events, id)
  {
    assert (events + [e])[..|events|] == events;
  }

  lemma Extend(saved: Saved, events: seq<Event>, e: Event)
    ensures Replay(saved, events + [e]) == After(Replay(saved, events), e)
    ensures Legal(saved, events + [e]) <==> Legal(saved, events) && Allowed(Replay(saved, events), e)
    ensures forall id :: Calls(events + [e], id) == Calls(events, id) + if e.Call? && e.item.id == id then 1 else 0
  {
    assert (events + [e])[..|events|] == events;
  }

  /** Sessions compose: a later dispatch starts from what the earlier, possibly crashed ones left. */
  lemma {:induction false} Sessions(saved: Saved, first: seq<Event>, second: seq<Event>)
    requires Legal(saved, first) && Legal(Replay(saved, first), second)
    ensures Legal(saved, first + second)
    ensures Replay(saved, first + second) == Replay(Replay(saved, first), second)
  {
    if second == [] {
      assert first + second == first;
    } else {
      var n := |second| - 1;
      Sessions(saved, first, second[..n]);
      assert first + second == (first + second[..n]) + [second[n]];
      Extend(saved, first + second[..n], second[n]);
    }
  }

  /** Over any number of sessions, a finished item is not executed again unless a checkpoint of
      another input was written for it in between. */
  lemma {:induction false} FinishedIsNotRepeated(saved: Saved, events: seq<Event>, i: nat, j: nat)
    requires Legal(saved, events) && i < j < |events|
    requires events[i].Save? && !events[i].record.fallbackPending
    requires events[j].Call? && events[j].item == events[i].item
    ensures exists k :: i < k < j && events[k].Save? && events[k].item.id == events[i].item.id &&
                        events[k].item.digest != events[i].item.digest
  {
    var x := events[i].item;
    if forall k :: i < k < j && events[k].Save? && events[k].item.id == x.id ==> events[k].item.digest == x.digest {
      LegalPrefix(saved, events, j + 1);
      assert events[..j + 1][..j] == events[..j];
      StaysFinal(saved, events, i, j);
    }
  }

  lemma {:induction false} LegalPrefix(saved: Saved, events: seq<Event>, n: nat)
    requires Legal(saved, events) && n <= |events|
    ensures Legal(saved, events[..n])
    decreases |events|
  {
    if n < |events| {
      LegalPrefix(saved, events[..|events| - 1], n);
      assert events[..|events| - 1][..n] == events[..n];
    } else {
      assert events[..n] == events;
    }
  }

  lemma {:induction false} StaysFinal(saved: Saved, events: seq<Event>, i: nat, j: nat)
    requires Legal(saved, events) && i < j <= |events|
    requires events[i].Save? && !events[i].record.fallbackPending
    requires forall k :: i < k < j && events[k].Save? && events[k].item.id == events[i].item.id ==>
                           events[k].item.digest == events[i].item.digest
    ensures Final(Replay(saved, events[..j]), events[i].item)
    decreases j
  {
    var last := events[j - 1];
    LegalPrefix(saved, events, j);
    assert events[..j][..j - 1] == events[..j - 1];
    if j - 1 > i {
      StaysFinal(saved, events, i, j - 1);
    }
  }
}
