/**
 Whole runs of the delaying deliverer, seen from outside: a log of the requests it
 accepted, the items it emitted and the moments its loop went to sleep.  The log
 determines what is pending, and from a legal log follow the delivery guarantees.
 */
module DeliveryLog {
  import opened DelivererHeap

  datatype Event =
    | Requested(item: Item)
    | Emitted(item: Item, now: int)
    | Slept(now: int, wakeUp: int)

  /** What is pending after a log. */
  function Replay(log: seq<Event>): map<string, Item> {
    if log == [] then map[]
    else
      var before := Replay(log[..|log|-1]);
      match log[|log|-1]
      case Requested(item) => Earliest(before, item)
      case Emitted(item, _) => before - {item.key}
      case Slept(_, _) => before
  }

  /** The event may happen when `pending` is pending. */
  ghost predicate Allowed(pending: map<string, Item>, e: Event) {
    match e
    case Requested(_) => true
    // only a pending item is emitted, none before its time, and no earlier item is passed over
    case Emitted(item, now) =>
      && item.key in pending && pending[item.key] == item && item.time <= now
      && forall k :: k in pending ==> item.time <= pending[k].time
    // when the loop goes to sleep nothing is due, and it will not oversleep anything pending
    case Slept(now, wakeUp) =>
      now < wakeUp && forall k :: k in pending ==> now < pending[k].time && wakeUp <= pending[k].time
  }

  ghost predicate Legal(log: seq<Event>) {
    forall i :: 0 <= i < |log| ==> Allowed(Replay(log[..i]), log[i])
  }

  lemma ReplayNext(log: seq<Event>, i: nat)
    requires i < |log|
    ensures Replay(log[..i+1]) ==
      match log[i]
      case Requested(item) => Earliest(Replay(log[..i]), item)
      case Emitted(item, _) => Replay(log[..i]) - {item.key}
      case Slept(_, _) => Replay(log[..i])
  {
    assert log[..i+1][..i] == log[..i];
  }

  lemma LegalExtended(log: seq<Event>, e: Event)
    requires Legal(log) && Allowed(Replay(log), e)
    ensures Legal(log + [e])
  {
    var log' := log + [e];
    forall i | 0 <= i < |log'| ensures Allowed(Replay(log'[..i]), log'[i]) {
      assert log'[..i] == log[..i];
      assert log[..|log|] == log;
    }
  }

  ghost predicate EmittedBetween(log: seq<Event>, a: int, b: int, key: string) {
    exists e :: a < e < b && 0 <= e < |log| && log[e].Emitted? && log[e].item.key == key
  }

  lemma {:induction false} ReplayKeys(log: seq<Event>)
    ensures forall k :: k in Replay(log) ==> Replay(log)[k].key == k
  {
    if log != [] { ReplayKeys(log[..|log|-1]); }
  }

  /** A request stays pending, possibly superseded by an earlier one, until its key is emitted. */
  lemma {:induction false} PendingUntilEmitted(log: seq<Event>, a: nat, b: nat)
    requires a < b <= |log| && log[a].Requested?
    requires !EmittedBetween(log, a, b, log[a].item.key)
    ensures log[a].item.key in Replay(log[..b])
    ensures Replay(log[..b])[log[a].item.key].time <= log[a].item.time
    decreases b
  {
    ReplayNext(log, b - 1);
    if a < b - 1 {
      assert !EmittedBetween(log, a, b - 1, log[a].item.key);
      PendingUntilEmitted(log, a, b - 1);
      assert !(log[b-1].Emitted? && log[b-1].item.key == log[a].item.key);
    }
  }

  /**
   No request is lost or late: once the loop has gone to sleep at or after a request's time,
   its key has been emitted since, with an item due no later than requested.
   */
  lemma NothingLostOrLate(log: seq<Event>, a: nat, s: nat)
    requires Legal(log)
    requires a < s < |log| && log[a].Requested? && log[s].Slept? && log[a].item.time <= log[s].now
    ensures exists e :: a < e < s && log[e].Emitted?
                        && log[e].item.key == log[a].item.key && log[e].item.time <= log[a].item.time
  {
    var key := log[a].item.key;
    assert Allowed(Replay(log[..s]), log[s]);
    if !EmittedBetween(log, a, s, key) { PendingUntilEmitted(log, a, s); }
    var e := FirstEmission(log, a, s, key);
    PendingUntilEmitted(log, a, e);
    assert Allowed(Replay(log[..e]), log[e]);
  }

  lemma {:induction false} FirstEmission(log: seq<Event>, a: int, b: int, key: string) returns (e: nat)
    requires EmittedBetween(log, a, b, key) && -1 <= a
    ensures a < e < b && e < |log| && log[e].Emitted? && log[e].item.key == key
    ensures !EmittedBetween(log, a, e, key)
    decreases b
  {
    e :| a < e < b && e < |log| && log[e].Emitted? && log[e].item.key == key;
    if EmittedBetween(log, a, e, key) {
      e := FirstEmission(log, a, e, key);
    }
  }

  /** What is pending was requested, and its key has not been emitted since. */
  lemma {:induction false} PendingWasRequested(log: seq<Event>, b: nat, key: string) returns (a: nat)
    requires b <= |log| && key in Replay(log[..b])
    ensures a < b && log[a] == Requested(Replay(log[..b])[key]) && log[a].item.key == key
    ensures !EmittedBetween(log, a, b, key)
    decreases b
  {
    ReplayNext(log, b - 1);
    ReplayKeys(log[..b]);
    if log[b-1] == Requested(Replay(log[..b])[key]) {
      a := b - 1;
    } else {
      a := PendingWasRequested(log, b - 1, key);
      assert !(log[b-1].Emitted? && log[b-1].item.key == key);
    }
  }

  /**
   Every emitted item is one that was requested, each request is emitted at most once, never
   early, and it is the earliest among all requests for its key since that key was last emitted.
   */
  lemma EmittedOnceAndEarliest(log: seq<Event>, e: nat) returns (a: nat)
    requires Legal(log) && e < |log| && log[e].Emitted?
    ensures a < e && log[a] == Requested(log[e].item) && log[e].item.time <= log[e].now
    ensures !EmittedBetween(log, a, e, log[e].item.key)
    ensures forall c | 0 <= c < e && log[c].Requested? && log[c].item.key == log[e].item.key
                       && !EmittedBetween(log, c, e, log[e].item.key) :: log[e].item.time <= log[c].item.time
  {
    assert Allowed(Replay(log[..e]), log[e]);
    a := PendingWasRequested(log, e, log[e].item.key);
    forall c | 0 <= c < e && log[c].Requested? && log[c].item.key == log[e].item.key
               && !EmittedBetween(log, c, e, log[e].item.key)
      ensures log[e].item.time <= log[c].item.time
    {
      PendingUntilEmitted(log, c, e);
    }
  }

  /** Between two sleeps without new requests, items leave in non-decreasing order of time. */
  lemma {:induction false} EmittedInOrder(log: seq<Event>, e: nat, f: nat)
    requires Legal(log) && e < f < |log| && log[e].Emitted? && log[f].Emitted?
    requires forall i :: e < i < f ==> !log[i].Requested?
    ensures log[e].item.time <= log[f].item.time
  {
    assert Allowed(Replay(log[..e]), log[e]) && Allowed(Replay(log[..f]), log[f]);
    OnlyShrinks(log, e, f);
  }

  lemma {:induction false} OnlyShrinks(log: seq<Event>, e: nat, f: nat)
    requires e <= f <= |log|
    requires forall i :: e <= i < f ==> !log[i].Requested?
    ensures forall k :: k in Replay(log[..f]) ==> k in Replay(log[..e]) && Replay(log[..f])[k] == Replay(log[..e])[k]
    decreases f
  {
    if e < f {
      OnlyShrinks(log, e, f - 1);
      ReplayNext(log, f - 1);
    }
  }

  // ---------- The clock of a turn ----------

  /** Whatever was emitted since the loop last slept was emitted at `now`. */
  predicate EmittedAt(log: seq<Event>, now: int) {
    log == [] || log[|log|-1].Slept? ||
    ((log[|log|-1].Emitted? ==> log[|log|-1].now == now) && EmittedAt(log[..|log|-1], now))
  }

  /** Nothing was emitted since the loop last slept. */
  ghost predicate AtRest(log: seq<Event>) {
    forall now :: EmittedAt(log, now)
  }

  /** Everything emitted before a sleep was emitted at the time the loop went to sleep by. */
  predicate Clocked(log: seq<Event>) {
    log == [] || (Clocked(log[..|log|-1]) && (log[|log|-1].Slept? ==> EmittedAt(log[..|log|-1], log[|log|-1].now)))
  }

  lemma {:induction false} EmittedSinceSleep(log: seq<Event>, now: int, e: nat)
    requires EmittedAt(log, now) && e < |log| && log[e].Emitted?
    requires forall i :: e < i < |log| ==> !log[i].Slept?
    ensures log[e].now == now
  {
    if e < |log| - 1 { EmittedSinceSleep(log[..|log|-1], now, e); }
  }

  /**
   Nothing is sent early, by the clock of the turn itself: each item was emitted in a turn that read the
   clock once, at `log[s].now`, and was due by then.
   */
  lemma {:induction false} EmittedByTheClock(log: seq<Event>, e: nat) returns (s: nat)
    requires Legal(log) && Clocked(log) && AtRest(log)
    requires e < |log| && log[e].Emitted?
    ensures e < s < |log| && log[s].Slept? && (forall i :: e < i < s ==> !log[i].Slept?)
    ensures log[e].now == log[s].now && log[e].item.time <= log[s].now
  {
    s := SleepAfter(log, e);
    ClockedPrefix(log, s);
    EmittedSinceSleep(log[..s], log[s].now, e);
    assert Allowed(Replay(log[..e]), log[e]);
  }

  lemma {:induction false} ClockedPrefix(log: seq<Event>, s: nat)
    requires Clocked(log) && s < |log| && log[s].Slept?
    ensures EmittedAt(log[..s], log[s].now)
  {
    if s < |log| - 1 {
      ClockedPrefix(log[..|log|-1], s);
      assert log[..|log|-1][..s] == log[..s];
    }
  }

  lemma {:induction false} SleepAfter(log: seq<Event>, e: nat) returns (s: nat)
    requires AtRest(log) && e < |log| && log[e].Emitted?
    ensures e < s < |log| && log[s].Slept? && forall i :: e < i < s ==> !log[i].Slept?
  {
    if i :| e < i < |log| && log[i].Slept? {
      s := FirstSleep(log, e, i);
    } else {
      EmittedSinceSleep(log, log[e].now + 1, e);
    }
  }

  lemma {:induction false} FirstSleep(log: seq<Event>, e: nat, b: nat) returns (s: nat)
    requires e < b < |log| && log[b].Slept?
    ensures e < s < |log| && log[s].Slept? && forall i :: e < i < s ==> !log[i].Slept?
    decreases b
  {
    if i :| e < i < b && log[i].Slept? {
      s := FirstSleep(log, e, i);
    } else {
      s := b;
    }
  }

  // ---------- What a log records of a run ----------

  /** The items a log says were emitted, in order. */
  function EmittedItems(log: seq<Event>): seq<Item> {
    if log == [] then []
    else EmittedItems(log[..|log|-1]) + if log[|log|-1].Emitted? then [log[|log|-1].item] else []
  }

  /** The log without its emissions and computed wake-up times: what the environment did. */
  function Stimuli(log: seq<Event>): seq<Event> {
    if log == [] then []
    else
      Stimuli(log[..|log|-1]) +
      match log[|log|-1]
      case Requested(item) => [Requested(item)]
      case Emitted(_, _) => []
      case Slept(now, _) => [Slept(now, now)]
  }
}
