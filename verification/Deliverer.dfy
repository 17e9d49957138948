/**
 The delaying deliverer: its heap, the target channel as the sequence of what was sent
 to it, and the loop that delivers, sleeps and accepts requests.
 */
module Deliverer {
  import opened DelivererHeap
  import opened DeliveryLog

  /** An hour, in the unit of time (nanoseconds). */
  const HOUR := 3_600_000_000_000

  /** Why the loop woke up: its timer, a request, or the stop channel. */
  datatype Wake = Timer | Update(item: Item) | Stop

  /** One turn of the loop: the clock it reads, and what wakes it afterwards. */
  datatype Turn = Turn(now: int, wake: Wake)

  function TurnStimuli(t: Turn): seq<Event> {
    [Slept(t.now, t.now)] + if t.wake.Update? then [Requested(t.wake.item)] else []
  }

  /** What the environment does over the turns, up to the first stop. */
  function Script(turns: seq<Turn>): seq<Event> {
    if turns == [] then []
    else TurnStimuli(turns[0]) + if turns[0].wake.Stop? then [] else Script(turns[1..])
  }

  lemma ScriptNext(turns: seq<Turn>, i: nat)
    requires i < |turns|
    ensures Script(turns[i..]) ==
      if turns[i].wake.Stop? then TurnStimuli(turns[i]) else TurnStimuli(turns[i]) + Script(turns[i+1..])
  {
    assert turns[i..][1..] == turns[i+1..];
  }

  /** `batch` is everything due at `now`, in non-decreasing order of time, each key once. */
  ghost predicate IsDelivery(before: map<string, Item>, now: int, batch: seq<Item>, after: map<string, Item>) {
    && InOrder(batch)
    && (forall item :: item in batch <==> item.key in before && before[item.key] == item && item.time <= now)
    && after == map k | k in before && now < before[k].time :: before[k]
  }

  ghost predicate InOrder(batch: seq<Item>) {
    forall i, j :: 0 <= i < j < |batch| ==> batch[i].time <= batch[j].time && batch[i].key != batch[j].key
  }

  ghost predicate Keyed(pending: map<string, Item>) {
    forall k :: k in pending ==> pending[k].key == k
  }

  /** Part of what is due has been sent, the rest is still pending. */
  ghost predicate Delivering(before: map<string, Item>, now: int, batch: seq<Item>, pending: map<string, Item>) {
    && InOrder(batch)
    && (forall k :: k in pending ==> k in before && before[k] == pending[k])
    && (forall k :: k in before && k !in pending ==> before[k] in batch)
    && (forall item :: item in batch ==>
          item.key in before && before[item.key] == item && item.time <= now && item.key !in pending)
    && (forall item, k :: item in batch && k in pending ==> item.time <= pending[k].time)
  }

  lemma DeliverOne(before: map<string, Item>, now: int, batch: seq<Item>, pending: map<string, Item>, item: Item)
    requires Delivering(before, now, batch, pending)
    requires item.key in pending && pending[item.key] == item && item.time <= now
    requires forall k :: k in pending ==> item.time <= pending[k].time
    ensures Delivering(before, now, batch + [item], pending - {item.key})
  {
    assert forall i :: 0 <= i < |batch| ==> batch[i] in batch;
    assert (batch + [item])[|batch|] == item;
    forall k | k in before && k !in pending - {item.key} ensures before[k] in batch + [item] {
      if k in pending { assert k == item.key; }
    }
  }

  lemma DeliveryDone(before: map<string, Item>, now: int, earlier: seq<Item>, batch: seq<Item>, pending: map<string, Item>)
    requires Keyed(before) && Delivering(before, now, batch, pending)
    requires forall k :: k in pending ==> now < pending[k].time
    ensures IsDelivery(before, now, (earlier + batch)[|earlier|..], pending)
  {
    assert (earlier + batch)[|earlier|..] == batch;
  }

  /** All that was logged since is emissions at `now`. */
  ghost predicate OnlyEmits(before: seq<Event>, log: seq<Event>, now: int) {
    before <= log && EmittedAt(log, now) && Stimuli(log) == Stimuli(before)
  }

  lemma OnlyEmitsSince(a: seq<Event>, b: seq<Event>, c: seq<Event>, now: int)
    requires OnlyEmits(a, b, now) && OnlyEmits(b, c, now)
    ensures OnlyEmits(a, c, now)
  {
  }

  /** The log says that the turn went to sleep at its time, and what woke it if that was a request. */
  predicate LoggedAt(log: seq<Event>, s: int, turn: Turn) {
    && 0 <= s < |log| && log[s].Slept? && log[s].now == turn.now
    && (turn.wake.Update? ==> s + 1 < |log| && log[s+1] == Requested(turn.wake.item))
  }

  ghost predicate Logged(log: seq<Event>, from: int, turn: Turn) {
    exists s :: from <= s && LoggedAt(log, s, turn)
  }

  ghost predicate LoggedUpTo(log: seq<Event>, from: int, turns: seq<Turn>, i: int) {
    forall k :: 0 <= k < i && k < |turns| ==> Logged(log, from, turns[k])
  }

  /** What a turn adds to the log once everything due has been delivered. */
  lemma TurnDone(before: seq<Event>, delivered: seq<Event>, wakeUp: int, turn: Turn)
    requires before <= delivered && Stimuli(delivered) == Stimuli(before)
    ensures var slept := delivered + [Slept(turn.now, wakeUp)];
      if turn.wake.Update? then TurnAdds(before, slept + [Requested(turn.wake.item)], turn) else TurnAdds(before, slept, turn)
  {
    var slept := delivered + [Slept(turn.now, wakeUp)];
    assert slept[..|slept|-1] == delivered;
    assert Stimuli(slept) == Stimuli(before) + [Slept(turn.now, turn.now)];
    if turn.wake.Update? {
      var requested := slept + [Requested(turn.wake.item)];
      assert requested[..|requested|-1] == slept;
      AssociateLeft(Stimuli(before), [Slept(turn.now, turn.now)], [Requested(turn.wake.item)]);
      assert LoggedAt(requested, |delivered|, turn);
    } else {
      assert LoggedAt(slept, |delivered|, turn);
    }
  }

  ghost predicate TurnAdds(before: seq<Event>, log: seq<Event>, turn: Turn) {
    && before <= log && Stimuli(log) == Stimuli(before) + TurnStimuli(turn)
    && exists s :: |before| <= s && LoggedAt(log, s, turn)
  }

  lemma LoggedNext(a: seq<Event>, b: seq<Event>, from: int, turns: seq<Turn>, i: nat)
    requires a <= b && from <= |a| && LoggedUpTo(a, from, turns, i) && i < |turns|
    requires exists s :: |a| <= s && LoggedAt(b, s, turns[i])
    ensures LoggedUpTo(b, from, turns, i + 1)
  {
    var s :| |a| <= s && LoggedAt(b, s, turns[i]);
    forall k | 0 <= k < i ensures Logged(b, from, turns[k]) {
      var t :| from <= t && LoggedAt(a, t, turns[k]);
      assert LoggedAt(b, t, turns[k]);
    }
  }

  /** What the log says after the first `i` turns. */
  ghost predicate RunSoFar(start: seq<Event>, log: seq<Event>, turns: seq<Turn>, i: int, done: seq<Event>) {
    && 0 <= i <= |turns| && start <= log
    && Stimuli(log) == Stimuli(start) + done
    && done + Script(turns[i..]) == Script(turns)
    && LoggedUpTo(log, |start|, turns, i)
  }

  lemma RunNext(start: seq<Event>, before: seq<Event>, log: seq<Event>, turns: seq<Turn>, i: nat, done: seq<Event>)
    requires RunSoFar(start, before, turns, i, done) && i < |turns| && TurnAdds(before, log, turns[i])
    ensures var done' := done + TurnStimuli(turns[i]);
      && start <= log && Stimuli(log) == Stimuli(start) + done' && LoggedUpTo(log, |start|, turns, i + 1)
      && (if turns[i].wake.Stop? then done' == Script(turns) else RunSoFar(start, log, turns, i + 1, done'))
  {
    ScriptNext(turns, i);
    AssociateLeft(done, TurnStimuli(turns[i]), Script(turns[i+1..]));
    AssociateLeft(Stimuli(start), done, TurnStimuli(turns[i]));
    PrefixOfLonger(start, before, log);
    LoggedNext(before, log, |start|, turns, i);
  }

  class DelayingDeliverer {
    const heap: Heap
    var sent: seq<Item>
    ghost var log: seq<Event>

    ghost predicate Valid()
      reads this, heap
    {
      && heap.Valid() && Keyed(heap.Pending())
      && Legal(log) && Clocked(log) && Replay(log) == heap.Pending() && EmittedItems(log) == sent
    }

    constructor ()
      ensures Valid() && AtRest(log) && fresh(heap) && log == [] && sent == [] && heap.Pending() == map[]
    {
      heap := new Heap();
      sent := [];
      log := [];
    }

    ghost method Record(e: Event)
      requires Legal(log) && Clocked(log) && Allowed(Replay(log), e)
      requires e.Slept? ==> EmittedAt(log, e.now)
      modifies this`log
      ensures log == old(log) + [e] && Legal(log) && Clocked(log)
      ensures forall now :: EmittedAt(log, now) <==> e.Slept? || (EmittedAt(old(log), now) && (e.Emitted? ==> e.now == now))
      ensures Replay(log) == match e
        case Requested(item) => Earliest(old(Replay(log)), item)
        case Emitted(item, _) => old(Replay(log)) - {item.key}
        case Slept(_, _) => old(Replay(log))
      ensures EmittedItems(log) == EmittedItems(old(log)) + if e.Emitted? then [e.item] else []
      ensures Stimuli(log) == Stimuli(old(log)) +
        match e
        case Requested(item) => [Requested(item)]
        case Emitted(_, _) => []
        case Slept(now, _) => [Slept(now, now)]
    {
      LegalExtended(log, e);
      log := log + [e];
      assert log[..|log|-1] == old(log);
    }

    /** Sends the earliest item, which is due. */
    method SendEarliest(now: int) returns (item: Item)
      requires Valid() && EmittedAt(log, now) && |heap.data| > 0 && heap.data[0].time <= now
      modifies this, heap
      ensures item.key in old(heap.Pending()) && old(heap.Pending())[item.key] == item && item.time <= now
      ensures forall k :: k in old(heap.Pending()) ==> item.time <= old(heap.Pending())[k].time
      ensures Valid() && heap.Pending() == old(heap.Pending()) - {item.key}
      ensures sent == old(sent) + [item]
      ensures OnlyEmits(old(log), log, now)
      ensures |heap.data| < |old(heap.data)|
    {
      item := heap.HeapPop();
      Record(Emitted(item, now));
      sent := sent + [item];
    }

    lemma NothingDue(now: int)
      requires Valid() && (|heap.data| == 0 || now < heap.data[0].time)
      ensures forall k :: k in heap.Pending() ==> now < heap.Pending()[k].time
    {
      forall k | k in heap.Pending() ensures now < heap.Pending()[k].time {
        RootIsEarliest(heap.data, heap.keyPosition[k]);
      }
    }

    /** Sends everything due at `now`. */
    method Deliver(now: int)
      requires Valid() && EmittedAt(log, now)
      modifies this, heap
      ensures Valid() && old(sent) <= sent && OnlyEmits(old(log), log, now)
      ensures IsDelivery(old(heap.Pending()), now, sent[|old(sent)|..], heap.Pending())
    {
      ghost var before := heap.Pending();
      ghost var batch: seq<Item> := [];
      while |heap.data| > 0 && !(now < heap.data[0].time)
        invariant Valid() && sent == old(sent) + batch && OnlyEmits(old(log), log, now)
        invariant Delivering(before, now, batch, heap.Pending())
        decreases |heap.data|
      {
        ghost var pending, logged := heap.Pending(), log;
        var item := SendEarliest(now);
        OnlyEmitsSince(old(log), logged, log, now);
        DeliverOne(before, now, batch, pending, item);
        AssociateLeft(old(sent), batch, [item]);
        batch := batch + [item];
      }
      NothingDue(now);
      DeliveryDone(before, now, old(sent), batch, heap.Pending());
    }

    /** When to wake up next, if nothing else happens before. */
    method NextWakeUp(now: int) returns (wakeUp: int)
      requires Valid()
      ensures heap.Pending() == map[] ==> wakeUp == now + HOUR
      ensures forall k :: k in heap.Pending() ==> wakeUp <= heap.Pending()[k].time
      ensures heap.Pending() != map[] ==> exists k :: k in heap.Pending() && heap.Pending()[k].time == wakeUp
    {
      wakeUp := now + HOUR;
      if |heap.data| > 0 {
        wakeUp := heap.data[0].time;
        forall k | k in heap.Pending() ensures wakeUp <= heap.Pending()[k].time {
          RootIsEarliest(heap.data, heap.keyPosition[k]);
        }
        assert heap.data[0].key in heap.Pending();
      } else {
        assert heap.Pending() == map[];
      }
    }

    /** Goes to sleep, with nothing due. */
    method Sleep(now: int) returns (nextWakeUp: int)
      requires Valid() && EmittedAt(log, now) && forall k :: k in heap.Pending() ==> now < heap.Pending()[k].time
      modifies this`log
      ensures AtRest(log) && log == old(log) + [Slept(now, nextWakeUp)]
      ensures Valid() && Stimuli(log) == Stimuli(old(log)) + [Slept(now, now)]
    {
      nextWakeUp := NextWakeUp(now);
      Record(Slept(now, nextWakeUp));
    }

    /** Takes a request from the update channel. */
    method OnRequest(item: Item)
      requires Valid() && AtRest(log)
      modifies this`log, heap
      ensures AtRest(log) && log == old(log) + [Requested(item)]
      ensures Valid() && Stimuli(log) == Stimuli(old(log)) + [Requested(item)]
    {
      heap.Accept(item);
      Record(Requested(item));
    }

    /** One turn of the loop. */
    method TakeTurn(turn: Turn)
      requires Valid() && AtRest(log)
      modifies this, heap
      ensures AtRest(log) && Valid() && old(sent) <= sent
      ensures TurnAdds(old(log), log, turn)
    {
      Deliver(turn.now);
      ghost var delivered := log;
      var wakeUp := Sleep(turn.now);
      TurnDone(old(log), delivered, wakeUp, turn);
      match turn.wake
      case Timer =>
      case Update(item) =>
        OnRequest(item);
      case Stop =>
    }

    /**
     The loop, over any sequence of turns until it is stopped.  Its log records exactly what the
     turns did and what was sent, and stays legal: what is proved about legal logs holds for every run.
     */
    method Run(turns: seq<Turn>)
      requires Valid() && AtRest(log)
      modifies this, heap
      ensures AtRest(log) && old(log) <= log
      ensures Valid() && old(sent) <= sent
      ensures Stimuli(log) == Stimuli(old(log)) + Script(turns)
      ensures forall i :: 0 <= i < |turns| && (forall j :: 0 <= j < i ==> !turns[j].wake.Stop?) ==> Logged(log, |old(log)|, turns[i])
    {
      var i := 0;
      ghost var done: seq<Event> := [];
      while i < |turns|
        invariant 0 <= i <= |turns|
        invariant Valid() && AtRest(log)
        invariant old(sent) <= sent
        invariant RunSoFar(old(log), log, turns, i, done)
      {
        ghost var before, sentBefore := log, sent;
        TakeTurn(turns[i]);
        PrefixOfLonger(old(sent), sentBefore, sent);
        RunNext(old(log), before, log, turns, i, done);
        done := done + TurnStimuli(turns[i]);
        if turns[i].wake.Stop? {
          return;
        }
        i := i + 1;
      }
    }
  }

  lemma PrefixOfLonger<T>(a: seq<T>, b: seq<T>, c: seq<T>)
    requires a <= b <= c
    ensures a <= c && |a| <= |b|
  {
  }

  lemma AssociateLeft<T>(a: seq<T>, b: seq<T>, c: seq<T>)
    ensures a + (b + c) == (a + b) + c
  {
  }
}
